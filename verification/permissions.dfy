/**
 * The permissions hook: the list of non-admin users, each with the site
 * grants that name them, and granting or revoking one site. The admin's
 * checkbox decides which of the two a click performs.
 */
module UserPermissions {
  import opened Wrappers
  import opened Seqs
  import opened Schema
  import opened Requests

  /** A user row joined with the permission rows that name the user. */
  datatype UserWithPermissions = UserWithPermissions(user: UserRow, permissions: seq<PermissionRow>)

  function IsNotAdmin(u: UserRow): bool { u.role != Admin }

  /** One user with `permissionsData.filter(p => p.user_id === user.id)`. */
  function Attach(u: UserRow, perms: seq<PermissionRow>): (w: UserWithPermissions)
    ensures w.user == u
    ensures forall g :: g in w.permissions <==> g in perms && g.userId == u.id
  {
    UserWithPermissions(u, Filter(perms, GrantedTo(u.id)))
  }

  /** The users that are not admins (`neq('role', 'admin')`), each with the permission rows naming them. */
  function JoinUsers(users: seq<UserRow>, perms: seq<PermissionRow>): (r: seq<UserWithPermissions>)
    ensures |r| == |Filter(users, IsNotAdmin)|
    ensures forall i :: 0 <= i < |r| ==> r[i].user == Filter(users, IsNotAdmin)[i]
    ensures forall i :: 0 <= i < |r| ==> r[i].user.role != Admin && r[i].user in users
    ensures forall i :: 0 <= i < |r| ==> forall g :: g in r[i].permissions <==> g in perms && g.userId == r[i].user.id
    ensures forall u :: u in users && u.role != Admin ==> exists i :: 0 <= i < |r| && r[i].user == u
  {
    var listed := Filter(users, IsNotAdmin);
    var r := seq(|listed|, i requires 0 <= i < |listed| => Attach(listed[i], perms));
    assert forall i :: 0 <= i < |r| ==> r[i].user == listed[i];
    assert forall i :: 0 <= i < |r| ==> listed[i] in listed;
    forall u | u in users && u.role != Admin
      ensures exists i :: 0 <= i < |r| && r[i].user == u
    {
      assert u in listed;
      var i :| 0 <= i < |listed| && listed[i] == u;
      assert r[i].user == u;
    }
    r
  }

  /**
   * `fetchUsersWithPermissions`: the joined list, or the message of the
   * first query that failed (the user query is issued first).
   */
  function FetchUsers(
    users: seq<UserRow>, perms: seq<PermissionRow>,
    usersError: Option<string>, permsError: Option<string>): (r: Result<seq<UserWithPermissions>, string>)
    ensures usersError.Some? ==> r == Failure(usersError.value)
    ensures usersError.None? && permsError.Some? ==> r == Failure(permsError.value)
    ensures r.Success? <==> usersError.None? && permsError.None?
    ensures r.Success? ==> r.value == JoinUsers(users, perms)
  {
    if usersError.Some? then Failure(usersError.value)
    else if permsError.Some? then Failure(permsError.value)
    else Success(JoinUsers(users, perms))
  }

  /** `user.permissions.some(p => p.polo === polo)`: the checkbox state. */
  predicate HasPermission(u: UserWithPermissions, polo: Polo) {
    exists g :: g in u.permissions && g.polo == polo
  }

  /** The checkbox of a listed user is ticked exactly when the table holds a grant of that site for that user. */
  lemma CheckboxShowsGrant(users: seq<UserRow>, perms: seq<PermissionRow>, i: nat, polo: Polo)
    requires i < |JoinUsers(users, perms)|
    ensures
      var u := JoinUsers(users, perms)[i];
      HasPermission(u, polo) <==> HasGrant(perms, u.user.id, polo)
  {
    var u := JoinUsers(users, perms)[i];
    if HasGrant(perms, u.user.id, polo) {
      var g :| g in perms && g.userId == u.user.id && g.polo == polo;
      assert g in u.permissions;
    }
  }

  /** The table after a grant or revoke, and whether the list is fetched again. */
  datatype Change = Change(table: seq<PermissionRow>, refetch: bool)

  /** `grantPoloPermission`: a new row for the pair is inserted, whether or not one exists already. */
  function Grant(table: seq<PermissionRow>, userId: string, polo: Polo, newId: string, insertError: Option<string>): (c: Change)
    ensures insertError.Some? ==> c == Change(table, false)
    ensures insertError.None? ==> c.refetch && c.table == table + [PermissionRow(newId, userId, polo, None)]
    ensures insertError.None? ==> HasGrant(c.table, userId, polo)
  {
    if insertError.Some? then Change(table, false)
    else
      var row := PermissionRow(newId, userId, polo, None);
      assert row in table + [row];
      Change(table + [row], true)
  }

  function IsPair(userId: string, polo: Polo): PermissionRow -> bool {
    (g: PermissionRow) => g.userId == userId && g.polo == polo
  }

  /** `revokePoloPermission`: every row for the pair is deleted; other rows stay, in order. */
  function Revoke(table: seq<PermissionRow>, userId: string, polo: Polo, deleteError: Option<string>): (c: Change)
    ensures deleteError.Some? ==> c == Change(table, false)
    ensures deleteError.None? ==> c.refetch && !HasGrant(c.table, userId, polo)
    ensures deleteError.None? ==> forall g :: g in c.table <==> g in table && !(g.userId == userId && g.polo == polo)
    ensures deleteError.None? ==> IsSubsequence(c.table, table)
  {
    if deleteError.Some? then Change(table, false)
    else
      FilterSubsequence(table, Not(IsPair(userId, polo)));
      Change(Filter(table, Not(IsPair(userId, polo))), true)
  }

  function PairCount(table: seq<PermissionRow>, userId: string, polo: Polo): nat {
    |Filter(table, IsPair(userId, polo))|
  }

  /** Granting a site twice leaves two rows for the pair: grants are not deduplicated. */
  lemma GrantTwiceAddsTwoRows(table: seq<PermissionRow>, userId: string, polo: Polo, id1: string, id2: string)
    ensures
      var once := Grant(table, userId, polo, id1, None).table;
      var twice := Grant(once, userId, polo, id2, None).table;
      PairCount(twice, userId, polo) == PairCount(table, userId, polo) + 2
  {
    var once := Grant(table, userId, polo, id1, None).table;
    var twice := Grant(once, userId, polo, id2, None).table;
    FilterAppendAccepted(table, PermissionRow(id1, userId, polo, None), IsPair(userId, polo));
    FilterAppendAccepted(once, PermissionRow(id2, userId, polo, None), IsPair(userId, polo));
  }

  /** Revoking after a grant leaves the same table as revoking without it. */
  lemma RevokeUndoesGrant(table: seq<PermissionRow>, userId: string, polo: Polo, newId: string)
    ensures
      Revoke(Grant(table, userId, polo, newId, None).table, userId, polo, None).table
      == Revoke(table, userId, polo, None).table
  {
    FilterAppendRejected(table, PermissionRow(newId, userId, polo, None), Not(IsPair(userId, polo)));
  }

  /**
   * `handlePermissionChange`: a click on a ticked box revokes, on an empty
   * box grants. Errors of either leave the table as it was.
   */
  function PermissionChange(
    table: seq<PermissionRow>, userId: string, polo: Polo, hasPermission: bool,
    newId: string, error: Option<string>): (c: Change)
    ensures hasPermission ==> c == Revoke(table, userId, polo, error)
    ensures !hasPermission ==> c == Grant(table, userId, polo, newId, error)
  {
    if hasPermission then Revoke(table, userId, polo, error)
    else Grant(table, userId, polo, newId, error)
  }

  /** A successful click flips the box: the refetched list shows the opposite state. */
  lemma ClickFlipsCheckbox(table: seq<PermissionRow>, userId: string, polo: Polo, newId: string)
    ensures
      var c := PermissionChange(table, userId, polo, HasGrant(table, userId, polo), newId, None);
      HasGrant(c.table, userId, polo) <==> !HasGrant(table, userId, polo)
  {
  }
}
