/**
 * The requests hook: which requests a signed-in user is shown (by role and,
 * for a manager, by the sites they may see), in which order, with the
 * `dependents` column normalised; and the payload `createRequest` inserts.
 *
 * The two queries of `fetchRequests` are filters over in-memory tables; a
 * failed query is an `Option` parameter.
 */
module Requests {
  import opened Wrappers
  import opened Seqs
  import opened Schema

  /** The outcome of one `fetchRequests` call, as the hook's state sees it. */
  datatype FetchOutcome =
    | Skipped                          // no profile: nothing happens
    | Cleared                          // a manager with no site at all: empty list, error cleared
    | Loaded(rows: seq<RequestRow>)    // the list shown, error cleared
    | Failed(message: string)          // the error message recorded

  function PoloOf(g: PermissionRow): Polo { g.polo }

  function GrantedTo(userId: string): PermissionRow -> bool {
    (g: PermissionRow) => g.userId == userId
  }

  /** The user holds a grant for the site in the permissions table. */
  predicate HasGrant(grants: seq<PermissionRow>, userId: string, p: Polo) {
    exists g :: g in grants && g.userId == userId && g.polo == p
  }

  /** The sites granted to one user, in table order: `permissions.map(p => p.polo)`. */
  function GrantedPolos(grants: seq<PermissionRow>, userId: string): (r: seq<Polo>)
    ensures forall p :: p in r <==> HasGrant(grants, userId, p)
  {
    var mine := Filter(grants, GrantedTo(userId));
    var r := Map(mine, PoloOf);
    forall p ensures p in r <==> HasGrant(grants, userId, p) {
      MapMembership(mine, PoloOf, p);
    }
    r
  }

  /**
   * The sites a manager's requests are drawn from: the manager's home site
   * first, if set, then the sites granted to the manager, each site once.
   */
  function AllowedPolosForFetch(profile: UserRow, grants: seq<PermissionRow>): (r: seq<Polo>)
    ensures forall p :: p in r <==> profile.polo == Some(p) || HasGrant(grants, profile.id, p)
    ensures NoDuplicates(r)
    ensures profile.polo.Some? ==> |r| > 0 && r[0] == profile.polo.value
    ensures |r| == 0 <==> profile.polo.None? && forall p :: !HasGrant(grants, profile.id, p)
  {
    var home: seq<Polo> := if profile.polo.Some? then [profile.polo.value] else [];
    var granted := GrantedPolos(grants, profile.id);
    var all := home + granted;
    assert forall p :: p in all <==> p in home || p in granted;
    var r := Dedup(all);
    assert |r| == 0 <==> |all| == 0;
    assert |granted| == 0 <==> forall p :: !HasGrant(grants, profile.id, p) by {
      if |granted| > 0 {
        assert granted[0] in granted;
      }
    }
    r
  }

  /**
   * Which requests a user may be shown, stated per role: a requester their
   * own, a manager those of their home site or a granted site, an admin all.
   */
  predicate Visible(profile: UserRow, grants: seq<PermissionRow>, row: RequestRow) {
    match profile.role
    case Solicitante => row.userId == profile.id
    case Gestora => profile.polo == Some(row.polo) || HasGrant(grants, profile.id, row.polo)
    case Admin => true
  }

  function VisibleTo(profile: UserRow, grants: seq<PermissionRow>): RequestRow -> bool {
    (row: RequestRow) => Visible(profile, grants, row)
  }

  function OwnedBy(userId: string): RequestRow -> bool {
    (row: RequestRow) => row.userId == userId
  }

  function InPolos(polos: seq<Polo>): RequestRow -> bool {
    (row: RequestRow) => row.polo in polos
  }

  function CreatedAt(row: RequestRow): int { row.createdAt }

  /** The rows the role's query selects, before ordering: `eq('user_id')`, `in('polo')` or no filter. */
  function RoleQuery(profile: UserRow, grants: seq<PermissionRow>, table: seq<RequestRow>): (r: seq<RequestRow>)
    ensures forall row :: row in r <==> row in table && Visible(profile, grants, row)
    ensures r == Filter(table, VisibleTo(profile, grants))
    ensures profile.role == Admin ==> r == table
  {
    match profile.role
    case Solicitante =>
      FilterSame(table, OwnedBy(profile.id), VisibleTo(profile, grants));
      Filter(table, OwnedBy(profile.id))
    case Gestora =>
      var allowed := AllowedPolosForFetch(profile, grants);
      FilterSame(table, InPolos(allowed), VisibleTo(profile, grants));
      Filter(table, InPolos(allowed))
    case Admin =>
      FilterAll(table, VisibleTo(profile, grants));
      table
  }

  /** `Array.isArray(dependents) ? dependents : []`, leaving every other column alone. */
  function Normalise(row: RequestRow): (n: RequestRow)
    ensures n.dependents.JArray?
    ensures row.dependents.JArray? ==> n == row
    ensures n.(dependents := row.dependents) == row
  {
    if row.dependents.JArray? then row else row.(dependents := JArray([]))
  }

  /** Normalising twice is normalising once. */
  lemma NormaliseIdempotent(row: RequestRow)
    ensures Normalise(Normalise(row)) == Normalise(row)
  {
  }

  /**
   * `fetchRequests`: nothing without a profile; an empty list for a manager
   * with neither a home site nor a grant; otherwise the rows the user may
   * see, newest first, normalised, or the query's error.
   *
   * `permissions` is the permissions table as the manager's query reads it,
   * `None` when that query fails (its error is ignored: no grants);
   * `fetchError` is the error of the requests query.
   */
  function FetchRequests(
    profile: Option<UserRow>,
    permissions: Option<seq<PermissionRow>>,
    table: seq<RequestRow>,
    fetchError: Option<string>): (r: FetchOutcome)
    ensures r.Skipped? <==> profile.None?
    ensures r.Cleared? <==>
      profile.Some? && profile.value.role == Gestora && profile.value.polo.None?
      && forall p :: !HasGrant(permissions.GetOr([]), profile.value.id, p)
    ensures r.Failed? ==> fetchError == Some(r.message)
    ensures fetchError.None? ==> !r.Failed?
    ensures r.Loaded? ==> fetchError.None?
    ensures r.Loaded? ==>
      forall x :: x in r.rows <==>
        exists row :: row in table && Visible(profile.value, permissions.GetOr([]), row) && x == Normalise(row)
    ensures r.Loaded? ==> |r.rows| == |Filter(table, VisibleTo(profile.value, permissions.GetOr([])))|
    ensures r.Loaded? ==> SortedDesc(r.rows, CreatedAt)
    ensures r.Loaded? ==> forall i :: 0 <= i < |r.rows| ==> r.rows[i].dependents.JArray?
    ensures r.Loaded? && profile.value.role == Solicitante ==>
      forall i :: 0 <= i < |r.rows| ==> r.rows[i].userId == profile.value.id
    ensures r.Loaded? && profile.value.role == Admin ==> |r.rows| == |table|
  {
    if profile.None? then Skipped
    else
      var user := profile.value;
      var grants := permissions.GetOr([]);
      if user.role == Gestora && |AllowedPolosForFetch(user, grants)| == 0 then Cleared
      else if fetchError.Some? then Failed(fetchError.value)
      else Loaded(Listed(user, grants, table))
  }

  /** The list a successful query yields: the rows the user may see, newest first, normalised. */
  function Listed(user: UserRow, grants: seq<PermissionRow>, table: seq<RequestRow>): (rows: seq<RequestRow>)
    ensures forall x :: x in rows <==> exists row :: row in table && Visible(user, grants, row) && x == Normalise(row)
    ensures |rows| == |Filter(table, VisibleTo(user, grants))|
    ensures multiset(rows) == multiset(Map(Filter(table, VisibleTo(user, grants)), Normalise))
    ensures SortedDesc(rows, CreatedAt)
    ensures forall i :: 0 <= i < |rows| ==> rows[i].dependents.JArray?
    ensures user.role == Solicitante ==> forall i :: 0 <= i < |rows| ==> rows[i].userId == user.id
    ensures user.role == Admin ==> |rows| == |table|
  {
    var selected := RoleQuery(user, grants, table);
    NewestFirstNormalised(selected);
    var rows := Map(SortDesc(selected, CreatedAt), Normalise);
    assert user.role == Solicitante ==> forall i :: 0 <= i < |rows| ==> rows[i].userId == user.id by {
      if user.role == Solicitante {
        forall i | 0 <= i < |rows| ensures rows[i].userId == user.id {
          assert rows[i] in rows;
        }
      }
    }
    rows
  }

  /** Sorting newest first and then normalising keeps the rows, up to normalisation, and their count. */
  lemma NewestFirstNormalised(selected: seq<RequestRow>)
    ensures
      var rows := Map(SortDesc(selected, CreatedAt), Normalise);
      && (forall x :: x in rows <==> exists row :: row in selected && x == Normalise(row))
      && |rows| == |selected|
      && multiset(rows) == multiset(Map(selected, Normalise))
      && SortedDesc(rows, CreatedAt)
  {
    var ordered := SortDesc(selected, CreatedAt);
    SameMultisetSameMembers(ordered, selected);
    assert |ordered| == |selected| by {
      assert |multiset(ordered)| == |multiset(selected)|;
    }
    var rows := Map(ordered, Normalise);
    MapPermutation(ordered, selected, Normalise);
    NormaliseKeepsOrder(ordered);
    forall x ensures x in rows <==> exists row :: row in selected && x == Normalise(row) {
      MapMembership(ordered, Normalise, x);
    }
  }

  /** Normalising leaves the creation times, and so the order, unchanged. */
  lemma NormaliseKeepsOrder(s: seq<RequestRow>)
    requires SortedDesc(s, CreatedAt)
    ensures SortedDesc(Map(s, Normalise), CreatedAt)
  {
    var m := Map(s, Normalise);
    assert forall i :: 0 <= i < |m| ==> CreatedAt(m[i]) == CreatedAt(s[i]);
  }

  /** A manager sees exactly the requests whose site is among the sites allowed to that manager. */
  lemma GestoraSeesAllowedPolos(
    profile: UserRow, permissions: Option<seq<PermissionRow>>, table: seq<RequestRow>, row: RequestRow)
    requires profile.role == Gestora
    requires row in table
    requires FetchRequests(Some(profile), permissions, table, None).Loaded?
    ensures Normalise(row) in FetchRequests(Some(profile), permissions, table, None).rows
        <==> row.polo in AllowedPolosForFetch(profile, permissions.GetOr([]))
  {
    var rows := FetchRequests(Some(profile), permissions, table, None).rows;
    var grants := permissions.GetOr([]);
    if Normalise(row) in rows {
      var other :| other in table && Visible(profile, grants, other) && Normalise(row) == Normalise(other);
      assert other.polo == row.polo by {
        assert Normalise(row).polo == row.polo && Normalise(other).polo == other.polo;
      }
    }
  }

  function IsPending(r: RequestRow): bool { r.status == Pending }
  function IsApproved(r: RequestRow): bool { r.status == Approved }
  function IsRejected(r: RequestRow): bool { r.status == Rejected }

  /** Every request has exactly one of the three statuses, so the three filters share out the list. */
  lemma {:induction false} StatusCountsPartition(rs: seq<RequestRow>)
    ensures |Filter(rs, IsPending)| + |Filter(rs, IsApproved)| + |Filter(rs, IsRejected)| == |rs|
  {
    if |rs| > 0 {
      StatusCountsPartition(rs[1..]);
    }
  }

  /** An invoice reduced to the six fields stored with a request. */
  function CleanInvoice(inv: FormInvoice): (item: InvoiceItem)
    ensures WithFile(item, inv.file) == inv
  {
    InvoiceItem(inv.id, inv.value, inv.beneficiary, inv.sessions, inv.description, inv.fileName)
  }

  /** A stored invoice together with a chosen file, as the form holds it. */
  function WithFile(item: InvoiceItem, file: Option<FileRef>): (inv: FormInvoice)
    ensures inv.file == file
  {
    FormInvoice(item.id, item.value, item.beneficiary, item.sessions, item.description, item.fileName, file)
  }

  /** Attaching a file and cleaning it off again gives the stored invoice back. */
  lemma CleanAfterWithFile(item: InvoiceItem, file: Option<FileRef>)
    ensures CleanInvoice(WithFile(item, file)) == item
  {
  }

  function FormValue(inv: FormInvoice): real { inv.value }

  function ItemValue(item: InvoiceItem): real { item.value }

  /** Cleaning the invoices keeps their total. */
  lemma CleanKeepsTotal(invoices: seq<FormInvoice>)
    ensures Sum(Map(invoices, CleanInvoice), ItemValue) == Sum(invoices, FormValue)
  {
    SumMap(invoices, CleanInvoice, ItemValue, FormValue);
  }

  /** What the caller of `createRequest` passes; absent optional fields are `None`. */
  datatype NewRequest = NewRequest(
    requestType: RequestType,
    description: Option<string>,
    amount: real,
    polo: string,
    cpf: string,
    requesterName: string,
    dependents: Option<seq<Dependent>>,
    attachments: Option<seq<string>>,
    invoices: Option<seq<FormInvoice>>)

  /** The row `createRequest` inserts into `requests`. */
  datatype Payload = Payload(
    userId: string,
    requestType: RequestType,
    amount: real,
    polo: string,
    cpf: string,
    requesterName: string,
    description: Option<string>,
    dependents: seq<Dependent>,
    attachments: seq<string>,
    invoices: seq<InvoiceItem>)

  /**
   * The payload of `createRequest`: it throws without a profile; otherwise the
   * owner is the profile, missing lists become empty, a missing description
   * becomes null, and each invoice loses its file and keeps its six fields.
   */
  function BuildPayload(profile: Option<UserRow>, data: NewRequest): (r: Result<Payload, string>)
    ensures r.Failure? <==> profile.None?
    ensures r.Failure? ==> r.error == "User not authenticated"
    ensures r.Success? ==>
      && r.value.userId == profile.value.id
      && r.value.requestType == data.requestType
      && r.value.amount == data.amount
      && r.value.polo == data.polo
      && r.value.cpf == data.cpf
      && r.value.requesterName == data.requesterName
      && r.value.description == data.description
      && r.value.dependents == data.dependents.GetOr([])
      && r.value.attachments == data.attachments.GetOr([])
    ensures r.Success? ==>
      var given := data.invoices.GetOr([]);
      && |r.value.invoices| == |given|
      && forall i :: 0 <= i < |given| ==> WithFile(r.value.invoices[i], given[i].file) == given[i]
    ensures r.Success? ==> Sum(r.value.invoices, ItemValue) == Sum(data.invoices.GetOr([]), FormValue)
  {
    if profile.None? then Failure("User not authenticated")
    else
      var cleaned := Map(data.invoices.GetOr([]), CleanInvoice);
      CleanKeepsTotal(data.invoices.GetOr([]));
      Success(Payload(
        profile.value.id, data.requestType, data.amount, data.polo, data.cpf, data.requesterName,
        data.description, data.dependents.GetOr([]), data.attachments.GetOr([]), cleaned))
  }

  /** `createRequest`: the payload, or the error thrown before or by the insert. */
  function CreateRequest(profile: Option<UserRow>, data: NewRequest, insertError: Option<string>): (r: Result<Payload, string>)
    ensures r.Success? <==> profile.Some? && insertError.None?
    ensures r.Success? ==> BuildPayload(profile, data) == r
    ensures profile.Some? && insertError.Some? ==> r == Failure(insertError.value)
  {
    var payload :- BuildPayload(profile, data);
    if insertError.Some? then Failure(insertError.value) else Success(payload)
  }
}
