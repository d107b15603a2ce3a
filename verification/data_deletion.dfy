/**
 * The `user-data-deletion` edge function: a user erases their own data, as
 * the LGPD requires. The handler checks the method, the caller and the
 * target, then deletes in a fixed order: the stored invoice files, the
 * audit logs, the comments, the invoices, the requests, the profile and
 * finally the authentication account. Only the last deletion's failure is
 * looked at, and it does not change the answer.
 */
module DataDeletion {
  import opened Wrappers
  import opened Text
  import opened Seqs
  import opened Schema
  import opened Requests

  /** An `audit_logs` or `comments` row, reduced to its owner. */
  datatype OwnedRow = OwnedRow(id: string, userId: string)

  /** The parts of the database and of storage the handler deletes from. */
  datatype Store = Store(
    users: seq<UserRow>,
    requests: seq<RequestRow>,
    invoices: seq<InvoiceFile>,
    comments: seq<OwnedRow>,
    auditLogs: seq<OwnedRow>,
    files: set<string>,          // object paths in the `invoices` bucket
    accounts: set<string>)       // authentication accounts, by id

  /** One deletion the handler issues. */
  datatype Step =
    | RemoveFile(path: string)
    | DeleteAuditLogs(userId: string)
    | DeleteComments(userId: string)
    | DeleteInvoices(userId: string)
    | DeleteInvoicesIn(values: set<string>)
    | DeleteRequests(userId: string)
    | DeleteProfile(userId: string)
    | DeleteAccount(authId: string)

  function RowOwnedBy(userId: string): OwnedRow -> bool {
    (row: OwnedRow) => row.userId == userId
  }

  function UserHasId(id: string): UserRow -> bool {
    (u: UserRow) => u.id == id
  }

  function UserHasAuthId(authId: string): UserRow -> bool {
    (u: UserRow) => u.authId == authId
  }

  /** The ids of the requests a user filed. */
  function RequestIdsOf(requests: seq<RequestRow>, userId: string): set<string> {
    set r | r in requests && r.userId == userId :: r.id
  }

  /** An invoice whose request is not among the given ones. */
  function NotOfRequests(ids: set<string>): InvoiceFile -> bool {
    (f: InvoiceFile) => f.requestId !in ids
  }

  function OfRequests(ids: set<string>): InvoiceFile -> bool {
    (f: InvoiceFile) => f.requestId in ids
  }

  function FileUrlOf(f: InvoiceFile): string { f.fileUrl }

  /** Step 1's query as intended: the file URLs of the invoices of the user's requests, in table order. */
  function UserFileUrls(db: Store, userId: string): (urls: seq<string>)
    ensures forall u :: u in urls <==>
      exists f :: f in db.invoices && f.requestId in RequestIdsOf(db.requests, userId) && f.fileUrl == u
  {
    var mine := Filter(db.invoices, OfRequests(RequestIdsOf(db.requests, userId)));
    forall u ensures u in Map(mine, FileUrlOf) <==> exists f :: f in mine && f.fileUrl == u {
      MapMembership(mine, FileUrlOf, u);
    }
    Map(mine, FileUrlOf)
  }

  /**
   * Step 1's query as written: `.eq('request_id', 'in', …)` takes a column
   * and one value, so the third argument is dropped and the column is
   * compared with the text "in".
   */
  function FileUrlsAsWritten(db: Store): (urls: seq<string>)
    ensures forall u :: u in urls <==> exists f :: f in db.invoices && f.requestId == "in" && f.fileUrl == u
  {
    var matched := Filter(db.invoices, OfRequests({"in"}));
    forall u ensures u in Map(matched, FileUrlOf) <==> exists f :: f in matched && f.fileUrl == u {
      MapMembership(matched, FileUrlOf, u);
    }
    Map(matched, FileUrlOf)
  }

  /** The text step 4 hands to `.in`, meant as a subquery. */
  function SubqueryText(userId: string): string {
    "(select id from requests where user_id = '" + userId + "')"
  }

  /**
   * Step 4's value list as written, for a client whose `.in` builds its
   * list from `new Set(values)`: the set of a text is the set of its
   * characters, so every value is one character long.
   */
  function SubqueryChars(userId: string): (values: set<string>)
    ensures forall v :: v in values ==> |v| == 1
    ensures forall c :: c in SubqueryText(userId) ==> [c] in values
  {
    set c | c in SubqueryText(userId) :: [c]
  }

  /** Request ids are UUIDs: 36 characters long, so neither "in" nor a single character. */
  predicate UuidRequestIds(db: Store) {
    forall f :: f in db.invoices ==> |f.requestId| == 36
  }

  /**
   * The effect of one step. Deleting requests also deletes the invoices that
   * point at them: `invoices_request_id_fkey` cascades, which the handler's
   * delete order and its note on step 4 rely on. Deleting the account is
   * skipped when that call fails.
   */
  function Apply(db: Store, step: Step, accountDeleteFails: bool): Store {
    match step
    case RemoveFile(path) => db.(files := db.files - {path})
    case DeleteAuditLogs(id) => db.(auditLogs := Filter(db.auditLogs, Not(RowOwnedBy(id))))
    case DeleteComments(id) => db.(comments := Filter(db.comments, Not(RowOwnedBy(id))))
    case DeleteInvoices(id) => db.(invoices := Filter(db.invoices, NotOfRequests(RequestIdsOf(db.requests, id))))
    case DeleteInvoicesIn(values) => db.(invoices := Filter(db.invoices, NotOfRequests(values)))
    case DeleteRequests(id) =>
      db.(requests := Filter(db.requests, Not(OwnedBy(id))),
          invoices := Filter(db.invoices, NotOfRequests(RequestIdsOf(db.requests, id))))
    case DeleteProfile(id) => db.(users := Filter(db.users, Not(UserHasId(id))))
    case DeleteAccount(authId) => if accountDeleteFails then db else db.(accounts := db.accounts - {authId})
  }

  /** The steps applied in order. */
  function Run(db: Store, steps: seq<Step>, accountDeleteFails: bool): Store
    decreases |steps|
  {
    if |steps| == 0 then db else Run(Apply(db, steps[0], accountDeleteFails), steps[1..], accountDeleteFails)
  }

  lemma {:induction false} RunConcat(db: Store, a: seq<Step>, b: seq<Step>, fails: bool)
    ensures Run(db, a + b, fails) == Run(Run(db, a, fails), b, fails)
    decreases |a|
  {
    if |a| == 0 {
      assert a + b == b;
    } else {
      assert (a + b)[0] == a[0] && (a + b)[1..] == a[1..] + b;
      RunConcat(Apply(db, a[0], fails), a[1..], b, fails);
    }
  }

  /** `${userId}/${fileName}` for every stored URL whose last segment is not empty. */
  function RemovedPaths(userId: string, fileUrls: seq<string>): set<string> {
    set u | u in fileUrls && LastSegment(u) != "" :: userId + "/" + LastSegment(u)
  }

  /** Step 1: one removal per invoice URL with a file name, in the order the query returned them. */
  function FileRemovals(userId: string, fileUrls: seq<string>): (steps: seq<Step>)
    ensures forall s :: s in steps ==> s.RemoveFile? && s.path in RemovedPaths(userId, fileUrls)
    ensures |steps| <= |fileUrls|
  {
    if |fileUrls| == 0 then []
    else
      var name := LastSegment(fileUrls[0]);
      var rest := FileRemovals(userId, fileUrls[1..]);
      assert forall s :: s in rest ==> s.path in RemovedPaths(userId, fileUrls) by {
        forall s | s in rest ensures s.path in RemovedPaths(userId, fileUrls) {
          var u :| u in fileUrls[1..] && LastSegment(u) != "" && s.path == userId + "/" + LastSegment(u);
          assert u in fileUrls;
        }
      }
      if name != "" then [RemoveFile(userId + "/" + name)] + rest else rest
  }

  /** Removing the files touches only storage, and removes exactly the listed paths. */
  lemma {:induction false} FileRemovalsRemovePaths(db: Store, userId: string, fileUrls: seq<string>, fails: bool)
    ensures Run(db, FileRemovals(userId, fileUrls), fails) == db.(files := db.files - RemovedPaths(userId, fileUrls))
    decreases |fileUrls|
  {
    if |fileUrls| > 0 {
      var name := LastSegment(fileUrls[0]);
      var tail := fileUrls[1..];
      var here: set<string> := if name != "" then {userId + "/" + name} else {};
      var next := db.(files := db.files - here);
      FileRemovalsRemovePaths(next, userId, tail, fails);
      RemovedPathsCons(userId, fileUrls);
      if name != "" {
        var steps := FileRemovals(userId, fileUrls);
        assert steps == [RemoveFile(userId + "/" + name)] + FileRemovals(userId, tail);
        assert steps[0] == RemoveFile(userId + "/" + name) && steps[1..] == FileRemovals(userId, tail);
        RunStep(db, steps, fails);
      } else {
        assert next == db;
      }
    }
  }

  /** The paths of a list of URLs are those of its first URL and those of the rest. */
  lemma RemovedPathsCons(userId: string, fileUrls: seq<string>)
    requires |fileUrls| > 0
    ensures RemovedPaths(userId, fileUrls)
         == (if LastSegment(fileUrls[0]) != "" then {userId + "/" + LastSegment(fileUrls[0])} else {})
          + RemovedPaths(userId, fileUrls[1..])
  {
    var here: set<string> := if LastSegment(fileUrls[0]) != "" then {userId + "/" + LastSegment(fileUrls[0])} else {};
    forall p | p in RemovedPaths(userId, fileUrls)
      ensures p in here + RemovedPaths(userId, fileUrls[1..])
    {
      var u :| u in fileUrls && LastSegment(u) != "" && p == userId + "/" + LastSegment(u);
      if u != fileUrls[0] {
        assert u in fileUrls[1..];
      }
    }
    assert fileUrls[0] in fileUrls;
    assert forall u :: u in fileUrls[1..] ==> u in fileUrls;
  }

  /** Steps 2 to 7, after the files. */
  function TableDeletions(userId: string, authId: string): seq<Step> {
    [DeleteAuditLogs(userId), DeleteComments(userId), DeleteInvoices(userId),
     DeleteRequests(userId), DeleteProfile(userId), DeleteAccount(authId)]
  }

  /** Steps 2 to 7 with step 4 deleting the invoices whose request id is one of `values`. */
  function TableDeletionsIn(userId: string, authId: string, values: set<string>): seq<Step> {
    [DeleteAuditLogs(userId), DeleteComments(userId), DeleteInvoicesIn(values),
     DeleteRequests(userId), DeleteProfile(userId), DeleteAccount(authId)]
  }

  /** Steps 2 to 7 as written: step 4 filters on the characters of its subquery text. */
  function TableDeletionsAsWritten(userId: string, authId: string): seq<Step> {
    TableDeletionsIn(userId, authId, SubqueryChars(userId))
  }

  /** The deletions the handler issues as written, in order. */
  function PlanAsWritten(userId: string, authId: string, db: Store): seq<Step> {
    FileRemovals(userId, FileUrlsAsWritten(db)) + TableDeletionsAsWritten(userId, authId)
  }

  /** Every deletion the handler issues, in order. */
  function Plan(userId: string, authId: string, fileUrls: seq<string>): seq<Step> {
    FileRemovals(userId, fileUrls) + TableDeletions(userId, authId)
  }

  /**
   * The dependent rows go before the rows they point at: invoices before
   * their requests, everything owned by the profile before the profile,
   * and the authentication account last of all.
   */
  lemma PlanOrder(userId: string, authId: string, fileUrls: seq<string>)
    ensures
      var p := Plan(userId, authId, fileUrls);
      var n := |p|;
      && n == |FileRemovals(userId, fileUrls)| + 6
      && (forall i :: 0 <= i < n - 6 ==> p[i].RemoveFile?)
      && p[n - 6] == DeleteAuditLogs(userId) && p[n - 5] == DeleteComments(userId)
      && p[n - 4] == DeleteInvoices(userId) && p[n - 3] == DeleteRequests(userId)
      && p[n - 2] == DeleteProfile(userId) && p[n - 1] == DeleteAccount(authId)
  {
    var files := FileRemovals(userId, fileUrls);
    forall i | 0 <= i < |files| ensures Plan(userId, authId, fileUrls)[i].RemoveFile? {
      assert files[i] in files;
    }
  }

  /**
   * What a completed deletion leaves, stated table by table: nothing the
   * user owns, nothing of anybody else touched.
   */
  function Erased(db: Store, userId: string, authId: string, fileUrls: seq<string>, accountDeleteFails: bool): (s: Store)
    ensures forall u :: u in s.users <==> u in db.users && u.id != userId
    ensures forall r :: r in s.requests <==> r in db.requests && r.userId != userId
    ensures forall f :: f in s.invoices <==> f in db.invoices && f.requestId !in RequestIdsOf(db.requests, userId)
    ensures forall c :: c in s.comments <==> c in db.comments && c.userId != userId
    ensures forall a :: a in s.auditLogs <==> a in db.auditLogs && a.userId != userId
    ensures s.files == db.files - RemovedPaths(userId, fileUrls)
    ensures s.accounts == if accountDeleteFails then db.accounts else db.accounts - {authId}
  {
    Store(
      Filter(db.users, Not(UserHasId(userId))),
      Filter(db.requests, Not(OwnedBy(userId))),
      Filter(db.invoices, NotOfRequests(RequestIdsOf(db.requests, userId))),
      Filter(db.comments, Not(RowOwnedBy(userId))),
      Filter(db.auditLogs, Not(RowOwnedBy(userId))),
      db.files - RemovedPaths(userId, fileUrls),
      if accountDeleteFails then db.accounts else db.accounts - {authId})
  }

  /** Running the steps one by one leaves exactly the erased store. */
  lemma PlanErases(db: Store, userId: string, authId: string, fileUrls: seq<string>, fails: bool)
    ensures Run(db, Plan(userId, authId, fileUrls), fails) == Erased(db, userId, authId, fileUrls, fails)
  {
    RunConcat(db, FileRemovals(userId, fileUrls), TableDeletions(userId, authId), fails);
    FileRemovalsRemovePaths(db, userId, fileUrls, fails);
    TableDeletionsErase(db.(files := db.files - RemovedPaths(userId, fileUrls)), userId, authId, fails);
  }

  /** Steps 2 to 7 delete the user's rows and leave storage alone. */
  lemma TableDeletionsErase(db: Store, userId: string, authId: string, fails: bool)
    ensures Run(db, TableDeletions(userId, authId), fails) == Store(
      Filter(db.users, Not(UserHasId(userId))),
      Filter(db.requests, Not(OwnedBy(userId))),
      Filter(db.invoices, NotOfRequests(RequestIdsOf(db.requests, userId))),
      Filter(db.comments, Not(RowOwnedBy(userId))),
      Filter(db.auditLogs, Not(RowOwnedBy(userId))),
      db.files,
      if fails then db.accounts else db.accounts - {authId})
  {
    var t := TableDeletions(userId, authId);
    var first := [DeleteAuditLogs(userId), DeleteComments(userId), DeleteInvoices(userId)];
    assert t == first + FinalDeletions(userId, authId);
    RunConcat(db, first, FinalDeletions(userId, authId), fails);
    var mine := NotOfRequests(RequestIdsOf(db.requests, userId));
    var mid := db.(auditLogs := Filter(db.auditLogs, Not(RowOwnedBy(userId))),
                   comments := Filter(db.comments, Not(RowOwnedBy(userId))),
                   invoices := Filter(db.invoices, mine));
    FirstDeletions(db, first, fails);
    FinalDeletionsErase(mid, userId, authId, fails);
    FilterFilter(db.invoices, mine, mine, mine);
  }

  /**
   * Steps 2 to 7 with step 4 matching no invoice: the cascade of step 5
   * still removes the invoices of the user's requests, so the tables end
   * as the intended deletion leaves them, and storage is not touched.
   */
  lemma TableDeletionsInErase(db: Store, userId: string, authId: string, values: set<string>, fails: bool)
    requires forall f :: f in db.invoices ==> f.requestId !in values
    ensures Run(db, TableDeletionsIn(userId, authId, values), fails) == Erased(db, userId, authId, [], fails)
  {
    var t := TableDeletionsIn(userId, authId, values);
    var first := [DeleteAuditLogs(userId), DeleteComments(userId), DeleteInvoicesIn(values)];
    assert t == first + FinalDeletions(userId, authId);
    RunConcat(db, first, FinalDeletions(userId, authId), fails);
    FirstDeletionsMissInvoices(db, userId, values, fails);
    var mid := db.(auditLogs := Filter(db.auditLogs, Not(RowOwnedBy(userId))),
                   comments := Filter(db.comments, Not(RowOwnedBy(userId))));
    FinalDeletionsErase(mid, userId, authId, fails);
    assert RemovedPaths(userId, []) == {};
  }

  /** Steps 2 to 4 with step 4 matching no invoice delete the user's audit logs and comments only. */
  lemma FirstDeletionsMissInvoices(db: Store, userId: string, values: set<string>, fails: bool)
    requires forall f :: f in db.invoices ==> f.requestId !in values
    ensures Run(db, [DeleteAuditLogs(userId), DeleteComments(userId), DeleteInvoicesIn(values)], fails)
         == db.(auditLogs := Filter(db.auditLogs, Not(RowOwnedBy(userId))),
                comments := Filter(db.comments, Not(RowOwnedBy(userId))))
  {
    forall i | 0 <= i < |db.invoices| ensures NotOfRequests(values)(db.invoices[i]) {
      assert db.invoices[i] in db.invoices;
    }
    FilterAll(db.invoices, NotOfRequests(values));
    FirstDeletions(db, [DeleteAuditLogs(userId), DeleteComments(userId), DeleteInvoicesIn(values)], fails);
  }

  /** Steps 5 to 7: the requests, with their invoices by cascade, then the profile and the account. */
  function FinalDeletions(userId: string, authId: string): seq<Step> {
    [DeleteRequests(userId), DeleteProfile(userId), DeleteAccount(authId)]
  }

  /** Steps 2 to 4 touch the audit logs, the comments and the invoices only, each by its own filter. */
  lemma FirstDeletions(db: Store, first: seq<Step>, fails: bool)
    requires |first| == 3 && first[0].DeleteAuditLogs? && first[1].DeleteComments?
    requires first[2].DeleteInvoices? || first[2].DeleteInvoicesIn?
    ensures Run(db, first, fails) == Apply(Apply(Apply(db, first[0], fails), first[1], fails), first[2], fails)
  {
    var s1 := Apply(db, first[0], fails);
    var s2 := Apply(s1, first[1], fails);
    RunStep(db, first, fails);
    RunStep(s1, first[1..], fails);
    assert first[1..][1..] == [first[2]];
    RunStep(s2, [first[2]], fails);
    assert [first[2]][1..] == [];
  }

  /** Steps 5 to 7 delete the requests with the invoices that point at them, the profile and the account. */
  lemma FinalDeletionsErase(db: Store, userId: string, authId: string, fails: bool)
    ensures Run(db, FinalDeletions(userId, authId), fails) == db.(
      users := Filter(db.users, Not(UserHasId(userId))),
      requests := Filter(db.requests, Not(OwnedBy(userId))),
      invoices := Filter(db.invoices, NotOfRequests(RequestIdsOf(db.requests, userId))),
      accounts := if fails then db.accounts else db.accounts - {authId})
  {
    var t := FinalDeletions(userId, authId);
    var s1 := Apply(db, t[0], fails);
    var s2 := Apply(s1, t[1], fails);
    RunStep(db, t, fails);
    assert t[1..][0] == DeleteProfile(userId);
    RunStep(s1, t[1..], fails);
    assert t[1..][1..] == [DeleteAccount(authId)];
    RunStep(s2, t[1..][1..], fails);
    assert [DeleteAccount(authId)][1..] == [];
  }

  lemma RunStep(db: Store, steps: seq<Step>, fails: bool)
    requires |steps| > 0
    ensures Run(db, steps, fails) == Run(Apply(db, steps[0], fails), steps[1..], fails)
  {
  }

  /** `.eq('auth_id', id).single()` on the profiles: the one profile of the account, if there is exactly one. */
  function ProfileOf(users: seq<UserRow>, authId: string): (r: Option<UserRow>)
    ensures r.Some? ==> r.value in users && r.value.authId == authId
    ensures r.Some? ==> forall u :: u in users && u.authId == authId ==> u == r.value
    ensures r.None? <==> |Filter(users, UserHasAuthId(authId))| != 1
  {
    var found := Filter(users, UserHasAuthId(authId));
    if |found| != 1 then None
    else
      assert found[0] in found;
      Some(found[0])
  }

  /** What the handler answers. */
  datatype Response =
    | Preflight
    | MethodNotAllowed
    | Deleted(deletedUser: string)     // the deleted profile's e-mail
    | ServerError(message: string)

  function StatusCode(r: Response): int {
    match r
    case Preflight => 200
    case MethodNotAllowed => 405
    case Deleted(_) => 200
    case ServerError(_) => 500
  }

  const DeletedMessage := "All user data has been permanently deleted in compliance with LGPD"

  datatype Outcome = Outcome(response: Response, store: Store, steps: seq<Step>)

  /**
   * The checks before any deletion, in the handler's order: the method, the
   * token, the account behind it, its one profile, and the id at the end of
   * the path, which must be that profile's. `accountId` is the account
   * `auth.getUser()` returns for the caller's token, absent when that call
   * fails.
   */
  function Authorise(verb: string, auth: Option<string>, accountId: Option<string>, path: string, db: Store)
    : (r: Result<UserRow, Response>)
    ensures verb == "OPTIONS" ==> r == Failure(Preflight)
    ensures verb != "OPTIONS" && verb != "DELETE" ==> r == Failure(MethodNotAllowed)
    ensures verb == "DELETE" && !Truthy(auth) ==> r == Failure(ServerError("Missing authorization header"))
    ensures verb == "DELETE" && Truthy(auth) && accountId.None? ==> r == Failure(ServerError("Unauthorized"))
    ensures verb == "DELETE" && Truthy(auth) && accountId.Some? && ProfileOf(db.users, accountId.value).None?
      ==> r == Failure(ServerError("User not found"))
    ensures verb == "DELETE" && Truthy(auth) && accountId.Some? && ProfileOf(db.users, accountId.value).Some?
      && ProfileOf(db.users, accountId.value).value.id != LastSegment(path)
      ==> r == Failure(ServerError("You can only delete your own data"))
    ensures r.Success? <==>
      && verb == "DELETE" && Truthy(auth) && accountId.Some?
      && ProfileOf(db.users, accountId.value).Some?
      && ProfileOf(db.users, accountId.value).value.id == LastSegment(path)
    ensures r.Success? ==> r.value == ProfileOf(db.users, accountId.value).value
  {
    if verb == "OPTIONS" then Failure(Preflight)
    else if verb != "DELETE" then Failure(MethodNotAllowed)
    else if !Truthy(auth) then Failure(ServerError("Missing authorization header"))
    else if accountId.None? then Failure(ServerError("Unauthorized"))
    else match ProfileOf(db.users, accountId.value)
      case None => Failure(ServerError("User not found"))
      case Some(me) =>
        if me.id != LastSegment(path) then Failure(ServerError("You can only delete your own data"))
        else Success(me)
  }

  /**
   * The handler, with the invoice queries of steps 1 and 4 doing what they
   * are meant to: step 1 lists the file URLs of the invoices of the user's
   * requests and step 4 deletes those invoices. `accountDeleteFails` is
   * whether the account deletion reported an error. Errors of the other
   * deletions are not looked at, so they are not modelled.
   */
  function Handle(
    verb: string, auth: Option<string>, accountId: Option<string>, path: string,
    accountDeleteFails: bool, db: Store): (o: Outcome)
    ensures verb == "OPTIONS" ==> o.response == Preflight
    ensures verb != "OPTIONS" && verb != "DELETE" ==> o.response == MethodNotAllowed
    ensures verb == "DELETE" && !Truthy(auth) ==> o.response == ServerError("Missing authorization header")
    ensures verb == "DELETE" && Truthy(auth) && accountId.None? ==> o.response == ServerError("Unauthorized")
    ensures verb == "DELETE" && Truthy(auth) && accountId.Some? && ProfileOf(db.users, accountId.value).None?
      ==> o.response == ServerError("User not found")
    ensures verb == "DELETE" && Truthy(auth) && accountId.Some? && ProfileOf(db.users, accountId.value).Some?
      && ProfileOf(db.users, accountId.value).value.id != LastSegment(path)
      ==> o.response == ServerError("You can only delete your own data")
    ensures o.response.Deleted? <==>
      && verb == "DELETE" && Truthy(auth) && accountId.Some?
      && ProfileOf(db.users, accountId.value).Some?
      && ProfileOf(db.users, accountId.value).value.id == LastSegment(path)
    ensures !o.response.Deleted? ==> o.store == db && o.steps == []
    ensures o.response.Deleted? ==>
      var me := ProfileOf(db.users, accountId.value).value;
      var urls := UserFileUrls(db, me.id);
      && o.response.deletedUser == me.email
      && o.steps == Plan(me.id, accountId.value, urls)
      && o.store == Erased(db, me.id, accountId.value, urls, accountDeleteFails)
  {
    match Authorise(verb, auth, accountId, path, db)
    case Failure(response) => Outcome(response, db, [])
    case Success(me) =>
      var urls := UserFileUrls(db, me.id);
      var steps := Plan(me.id, accountId.value, urls);
      PlanErases(db, me.id, accountId.value, urls, accountDeleteFails);
      Outcome(Deleted(me.email), Run(db, steps, accountDeleteFails), steps)
  }

  /**
   * The handler as written: the same checks and the same answer, but the
   * deletions of `PlanAsWritten`, whose step 1 lists the invoices whose
   * request id is "in" and whose step 4 deletes those whose request id is
   * one of the characters of the subquery text.
   */
  function HandleAsWritten(
    verb: string, auth: Option<string>, accountId: Option<string>, path: string,
    accountDeleteFails: bool, db: Store): (o: Outcome)
    ensures o.response == Handle(verb, auth, accountId, path, accountDeleteFails, db).response
    ensures !o.response.Deleted? ==> o.store == db && o.steps == []
    ensures o.response.Deleted? ==>
      var me := ProfileOf(db.users, accountId.value).value;
      && o.steps == PlanAsWritten(me.id, accountId.value, db)
      && o.store == Run(db, o.steps, accountDeleteFails)
  {
    match Authorise(verb, auth, accountId, path, db)
    case Failure(response) => Outcome(response, db, [])
    case Success(me) =>
      var steps := PlanAsWritten(me.id, accountId.value, db);
      Outcome(Deleted(me.email), Run(db, steps, accountDeleteFails), steps)
  }

  /**
   * As written, with UUID request ids, the handler reports that all data
   * was deleted and leaves the same tables as the corrected one, yet removes
   * no stored file: step 1 finds no invoice whose request id is "in", and
   * although no request id is one character long for step 4 to match, the
   * cascade of step 5 deletes the user's invoices anyway. The files those
   * invoices named stay in storage with nothing pointing at them.
   */
  lemma AsWrittenKeepsFiles(
    verb: string, auth: Option<string>, accountId: Option<string>, path: string, fails: bool, db: Store)
    requires UuidRequestIds(db)
    ensures
      var o := HandleAsWritten(verb, auth, accountId, path, fails, db);
      var fixed := Handle(verb, auth, accountId, path, fails, db);
      && o.response == fixed.response
      && o.store.files == db.files
      && o.store == fixed.store.(files := db.files)
  {
    var o := HandleAsWritten(verb, auth, accountId, path, fails, db);
    var fixed := Handle(verb, auth, accountId, path, fails, db);
    if o.response.Deleted? {
      var me := ProfileOf(db.users, accountId.value).value;
      var urls := UserFileUrls(db, me.id);
      assert o.store == Run(db, PlanAsWritten(me.id, accountId.value, db), fails);
      assert fixed.store == Erased(db, me.id, accountId.value, urls, fails);
      PlanAsWrittenKeepsFiles(me.id, accountId.value, db, fails);
      ErasedKeepingFiles(db, me.id, accountId.value, urls, fails);
    }
  }

  /** Erasing with no file URLs is erasing with any, but keeping storage as it was. */
  lemma ErasedKeepingFiles(db: Store, userId: string, authId: string, fileUrls: seq<string>, fails: bool)
    ensures Erased(db, userId, authId, [], fails) == Erased(db, userId, authId, fileUrls, fails).(files := db.files)
  {
    assert RemovedPaths(userId, []) == {};
  }

  /** The as-written deletions, run on a store with UUID request ids, erase the user's rows but no file. */
  lemma PlanAsWrittenKeepsFiles(userId: string, authId: string, db: Store, fails: bool)
    requires UuidRequestIds(db)
    ensures Run(db, PlanAsWritten(userId, authId, db), fails) == Erased(db, userId, authId, [], fails)
  {
    var values := SubqueryChars(userId);
    PlanAsWrittenIsTableDeletions(userId, authId, db);
    UuidsMissSubqueryChars(db, userId);
    TableDeletionsInErase(db, userId, authId, values, fails);
  }

  /** With UUID request ids, the as-written plan is the six table and account deletions alone. */
  lemma PlanAsWrittenIsTableDeletions(userId: string, authId: string, db: Store)
    requires UuidRequestIds(db)
    ensures PlanAsWritten(userId, authId, db) == TableDeletionsIn(userId, authId, SubqueryChars(userId))
  {
    var t := TableDeletionsAsWritten(userId, authId);
    NoInvoiceOfRequestIn(db);
    assert [] + t == t;
  }

  /** With UUID request ids, step 1 as written lists no URL and so removes nothing. */
  lemma NoInvoiceOfRequestIn(db: Store)
    requires UuidRequestIds(db)
    ensures FileUrlsAsWritten(db) == []
    ensures forall userId :: FileRemovals(userId, FileUrlsAsWritten(db)) == []
  {
    var matchesIn := OfRequests({"in"});
    forall i | 0 <= i < |db.invoices| ensures Not(matchesIn)(db.invoices[i]) {
      assert db.invoices[i] in db.invoices;
    }
    FilterAll(db.invoices, Not(matchesIn));
    FilterPartition(db.invoices, matchesIn);
  }

  /** No UUID is one of the one-character values step 4 filters on. */
  lemma UuidsMissSubqueryChars(db: Store, userId: string)
    requires UuidRequestIds(db)
    ensures forall f :: f in db.invoices ==> f.requestId !in SubqueryChars(userId)
  {
    var values := SubqueryChars(userId);
    assert forall v :: v in values ==> |v| == 1;
  }

  /** Unlike the status update handler, this one checks the method before the token: a GET without one is a 405. */
  lemma MethodCheckedFirst(auth: Option<string>, accountId: Option<string>, path: string, fails: bool, db: Store)
    ensures StatusCode(Handle("GET", auth, accountId, path, fails, db).response) == 405
  {
  }

  /** The caller's own rows go; every other user's requests, comments and audit logs stay exactly as they were, in order. */
  lemma OthersDataUntouched(
    auth: Option<string>, accountId: Option<string>, path: string,
    fails: bool, db: Store, other: string)
    requires other != LastSegment(path)
    ensures
      var s := Handle("DELETE", auth, accountId, path, fails, db).store;
      && Filter(s.requests, OwnedBy(other)) == Filter(db.requests, OwnedBy(other))
      && Filter(s.comments, RowOwnedBy(other)) == Filter(db.comments, RowOwnedBy(other))
      && Filter(s.auditLogs, RowOwnedBy(other)) == Filter(db.auditLogs, RowOwnedBy(other))
  {
    var o := Handle("DELETE", auth, accountId, path, fails, db);
    if o.response.Deleted? {
      var id := LastSegment(path);
      FilterFilter(db.requests, Not(OwnedBy(id)), OwnedBy(other), OwnedBy(other));
      FilterFilter(db.comments, Not(RowOwnedBy(id)), RowOwnedBy(other), RowOwnedBy(other));
      FilterFilter(db.auditLogs, Not(RowOwnedBy(id)), RowOwnedBy(other), RowOwnedBy(other));
    }
  }

  /**
   * Once the profile is gone the same call cannot run again: the caller's
   * account, if it survived, no longer finds a profile.
   */
  lemma SecondDeletionFindsNoProfile(
    auth: Option<string>, accountId: Option<string>, path: string,
    fails: bool, db: Store)
    requires Truthy(auth) && accountId.Some?
    requires ProfileOf(db.users, accountId.value).Some?
    requires ProfileOf(db.users, accountId.value).value.id == LastSegment(path)
    ensures
      var s := Handle("DELETE", auth, accountId, path, fails, db).store;
      Handle("DELETE", auth, accountId, path, fails, s).response == ServerError("User not found")
  {
    var acc := accountId.value;
    var me := ProfileOf(db.users, acc).value;
    var s := Handle("DELETE", auth, accountId, path, fails, db).store;
    forall i | 0 <= i < |s.users|
      ensures Not(UserHasAuthId(acc))(s.users[i])
    {
      assert s.users[i] in s.users;
    }
    FilterAll(s.users, Not(UserHasAuthId(acc)));
    FilterPartition(s.users, UserHasAuthId(acc));
  }

  /** A failed account deletion is only logged: the answer is still a success naming the deleted profile. */
  lemma AccountFailureStillSucceeds(
    auth: Option<string>, accountId: Option<string>, path: string, db: Store)
    requires Truthy(auth) && accountId.Some?
    requires ProfileOf(db.users, accountId.value).Some?
    requires ProfileOf(db.users, accountId.value).value.id == LastSegment(path)
    ensures Handle("DELETE", auth, accountId, path, true, db).response
         == Handle("DELETE", auth, accountId, path, false, db).response
    ensures StatusCode(Handle("DELETE", auth, accountId, path, true, db).response) == 200
    ensures accountId.value in db.accounts ==>
      accountId.value in Handle("DELETE", auth, accountId, path, true, db).store.accounts
  {
  }

  /** A path that ends in '/' names nobody, since no profile id is empty. */
  lemma TrailingSlashIsRefused(
    auth: Option<string>, accountId: Option<string>, dir: string,
    fails: bool, db: Store)
    requires forall u :: u in db.users ==> u.id != ""
    ensures !Handle("DELETE", auth, accountId, dir + "/", fails, db).response.Deleted?
  {
    LastSegmentOfJoin(dir, "");
    assert dir + "/" + "" == dir + "/";
  }
}
