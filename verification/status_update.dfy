/**
 * The `request-management` serverless handler: CORS preflight, the
 * authorization check, the method dispatch, the update record built for a
 * status decision and its effect on the `requests` table.
 *
 * The table is the one the caller's row-level security lets the update see;
 * the approver lookup and the clock are parameters.
 */
module StatusUpdate {
  import opened Wrappers
  import opened Seqs
  import opened Schema

  /** The JSON body: `{ requestId, status, rejectionReason? }`; `status` is whatever text the client sent. */
  datatype UpdateBody = UpdateBody(requestId: string, status: string, rejectionReason: Option<string>)

  /**
   * The `updateData` object. `approvedBy` and `rejectionReason` are `None`
   * when the key is absent, which leaves the column as it was.
   */
  datatype UpdateRecord = UpdateRecord(
    status: string,
    approvedAt: int,
    approvedBy: Option<string>,
    rejectionReason: Option<string>)

  /**
   * The update record: status and approval time always (a rejection too);
   * the approver only when the lookup returned one; the reason only for a
   * rejection that gives a non-empty one.
   */
  function BuildUpdate(status: string, reason: Option<string>, approverId: Option<string>, now: int): (u: UpdateRecord)
    ensures u.status == status && u.approvedAt == now
    ensures u.approvedBy.Some? <==> Truthy(approverId)
    ensures u.approvedBy.Some? ==> u.approvedBy == approverId
    ensures u.rejectionReason.Some? <==> status == "rejected" && Truthy(reason)
    ensures u.rejectionReason.Some? ==> u.rejectionReason == reason
  {
    var approvedBy := if Truthy(approverId) then approverId else None;
    var rejection := if status == "rejected" && Truthy(reason) then reason else None;
    UpdateRecord(status, now, approvedBy, rejection)
  }

  /** One row after `update(u)`: the keys present overwrite their columns, the others are kept. */
  function ApplyUpdate(row: RequestRow, u: UpdateRecord, status: RequestStatus): (r: RequestRow)
    requires ParseStatus(u.status) == Some(status)
    ensures StatusName(r.status) == u.status
    ensures r.approvedAt == Some(u.approvedAt)
    ensures r.approvedBy == if u.approvedBy.Some? then u.approvedBy else row.approvedBy
    ensures r.rejectionReason == if u.rejectionReason.Some? then u.rejectionReason else row.rejectionReason
    ensures r.(status := row.status, approvedAt := row.approvedAt, approvedBy := row.approvedBy,
               rejectionReason := row.rejectionReason) == row
  {
    row.(status := status,
         approvedAt := Some(u.approvedAt),
         approvedBy := if u.approvedBy.Some? then u.approvedBy else row.approvedBy,
         rejectionReason := if u.rejectionReason.Some? then u.rejectionReason else row.rejectionReason)
  }

  datatype Response =
    | Preflight                                   // 200 with the CORS headers and no body
    | Updated(row: RequestRow, message: string)   // 200 `{ success, data, message }`
    | MethodNotAllowed                            // 405 `{ error: 'Method not allowed' }`
    | ServerError(message: string)                // 500 `{ error, details }`

  function StatusCode(r: Response): int {
    match r
    case Preflight => 200
    case Updated(_, _) => 200
    case MethodNotAllowed => 405
    case ServerError(_) => 500
  }

  /** The response together with the table as the handler leaves it. */
  datatype Outcome = Outcome(response: Response, table: seq<RequestRow>)

  function HasId(id: string): RequestRow -> bool {
    (row: RequestRow) => row.id == id
  }

  /** The number of rows `eq('id', id)` selects. */
  function Matching(table: seq<RequestRow>, id: string): nat {
    |Filter(table, HasId(id))|
  }

  /** The table after updating every row with the given id. */
  function UpdateWhere(table: seq<RequestRow>, id: string, u: UpdateRecord, status: RequestStatus): (t: seq<RequestRow>)
    requires ParseStatus(u.status) == Some(status)
    ensures |t| == |table|
    ensures forall i :: 0 <= i < |table| ==> t[i] == if table[i].id == id then ApplyUpdate(table[i], u, status) else table[i]
  {
    seq(|table|, i requires 0 <= i < |table| =>
      if table[i].id == id then ApplyUpdate(table[i], u, status) else table[i])
  }

  /** The single row with the given id, when there is exactly one. */
  function TheRow(table: seq<RequestRow>, id: string): (row: RequestRow)
    requires Matching(table, id) == 1
    ensures row in table && row.id == id
  {
    var hits := Filter(table, HasId(id));
    assert hits[0] in hits;
    hits[0]
  }

  /**
   * The handler. OPTIONS is answered before anything else; a missing or
   * empty Authorization header is thrown and caught as 500 (before the
   * method is looked at); only POST updates, any other method is 405.
   * An unreadable body, a status the enum does not know, or an id that does
   * not select exactly one row make the update fail with 500 and change
   * nothing.
   */
  function Handle(
    verb: string,
    auth: Option<string>,
    body: Option<UpdateBody>,
    approverId: Option<string>,
    now: int,
    table: seq<RequestRow>): (o: Outcome)
    ensures verb == "OPTIONS" ==> o == Outcome(Preflight, table)
    ensures verb != "OPTIONS" && !Truthy(auth) ==> o == Outcome(ServerError("Missing authorization header"), table)
    ensures verb != "OPTIONS" && verb != "POST" && Truthy(auth) ==> o == Outcome(MethodNotAllowed, table)
    ensures o.response.Updated? <==>
      && verb == "POST" && Truthy(auth) && body.Some?
      && ParseStatus(body.value.status).Some?
      && Matching(table, body.value.requestId) == 1
    ensures !o.response.Updated? ==> o.table == table
    ensures o.response.Updated? ==>
      var b := body.value;
      var u := BuildUpdate(b.status, b.rejectionReason, approverId, now);
      && |o.table| == |table|
      && (forall i :: 0 <= i < |table| && table[i].id != b.requestId ==> o.table[i] == table[i])
      && (forall i :: 0 <= i < |table| && table[i].id == b.requestId ==>
            o.table[i] == ApplyUpdate(table[i], u, ParseStatus(b.status).value))
      && o.response.row.id == b.requestId
      && o.response.row in o.table
      && o.response.message == "Request " + b.status + " successfully"
  {
    if verb == "OPTIONS" then Outcome(Preflight, table)
    else if !Truthy(auth) then Outcome(ServerError("Missing authorization header"), table)
    else if verb != "POST" then Outcome(MethodNotAllowed, table)
    else if body.None? then Outcome(ServerError("Unreadable request body"), table)
    else
      var b := body.value;
      var u := BuildUpdate(b.status, b.rejectionReason, approverId, now);
      match ParseStatus(b.status)
      case None => Outcome(ServerError("Failed to update request: invalid status"), table)
      case Some(status) =>
        if Matching(table, b.requestId) != 1 then
          Outcome(ServerError("Failed to update request: no single row"), table)
        else
          var t := UpdateWhere(table, b.requestId, u, status);
          var row := TheRow(table, b.requestId);
          var k :| 0 <= k < |table| && table[k] == row;
          Outcome(Updated(t[k], "Request " + b.status + " successfully"), t)
  }

  /** A GET without credentials is answered 500, not 405: the header is checked first. */
  lemma GetWithoutAuthIsServerError(body: Option<UpdateBody>, approverId: Option<string>, now: int, table: seq<RequestRow>)
    ensures StatusCode(Handle("GET", None, body, approverId, now, table).response) == 500
  {
  }

  /**
   * The update does not look at the current status: a request already
   * approved or rejected is updated just like a pending one.
   */
  lemma NoStatusPrecondition(
    b: UpdateBody, approverId: Option<string>, now: int, table: seq<RequestRow>, i: nat, current: RequestStatus)
    requires i < |table| && table[i].id == b.requestId
    requires Matching(table, b.requestId) == 1
    requires ParseStatus(b.status).Some?
    ensures
      var t := table[..i] + [table[i].(status := current)] + table[i + 1..];
      Handle("POST", Some("Bearer token"), Some(b), approverId, now, t).response.Updated?
  {
    var t := table[..i] + [table[i].(status := current)] + table[i + 1..];
    assert forall j :: 0 <= j < |t| ==> t[j].id == table[j].id by {
      forall j | 0 <= j < |t| ensures t[j].id == table[j].id {
        if j < i {
          assert t[j] == table[j];
        } else if j > i {
          assert t[j] == table[j];
        }
      }
    }
    FilterSameIds(t, table, b.requestId);
  }

  /** Two tables whose rows carry the same ids position by position select equally many rows by id. */
  lemma {:induction false} FilterSameIds(t: seq<RequestRow>, s: seq<RequestRow>, id: string)
    requires |t| == |s|
    requires forall j :: 0 <= j < |t| ==> t[j].id == s[j].id
    ensures Matching(t, id) == Matching(s, id)
  {
    if |t| > 0 {
      FilterSameIds(t[1..], s[1..], id);
      assert Filter(t, HasId(id)) == (if t[0].id == id then [t[0]] else []) + Filter(t[1..], HasId(id));
      assert Filter(s, HasId(id)) == (if s[0].id == id then [s[0]] else []) + Filter(s[1..], HasId(id));
    }
  }

  /**
   * Approving a request that was rejected before keeps the old rejection
   * reason: the update never clears the column.
   */
  lemma ApprovalKeepsRejectionReason(row: RequestRow, reason: Option<string>, approverId: Option<string>, now: int)
    ensures
      var u := BuildUpdate("approved", reason, approverId, now);
      ApplyUpdate(row, u, Approved).rejectionReason == row.rejectionReason
      && ApplyUpdate(row, u, Approved).status == Approved
  {
  }

  /** A rejection sent without a reason (or with an empty one) also keeps the old reason. */
  lemma RejectionWithoutReasonKeepsOldReason(row: RequestRow, reason: Option<string>, approverId: Option<string>, now: int)
    requires !Truthy(reason)
    ensures ApplyUpdate(row, BuildUpdate("rejected", reason, approverId, now), Rejected).rejectionReason == row.rejectionReason
  {
  }
}
