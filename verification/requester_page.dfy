/**
 * The requester's dashboard: what each of their requests shows. The
 * approval note follows the status, while the refusal note follows the
 * stored reason alone, so a request approved after an earlier refusal
 * shows both.
 */
module RequesterDashboard {
  import opened Wrappers
  import opened Text
  import opened Schema
  import opened StatusUpdate

  /** The green "approved" note. */
  predicate ShowsApproval(r: RequestRow) {
    r.status == Approved
  }

  /** The red "refused" note with its reason: shown for any non-empty stored reason, whatever the status. */
  predicate ShowsRefusal(r: RequestRow) {
    Truthy(r.rejectionReason)
  }

  /** `#` and the first eight characters of the id. */
  function ShortId(r: RequestRow): (s: string)
    ensures 1 <= |s| <= 9 && s[0] == '#'
    ensures |r.id| >= 8 ==> s == "#" + r.id[..8]
    ensures |r.id| < 8 ==> s == "#" + r.id
  {
    "#" + Prefix(r.id, 8)
  }

  /** Two ids that share their first eight characters look the same on the card. */
  lemma ShortIdsCollide(a: RequestRow, b: RequestRow)
    requires |a.id| >= 8 && |b.id| >= 8 && a.id[..8] == b.id[..8]
    ensures ShortId(a) == ShortId(b)
  {
  }

  /** The "n sessões" line of an invoice: only for a positive session count. */
  predicate ShowsSessions(item: InvoiceItem) {
    item.sessions.Some? && item.sessions.value > 0
  }

  /** The attachment labels: "Anexo 1", "Anexo 2", … by position, whatever the files are called. */
  function AttachmentLabels(attachments: seq<string>): (labels: seq<string>)
    ensures |labels| == |attachments|
    ensures forall i :: 0 <= i < |labels| ==> labels[i] == "Anexo " + NatToString(i + 1)
  {
    seq(|attachments|, i requires 0 <= i < |attachments| => "Anexo " + NatToString(i + 1))
  }

  /** The status badge text. */
  function StatusBadge(s: RequestStatus): (badge: string)
    ensures badge == "Pendente" <==> s == Pending
    ensures badge == "Aprovado" <==> s == Approved
    ensures badge == "Recusado" <==> s == Rejected
  {
    match s
    case Pending => "Pendente"
    case Approved => "Aprovado"
    case Rejected => "Recusado"
  }

  /** Different statuses get different badges. */
  lemma StatusBadgeDistinguishes(a: RequestStatus, b: RequestStatus)
    ensures StatusBadge(a) == StatusBadge(b) <==> a == b
  {
  }

  /**
   * A request refused with a reason and then approved shows the approval
   * and the refusal together: the approval does not clear the reason.
   */
  lemma RefusedThenApprovedShowsBoth(
    row: RequestRow, reason: string, rejector: Option<string>, approver: Option<string>, t1: int, t2: int)
    requires reason != ""
    ensures
      var refused := ApplyUpdate(row, BuildUpdate("rejected", Some(reason), rejector, t1), Rejected);
      var approved := ApplyUpdate(refused, BuildUpdate("approved", None, approver, t2), Approved);
      ShowsApproval(approved) && ShowsRefusal(approved) && approved.rejectionReason == Some(reason)
  {
    var refused := ApplyUpdate(row, BuildUpdate("rejected", Some(reason), rejector, t1), Rejected);
    ApprovalKeepsRejectionReason(refused, None, approver, t2);
  }

  /** A refusal sent without a reason shows the "Recusado" badge and no refusal note, unless an older reason is stored. */
  lemma RefusalWithoutReasonShowsNoNote(row: RequestRow, rejector: Option<string>, t: int)
    requires !Truthy(row.rejectionReason)
    ensures
      var refused := ApplyUpdate(row, BuildUpdate("rejected", None, rejector, t), Rejected);
      StatusBadge(refused.status) == "Recusado" && !ShowsRefusal(refused)
  {
    RejectionWithoutReasonKeepsOldReason(row, None, rejector, t);
  }
}
