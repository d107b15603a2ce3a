/**
 * The manager's dashboard: the sites it lists as allowed, the approve and
 * reject actions with the client-side reason check, the pending/processed
 * split, the search filter, the counters, and finding an uploaded invoice
 * by file name.
 */
module GestoraDashboard {
  import opened Wrappers
  import opened Text
  import opened Seqs
  import opened Schema
  import opened Requests
  import opened StatusUpdate
  import opened Attachments

  /**
   * The page's own allowed-site list: the home site if set, then, for a
   * manager only, the sites granted to that manager; each site once.
   * `grants` is the permissions table, `None` when that query fails.
   */
  function AllowedPolosForPage(profile: UserRow, grants: Option<seq<PermissionRow>>): (r: seq<Polo>)
    ensures forall p :: p in r <==>
      profile.polo == Some(p) || (profile.role == Gestora && HasGrant(grants.GetOr([]), profile.id, p))
    ensures NoDuplicates(r)
    ensures profile.polo.Some? ==> |r| > 0 && r[0] == profile.polo.value
  {
    var home: seq<Polo> := if profile.polo.Some? then [profile.polo.value] else [];
    var extra: seq<Polo> := if profile.role == Gestora then GrantedPolos(grants.GetOr([]), profile.id) else [];
    var all := home + extra;
    assert forall p :: p in all <==> p in home || p in extra;
    Dedup(all)
  }

  /** For a manager, the page's list is the very list the requests are fetched by. */
  lemma PageAndFetchAgree(profile: UserRow, grants: Option<seq<PermissionRow>>)
    requires profile.role == Gestora
    ensures AllowedPolosForPage(profile, grants) == AllowedPolosForFetch(profile, grants.GetOr([]))
  {
  }

  /** The status update a click sends to the handler, or the reason it is not sent. */
  datatype Decision = NeedsReason | Send(body: UpdateBody)

  /** `handleApprove`: always sent, without a reason. */
  function HandleApprove(requestId: string): (d: Decision)
    ensures d.Send? && d.body.requestId == requestId && d.body.status == "approved" && d.body.rejectionReason.None?
  {
    Send(UpdateBody(requestId, "approved", None))
  }

  /** `handleReject`: a blank reason is refused on the page; any other is sent untrimmed. */
  function HandleReject(requestId: string, reason: string): (d: Decision)
    ensures d.NeedsReason? <==> IsBlank(reason)
    ensures d.Send? ==> d.body == UpdateBody(requestId, "rejected", Some(reason))
  {
    if IsBlank(reason) then NeedsReason else Send(UpdateBody(requestId, "rejected", Some(reason)))
  }

  /**
   * A rejection that gets past the page always carries its reason into the
   * update record, so the stored reason is the one typed.
   */
  lemma RejectionFromPageRecordsReason(requestId: string, reason: string, approverId: Option<string>, now: int)
    requires HandleReject(requestId, reason).Send?
    ensures
      var b := HandleReject(requestId, reason).body;
      BuildUpdate(b.status, b.rejectionReason, approverId, now).rejectionReason == Some(reason)
  {
    BlankIffAllWhitespace(reason);
  }

  /** `pendingRequests`: the requests awaiting a decision, in list order. */
  function PendingRequests(rs: seq<RequestRow>): (p: seq<RequestRow>)
    ensures forall r :: r in p <==> r in rs && r.status == Pending
    ensures IsSubsequence(p, rs)
  {
    FilterSubsequence(rs, IsPending);
    Filter(rs, IsPending)
  }

  /** `processedRequests`: the approved and the rejected requests, in list order. */
  function ProcessedRequests(rs: seq<RequestRow>): (p: seq<RequestRow>)
    ensures forall r :: r in p <==> r in rs && (r.status == Approved || r.status == Rejected)
    ensures IsSubsequence(p, rs)
  {
    FilterSubsequence(rs, Not(IsPending));
    assert forall r: RequestRow :: Not(IsPending)(r) <==> r.status == Approved || r.status == Rejected;
    Filter(rs, Not(IsPending))
  }

  /** Every request is in exactly one of the pending and the processed list, as often as in the input. */
  lemma PendingProcessedPartition(rs: seq<RequestRow>)
    ensures |PendingRequests(rs)| + |ProcessedRequests(rs)| == |rs|
    ensures forall r :: r in rs ==> (r in PendingRequests(rs) <==> r !in ProcessedRequests(rs))
    ensures forall r :: multiset(PendingRequests(rs))[r] + multiset(ProcessedRequests(rs))[r] == multiset(rs)[r]
  {
    FilterPartition(rs, IsPending);
    FilterMultiset(rs, IsPending);
    FilterMultiset(rs, Not(IsPending));
  }

  /** The name searched: `requester_name || users?.name || ''`. */
  function SearchName(r: RequestRow): string {
    if Truthy(r.requesterName) then r.requesterName.value
    else if r.requester.Some? then r.requester.value.name
    else ""
  }

  /**
   * `matchesSearch`: a blank term matches everything; otherwise the term,
   * lower-cased but not trimmed, must occur in the lower-cased name or CPF.
   */
  function MatchesSearch(search: string): RequestRow -> bool {
    (r: RequestRow) => IsBlank(search) || ContainsIgnoringCase(SearchName(r), search) || ContainsIgnoringCase(r.cpf, search)
  }

  /** The lists shown: each list narrowed by the search, keeping its order. */
  function FilteredLists(rs: seq<RequestRow>, search: string): (r: (seq<RequestRow>, seq<RequestRow>))
    ensures IsSubsequence(r.0, PendingRequests(rs)) && IsSubsequence(r.1, ProcessedRequests(rs))
    ensures forall x :: x in r.0 <==> x in rs && x.status == Pending && MatchesSearch(search)(x)
    ensures forall x :: x in r.1 <==> x in rs && x.status != Pending && MatchesSearch(search)(x)
  {
    FilterSubsequence(PendingRequests(rs), MatchesSearch(search));
    FilterSubsequence(ProcessedRequests(rs), MatchesSearch(search));
    (Filter(PendingRequests(rs), MatchesSearch(search)), Filter(ProcessedRequests(rs), MatchesSearch(search)))
  }

  /** A blank search hides nothing. */
  lemma BlankSearchKeepsAll(rs: seq<RequestRow>, search: string)
    requires IsBlank(search)
    ensures FilteredLists(rs, search) == (PendingRequests(rs), ProcessedRequests(rs))
  {
    FilterAll(PendingRequests(rs), MatchesSearch(search));
    FilterAll(ProcessedRequests(rs), MatchesSearch(search));
  }

  /** The search ignores case: typing the term in lower case selects the same requests. */
  lemma SearchIgnoresCase(r: RequestRow, search: string)
    ensures MatchesSearch(ToLower(search))(r) == MatchesSearch(search)(r)
  {
    ToLowerKeepsBlankness(search);
    ContainsIgnoringCaseOfLowered(SearchName(r), search);
    ContainsIgnoringCaseOfLowered(r.cpf, search);
  }

  /** A non-blank term matches exactly when it occurs, ignoring case, at some position of the name or the CPF. */
  lemma SearchFindsOccurrences(r: RequestRow, search: string)
    requires !IsBlank(search)
    ensures MatchesSearch(search)(r) <==>
      (exists i :: OccursAt(ToLower(SearchName(r)), ToLower(search), i))
      || (exists i :: OccursAt(ToLower(r.cpf), ToLower(search), i))
  {
    ContainsIgnoringCaseIffOccurs(SearchName(r), search);
    ContainsIgnoringCaseIffOccurs(r.cpf, search);
  }

  /**
   * The three counters: pending, approved, rejected. The first is the size
   * of the pending list shown below them, the other two split the processed
   * list, and a counter is zero exactly when no request has that status.
   */
  function Counters(rs: seq<RequestRow>): (c: (nat, nat, nat))
    ensures c.0 == |PendingRequests(rs)| && c.1 + c.2 == |ProcessedRequests(rs)|
    ensures c.1 == |Filter(rs, IsApproved)| && c.2 == |Filter(rs, IsRejected)|
    ensures c.0 + c.1 + c.2 == |rs|
    ensures c.0 == 0 <==> forall r :: r in rs ==> r.status != Pending
    ensures c.1 == 0 <==> forall r :: r in rs ==> r.status != Approved
    ensures c.2 == 0 <==> forall r :: r in rs ==> r.status != Rejected
  {
    StatusCountsPartition(rs);
    FilterPartition(rs, IsPending);
    var pending, approved, rejected := Filter(rs, IsPending), Filter(rs, IsApproved), Filter(rs, IsRejected);
    assert |Filter(rs, Not(IsPending))| == |approved| + |rejected|;
    assert |pending| > 0 ==> pending[0] in pending;
    assert |approved| > 0 ==> approved[0] in approved;
    assert |rejected| > 0 ==> rejected[0] in rejected;
    (|pending|, |approved|, |rejected|)
  }

  function HasFileName(name: string): InvoiceFile -> bool {
    (f: InvoiceFile) => f.fileName == name
  }

  /** `getInvoiceByFileName`: the first loaded invoice whose file name is the one given. */
  function InvoiceByFileName(invoices: seq<InvoiceFile>, name: string): (r: Option<InvoiceFile>)
    ensures r.Some? ==> r.value in invoices && r.value.fileName == name
    ensures r.None? <==> forall f :: f in invoices ==> f.fileName != name
    ensures r.Some? ==> exists k :: 0 <= k < |invoices| && invoices[k] == r.value
                                 && forall j :: 0 <= j < k ==> invoices[j].fileName != name
  {
    match FindFirst(invoices, HasFileName(name))
    case None => None
    case Some(k) => Some(invoices[k])
  }

  /** What a view or download click does. */
  datatype FileAction =
    | NotFound                          // the "file not found" toast
    | Nothing                           // the invoice has no URL
    | Open(target: UrlTarget)           // opened in a new tab
    | Save(download: Download)          // downloaded and saved

  /** `viewInvoice`: nothing without a URL; otherwise the URL or the invoices bucket path. */
  function ViewInvoice(f: InvoiceFile): (a: FileAction)
    ensures f.fileUrl == "" <==> a.Nothing?
    ensures a.Open? ==> a.target == ViewInvoiceFile(f.fileUrl)
  {
    if f.fileUrl == "" then Nothing else Open(ViewInvoiceFile(f.fileUrl))
  }

  /** `downloadInvoice`: nothing without a URL; saved under the file name or "nota-fiscal.pdf". */
  function DownloadInvoice(f: InvoiceFile): (a: FileAction)
    ensures f.fileUrl == "" <==> a.Nothing?
    ensures a.Save? ==> a.download.source == ViewInvoiceFile(f.fileUrl)
    ensures a.Save? ==> a.download.saveAs == (if f.fileName != "" then f.fileName else "nota-fiscal.pdf")
  {
    if f.fileUrl == "" then Nothing
    else Save(DownloadInvoiceFile(f.fileUrl, if f.fileName != "" then f.fileName else "nota-fiscal.pdf"))
  }

  /** `viewByFileName`: a toast when no loaded invoice has the name, else the view of the first that has. */
  function ViewByFileName(invoices: seq<InvoiceFile>, name: string): (a: FileAction)
    ensures a.NotFound? <==> forall f :: f in invoices ==> f.fileName != name
    ensures !a.NotFound? ==> a == ViewInvoice(InvoiceByFileName(invoices, name).value)
  {
    match InvoiceByFileName(invoices, name)
    case None => NotFound
    case Some(f) => ViewInvoice(f)
  }

  /** `downloadByFileName`: as viewing, with a download. */
  function DownloadByFileName(invoices: seq<InvoiceFile>, name: string): (a: FileAction)
    ensures a.NotFound? <==> forall f :: f in invoices ==> f.fileName != name
    ensures !a.NotFound? ==> a == DownloadInvoice(InvoiceByFileName(invoices, name).value)
  {
    match InvoiceByFileName(invoices, name)
    case None => NotFound
    case Some(f) => DownloadInvoice(f)
  }

  /** The request lists are rendered only for a manager with a home site. */
  predicate ShowsRequestLists(profile: UserRow) {
    profile.polo.Some?
  }

  /**
   * A manager with grants but no home site has their requests loaded by the
   * hook, yet the page shows the "configure your site" card instead of them.
   */
  lemma GrantsWithoutHomeSiteAreHidden(profile: UserRow, perms: seq<PermissionRow>, table: seq<RequestRow>, p: Polo)
    requires profile.role == Gestora && profile.polo.None?
    requires HasGrant(perms, profile.id, p)
    ensures FetchRequests(Some(profile), Some(perms), table, None).Loaded?
    ensures !ShowsRequestLists(profile)
  {
  }
}
