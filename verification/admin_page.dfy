/**
 * The administrator's dashboard: the headline figures, the user list with
 * its search box, and the per-site report cards. Requests are reported
 * under the site of the user who filed them, as the joined `users` row
 * gives it, not under the request's own site column.
 */
module AdminDashboard {
  import opened Wrappers
  import opened Text
  import opened Seqs
  import opened Schema
  import opened Requests
  import opened UserPermissions

  /** `POLOS`: the permission columns and the report cards, in this order. */
  const Polos: seq<string> := ["3M Sumaré", "3M Manaus", "3M Ribeirão Preto", "3M Itapetininga"]

  /** The page's site list is the site enum of the database, in declaration order, each site once. */
  lemma PolosAreTheSiteEnum()
    ensures Polos == Map(AllPolos, PoloName)
    ensures NoDuplicates(Polos)
    ensures forall name :: name in Polos <==> ParsePolo(name).Some?
  {
    PoloEnumMatchesConstants();
  }

  /** The headline figures: users listed, pending requests, approved requests, all requests. */
  datatype Stats = Stats(users: nat, pending: nat, approved: nat, total: nat)

  function PageStats(users: seq<UserWithPermissions>, requests: seq<RequestRow>): (s: Stats)
    ensures s.users == |users| && s.total == |requests|
    ensures s.pending == |Filter(requests, IsPending)| && s.approved == |Filter(requests, IsApproved)|
    ensures s.pending + s.approved + |Filter(requests, IsRejected)| == s.total
    ensures s.pending == |requests| <==> forall r :: r in requests ==> r.status == Pending
  {
    StatusCountsPartition(requests);
    var pending := Filter(requests, IsPending);
    assert (forall r :: r in requests ==> r.status == Pending) ==> pending == requests by {
      if forall r :: r in requests ==> r.status == Pending {
        FilterAll(requests, IsPending);
      }
    }
    assert |pending| == |requests| ==> forall r :: r in requests ==> r.status == Pending by {
      if |pending| == |requests| {
        FilterPartition(requests, IsPending);
        assert |Filter(requests, Not(IsPending))| == 0;
      }
    }
    Stats(|users|, |pending|, |Filter(requests, IsApproved)|, |requests|)
  }

  /** `r.users?.polo`: the site of the requester, absent when the join found no user or the user has none. */
  function ReportedPolo(r: RequestRow): Option<Polo> {
    if r.requester.Some? then r.requester.value.polo else None
  }

  function InSite(p: Polo): RequestRow -> bool {
    (r: RequestRow) => ReportedPolo(r) == Some(p)
  }

  function WithoutSite(r: RequestRow): bool { ReportedPolo(r).None? }

  /** `groupedRequests[polo]`: the requests filed by users of that site, in list order. */
  function Group(requests: seq<RequestRow>, p: Polo): (g: seq<RequestRow>)
    ensures forall r :: multiset(g)[r] == if ReportedPolo(r) == Some(p) then multiset(requests)[r] else 0
    ensures IsSubsequence(g, requests)
  {
    FilterMultiset(requests, InSite(p));
    FilterSubsequence(requests, InSite(p));
    Filter(requests, InSite(p))
  }

  /** The requests no report card counts. */
  function Ungrouped(requests: seq<RequestRow>): (g: seq<RequestRow>)
    ensures forall r :: r in g <==> r in requests && ReportedPolo(r).None?
  {
    Filter(requests, WithoutSite)
  }

  /**
   * A request filed for one site by a user registered at another is counted
   * in the user's site and not in its own.
   */
  lemma ReportFollowsRequesterSite(r: RequestRow, home: Polo)
    requires r.requester.Some? && r.requester.value.polo == Some(home) && r.polo != home
    ensures r in Group([r], home)
    ensures r !in Group([r], r.polo)
  {
    assert multiset(Group([r], home))[r] == 1;
  }

  /** The site column of the request table: the requester's site, or "Não definido". */
  function SiteLabel(r: RequestRow): string {
    if ReportedPolo(r).Some? then PoloName(ReportedPolo(r).value) else "Não definido"
  }

  /** A request is in a site's card exactly when the request table shows that site's name for it. */
  lemma CardMatchesSiteColumn(r: RequestRow, p: Polo)
    ensures SiteLabel(r) == PoloName(p) <==> InSite(p)(r)
  {
    PoloEnumMatchesConstants();
    assert ParsePolo(PoloName(p)) == Some(p);
    if ReportedPolo(r).Some? {
      assert ParsePolo(PoloName(ReportedPolo(r).value)) == ReportedPolo(r);
    } else {
      assert ParsePolo("Não definido").None?;
    }
  }

  /** Every request is in exactly one site's card or in none: the four cards and the unassigned ones account for the whole list. */
  lemma GroupsCoverRequests(requests: seq<RequestRow>)
    ensures |Group(requests, Sumare)| + |Group(requests, Manaus)| + |Group(requests, RibeiraoPreto)|
          + |Group(requests, Itapetininga)| + |Ungrouped(requests)| == |requests|
  {
    FiltersCover(requests);
  }

  lemma {:induction false} FiltersCover(requests: seq<RequestRow>)
    ensures |Filter(requests, InSite(Sumare))| + |Filter(requests, InSite(Manaus))| + |Filter(requests, InSite(RibeiraoPreto))|
          + |Filter(requests, InSite(Itapetininga))| + |Filter(requests, WithoutSite)| == |requests|
  {
    if |requests| > 0 {
      var head, tail := requests[0], requests[1..];
      FiltersCover(tail);
      assert [head] + tail == requests;
      FilterCons(head, tail, InSite(Sumare));
      FilterCons(head, tail, InSite(Manaus));
      FilterCons(head, tail, InSite(RibeiraoPreto));
      FilterCons(head, tail, InSite(Itapetininga));
      FilterCons(head, tail, WithoutSite);
      InExactlyOneGroup(head);
    }
  }

  function Count(b: bool): nat { if b then 1 else 0 }

  /** A request is on exactly one site's card or on none. */
  lemma InExactlyOneGroup(r: RequestRow)
    ensures Count(InSite(Sumare)(r)) + Count(InSite(Manaus)(r)) + Count(InSite(RibeiraoPreto)(r))
          + Count(InSite(Itapetininga)(r)) + Count(WithoutSite(r)) == 1
  {
    match ReportedPolo(r)
    case None =>
    case Some(p) =>
      match p
      case Sumare =>
      case Manaus =>
      case RibeiraoPreto =>
      case Itapetininga =>
  }

  /** One report card. */
  datatype SiteReport = SiteReport(pending: nat, approved: nat, rejected: nat, total: nat, value: real)

  function IsPendingIn(p: Polo): RequestRow -> bool {
    (r: RequestRow) => ReportedPolo(r) == Some(p) && r.status == Pending
  }

  function IsApprovedIn(p: Polo): RequestRow -> bool {
    (r: RequestRow) => ReportedPolo(r) == Some(p) && r.status == Approved
  }

  function IsRejectedIn(p: Polo): RequestRow -> bool {
    (r: RequestRow) => ReportedPolo(r) == Some(p) && r.status == Rejected
  }

  function Amount(r: RequestRow): real { r.amount }

  /**
   * The card of one site: the group's status counts, its size and the sum of
   * its amounts. Each count is the number of requests of the whole list with
   * that site and that status, the counts add up to the size, and the value
   * is the list's total with every other site's requests counted as zero.
   */
  function Report(requests: seq<RequestRow>, p: Polo): (c: SiteReport)
    ensures c.pending == |Filter(requests, IsPendingIn(p))|
    ensures c.approved == |Filter(requests, IsApprovedIn(p))|
    ensures c.rejected == |Filter(requests, IsRejectedIn(p))|
    ensures c.pending + c.approved + c.rejected == c.total
    ensures c.value == Sum(requests, Masked(InSite(p), Amount))
  {
    var g := Group(requests, p);
    StatusCountsPartition(g);
    FilterFilter(requests, InSite(p), IsPending, IsPendingIn(p));
    FilterFilter(requests, InSite(p), IsApproved, IsApprovedIn(p));
    FilterFilter(requests, InSite(p), IsRejected, IsRejectedIn(p));
    SumFilter(requests, InSite(p), Amount);
    SiteReport(|Filter(g, IsPending)|, |Filter(g, IsApproved)|, |Filter(g, IsRejected)|, |g|, Sum(g, Amount))
  }

  /** The four cards' values and the unassigned requests' amounts add up to the amount of the whole list. */
  lemma SiteValuesCoverTotal(requests: seq<RequestRow>)
    ensures Report(requests, Sumare).value + Report(requests, Manaus).value
          + Report(requests, RibeiraoPreto).value + Report(requests, Itapetininga).value
          + Sum(Ungrouped(requests), Amount) == Sum(requests, Amount)
  {
    SumFilter(requests, WithoutSite, Amount);
    MaskedAmountsCover(requests);
  }

  lemma MaskedAmountsCover(requests: seq<RequestRow>)
    ensures Sum(requests, Masked(InSite(Sumare), Amount)) + Sum(requests, Masked(InSite(Manaus), Amount))
          + Sum(requests, Masked(InSite(RibeiraoPreto), Amount)) + Sum(requests, Masked(InSite(Itapetininga), Amount))
          + Sum(requests, Masked(WithoutSite, Amount)) == Sum(requests, Amount)
  {
    var su, ma := Masked(InSite(Sumare), Amount), Masked(InSite(Manaus), Amount);
    var rp, it := Masked(InSite(RibeiraoPreto), Amount), Masked(InSite(Itapetininga), Amount);
    var none := Masked(WithoutSite, Amount);
    var h1 := (r: RequestRow) => su(r) + ma(r);
    var h2 := (r: RequestRow) => h1(r) + rp(r);
    var h3 := (r: RequestRow) => h2(r) + it(r);
    SumAdd(requests, su, ma, h1);
    SumAdd(requests, h1, rp, h2);
    SumAdd(requests, h2, it, h3);
    forall r | r in requests
      ensures Amount(r) == h3(r) + none(r)
    {
      assert h3(r) == su(r) + ma(r) + rp(r) + it(r);
      assert su(r) == if ReportedPolo(r) == Some(Sumare) then r.amount else 0.0;
      assert ma(r) == if ReportedPolo(r) == Some(Manaus) then r.amount else 0.0;
      assert rp(r) == if ReportedPolo(r) == Some(RibeiraoPreto) then r.amount else 0.0;
      assert it(r) == if ReportedPolo(r) == Some(Itapetininga) then r.amount else 0.0;
      assert none(r) == if WithoutSite(r) then Amount(r) else 0.0;
      match ReportedPolo(r)
      case None =>
      case Some(p) =>
        match p
        case Sumare =>
        case Manaus =>
        case RibeiraoPreto =>
        case Itapetininga =>
    }
    SumAdd(requests, h3, none, Amount);
  }

  /** `filteredUsers`: the term, lower-cased but not trimmed, occurs in the lower-cased name or e-mail. */
  function MatchesUser(term: string): UserWithPermissions -> bool {
    (u: UserWithPermissions) => ContainsIgnoringCase(u.user.name, term) || ContainsIgnoringCase(u.user.email, term)
  }

  function FilteredUsers(users: seq<UserWithPermissions>, term: string): (r: seq<UserWithPermissions>)
    ensures forall u :: u in r <==> u in users && (ContainsIgnoringCase(u.user.name, term) || ContainsIgnoringCase(u.user.email, term))
    ensures IsSubsequence(r, users)
  {
    FilterSubsequence(users, MatchesUser(term));
    Filter(users, MatchesUser(term))
  }

  /** An empty search box lists everyone. */
  lemma EmptySearchListsAllUsers(users: seq<UserWithPermissions>)
    ensures FilteredUsers(users, "") == users
  {
    forall u: UserWithPermissions ensures MatchesUser("")(u) {
      ContainsIgnoringCaseOfLowered(u.user.name, "");
    }
    FilterAll(users, MatchesUser(""));
  }

  /**
   * Unlike the manager's search, a term of spaces is not ignored: it keeps
   * only the users whose name or e-mail holds that many spaces in a row.
   */
  lemma SpaceSearchNeedsASpace(u: UserWithPermissions)
    requires ' ' !in u.user.name && ' ' !in u.user.email
    ensures u !in FilteredUsers([u], " ")
  {
    SpaceNotFound(u.user.name);
    SpaceNotFound(u.user.email);
  }

  lemma SpaceNotFound(s: string)
    requires ' ' !in s
    ensures !ContainsIgnoringCase(s, " ")
  {
    ContainsIgnoringCaseIffOccurs(s, " ");
    assert ToLower(" ") == " ";
    forall i | 0 <= i < |s|
      ensures !OccursAt(ToLower(s), " ", i)
    {
      assert s[i] in s;
      assert ToLower(s)[i..i + 1] == [LowerChar(s[i])];
    }
  }

  /** The user search ignores case: a lower-cased term lists the same users. */
  lemma UserSearchIgnoresCase(users: seq<UserWithPermissions>, term: string)
    ensures FilteredUsers(users, ToLower(term)) == FilteredUsers(users, term)
  {
    forall u: UserWithPermissions ensures MatchesUser(ToLower(term))(u) == MatchesUser(term)(u) {
      ContainsIgnoringCaseOfLowered(u.user.name, term);
      ContainsIgnoringCaseOfLowered(u.user.email, term);
    }
    FilterSame(users, MatchesUser(ToLower(term)), MatchesUser(term));
  }
}
