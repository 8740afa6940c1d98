/** NVD: the paged CVE walk, the verdict on one CPE, and the section built from all of them. */
module Nvd {
  import opened Text
  import opened Sequences
  import opened Domain
  import opened Cpe
  import opened Service
  import opened Dictionary
  import Fingerprint

  const PAGE_CEILING := 2000
  const DEFAULT_MAX_CPES := 8

  datatype Page = Page(total: int, vulns: seq<Vuln>)

  datatype Request = Request(perPage: int, start: int)

  /** What a server replies to the k-th request of a walk: any function at all. */
  type CveServer = (nat, Request) -> Reply<Page>

  // --- The paged walk -----------------------------------------------------------------------

  function NextRequest(limit: int, had: nat): Request {
    Request(if limit - had > PAGE_CEILING then PAGE_CEILING else limit - had, had)
  }

  /** The walk from its k-th request on, `vulns` having been gathered and `total` last reported. */
  function Walk(limit: int, server: CveServer, k: nat, vulns: seq<Vuln>, total: int): Reply<Page>
    decreases limit - |vulns|
  {
    var request := NextRequest(limit, |vulns|);
    if request.perPage <= 0 then Answered(Page(total, vulns)) else
    match server(k, request)
    case TimedOut => TimedOut
    case Broken(reason) => Broken(reason)
    case Answered(page) =>
      var all := vulns + page.vulns;
      if page.vulns == [] || |all| >= page.total then Answered(Page(page.total, all))
      else Walk(limit, server, k + 1, all, page.total)
  }

  /** The requests that walk makes. */
  function WalkRequests(limit: int, server: CveServer, k: nat, vulns: seq<Vuln>): (requests: seq<Request>)
    ensures |requests| <= if limit > |vulns| then limit - |vulns| else 0
    decreases limit - |vulns|
  {
    var request := NextRequest(limit, |vulns|);
    if request.perPage <= 0 then [] else
    match server(k, request)
    case Answered(page) =>
      var all := vulns + page.vulns;
      if page.vulns == [] || |all| >= page.total then [request]
      else [request] + WalkRequests(limit, server, k + 1, all)
    case _ => [request]
  }

  /** Computes the walk and its requests: at most `limit` of them, whatever the server does. */
  method FetchCves(limit: int, server: CveServer) returns (out: Reply<Page>, requests: seq<Request>)
    ensures out == Walk(limit, server, 0, [], 0)
    ensures requests == WalkRequests(limit, server, 0, [])
    ensures |requests| <= if limit > 0 then limit else 0
  {
    requests := [];
    var vulns: seq<Vuln> := [];
    var total, start := 0, 0;
    while true
      invariant start == |vulns|
      invariant Walk(limit, server, 0, [], 0) == Walk(limit, server, |requests|, vulns, total)
      invariant WalkRequests(limit, server, 0, []) == requests + WalkRequests(limit, server, |requests|, vulns)
      decreases limit - |vulns|
    {
      var perPage := limit - |vulns|;
      if perPage > PAGE_CEILING {
        perPage := PAGE_CEILING;
      }
      if perPage <= 0 {
        break;
      }
      var request := Request(perPage, start);
      var reply := server(|requests|, request);
      assert request == NextRequest(limit, |vulns|);
      if reply.Answered? {
        Regroup(requests, [request], WalkRequests(limit, server, |requests| + 1, vulns + reply.value.vulns));
      }
      requests := requests + [request];
      match reply {
        case TimedOut => return TimedOut, requests;
        case Broken(reason) => return Broken(reason), requests;
        case Answered(page) =>
          total := page.total;
          vulns := vulns + page.vulns;
          start := start + |page.vulns|;
          if |page.vulns| == 0 || start >= total {
            return Answered(Page(total, vulns)), requests;
          }
      }
    }
    out := Answered(Page(total, vulns));
  }

  ghost predicate Alike(a: CveServer, b: CveServer, k: nat, requests: seq<Request>) {
    forall i :: 0 <= i < |requests| ==> a(k + i, requests[i]) == b(k + i, requests[i])
  }

  /** Two servers that reply alike to the requests one walk makes give the same walk: it asks nothing else. */
  lemma {:induction false} RequestsDecide(
    limit: int, a: CveServer, b: CveServer, k: nat, vulns: seq<Vuln>, total: int)
    requires Alike(a, b, k, WalkRequests(limit, a, k, vulns))
    ensures Walk(limit, a, k, vulns, total) == Walk(limit, b, k, vulns, total)
    ensures WalkRequests(limit, a, k, vulns) == WalkRequests(limit, b, k, vulns)
    decreases limit - |vulns|
  {
    var request := NextRequest(limit, |vulns|);
    if request.perPage > 0 {
      var requests := WalkRequests(limit, a, k, vulns);
      assert requests[0] == request;
      assert a(k + 0, request) == b(k + 0, request);
      if a(k, request).Answered? {
        var page := a(k, request).value;
        var all := vulns + page.vulns;
        if page.vulns != [] && |all| < page.total {
          var rest := WalkRequests(limit, a, k + 1, all);
          assert requests == [request] + rest;
          forall i | 0 <= i < |rest| ensures a(k + 1 + i, rest[i]) == b(k + 1 + i, rest[i]) {
            assert rest[i] == requests[i + 1];
            assert a(k + (i + 1), requests[i + 1]) == b(k + (i + 1), requests[i + 1]);
            assert k + (i + 1) == k + 1 + i;
          }
          RequestsDecide(limit, a, b, k + 1, all, page.total);
        }
      }
    }
  }

  /** Each request starts where what has arrived ends, and asks for no more than is still wanted or a page holds. */
  lemma {:induction false} RequestsContinue(limit: int, server: CveServer, k: nat, vulns: seq<Vuln>, i: nat)
    requires i < |WalkRequests(limit, server, k, vulns)|
    ensures var r := WalkRequests(limit, server, k, vulns)[i];
      && 0 < r.perPage <= 2000 && r.start + r.perPage <= limit
      && (r.perPage == 2000 || r.start + r.perPage == limit)
      && (i == 0 ==> r.start == |vulns|)
    ensures i + 1 < |WalkRequests(limit, server, k, vulns)| ==>
      var r, next := WalkRequests(limit, server, k, vulns)[i], WalkRequests(limit, server, k, vulns)[i + 1];
      server(k + i, r).Answered? && next.start == r.start + |server(k + i, r).value.vulns|
    decreases limit - |vulns|
  {
    var request := NextRequest(limit, |vulns|);
    var page := server(k, request);
    if page.Answered? && page.value.vulns != [] && |vulns + page.value.vulns| < page.value.total {
      var all := vulns + page.value.vulns;
      var rest := WalkRequests(limit, server, k + 1, all);
      assert WalkRequests(limit, server, k, vulns) == [request] + rest;
      if i > 0 {
        RequestsContinue(limit, server, k + 1, all, i - 1);
      } else if |rest| > 0 {
        RequestsContinue(limit, server, k + 1, all, 0);
      }
    }
  }

  function Gathered(pages: seq<Page>): seq<Vuln> {
    if pages == [] then [] else pages[0].vulns + Gathered(pages[1..])
  }

  /** `pages` are the replies to consecutive requests, each starting where the one before left off. */
  ghost predicate Consecutive(limit: int, server: CveServer, k: nat, had: nat, pages: seq<Page>)
    decreases |pages|
  {
    pages == [] || (
      && NextRequest(limit, had).perPage > 0
      && server(k, NextRequest(limit, had)) == Answered(pages[0])
      && (|pages| > 1 ==> pages[0].vulns != [] && had + |pages[0].vulns| < pages[0].total)
      && Consecutive(limit, server, k + 1, had + |pages[0].vulns|, pages[1..]))
  }

  /**
   An answered walk returns every page it received, in order and whole, and it stopped for a reason:
   the limit, an empty page, or the total the last page claimed.
   */
  lemma {:induction false} WalkGathersItsPages(limit: int, server: CveServer, k: nat, vulns: seq<Vuln>, total: int)
    returns (pages: seq<Page>)
    requires Walk(limit, server, k, vulns, total).Answered?
    ensures Consecutive(limit, server, k, |vulns|, pages)
    ensures var all := Walk(limit, server, k, vulns, total).value;
      && all.vulns == vulns + Gathered(pages)
      && all.total == (if pages == [] then total else pages[|pages| - 1].total)
      && (|all.vulns| >= limit ||
          (pages != [] && (pages[|pages| - 1].vulns == [] || |all.vulns| >= pages[|pages| - 1].total)))
    decreases limit - |vulns|
  {
    var request := NextRequest(limit, |vulns|);
    if request.perPage <= 0 {
      pages := [];
      assert vulns + [] == vulns;
    } else {
      var page := server(k, request).value;
      var all := vulns + page.vulns;
      if page.vulns == [] || |all| >= page.total {
        pages := [page];
        assert page.vulns + [] == page.vulns;
      } else {
        var rest := WalkGathersItsPages(limit, server, k + 1, all, page.total);
        pages := [page] + rest;
        assert pages[1..] == rest;
        assert vulns + (page.vulns + Gathered(rest)) == all + Gathered(rest);
      }
    }
  }

  /** Contiguous non-empty slices of `list`, never longer than asked for, with the right total. */
  ghost predicate Honest(server: CveServer, list: seq<Vuln>) {
    forall k: nat, r: Request :: r.perPage > 0 && 0 <= r.start <= |list| ==> HonestReply(server(k, r), r, list)
  }

  ghost predicate HonestReply(reply: Reply<Page>, r: Request, list: seq<Vuln>)
    requires 0 <= r.start <= |list|
  {
    && reply.Answered?
    && reply.value.total == |list|
    && |reply.value.vulns| <= r.perPage
    && reply.value.vulns <= list[r.start..]
    && (r.start < |list| ==> reply.value.vulns != [])
  }

  lemma {:induction false} HonestFrom(
    limit: nat, server: CveServer, list: seq<Vuln>, k: nat, vulns: seq<Vuln>, total: int)
    requires Honest(server, list)
    requires vulns <= list && |vulns| <= limit
    requires |vulns| >= limit ==> total == |list|
    ensures Walk(limit, server, k, vulns, total) == Answered(Page(|list|, Take(list, limit)))
    decreases limit - |vulns|
  {
    var request := NextRequest(limit, |vulns|);
    if request.perPage > 0 {
      assert HonestReply(server(k, request), request, list);
      var page := server(k, request).value;
      var all := vulns + page.vulns;
      assert all <= list by {
        assert list == vulns + list[|vulns|..];
      }
      if page.vulns != [] && |all| < page.total {
        HonestFrom(limit, server, list, k + 1, all, page.total);
      } else {
        assert all == list == list[..|list|];
      }
    } else {
      assert vulns == list[..limit];
    }
  }

  /** Against an honest server the walk returns exactly the first entries, up to the limit. */
  lemma HonestWalk(limit: nat, server: CveServer, list: seq<Vuln>)
    requires limit > 0 && Honest(server, list)
    ensures Walk(limit, server, 0, [], 0) == Answered(Page(|list|, Take(list, limit)))
  {
    HonestFrom(limit, server, list, 0, [], 0);
  }

  // --- One CPE ------------------------------------------------------------------------------

  /** NVD as one run finds it: how much this run reads of it, and what its two endpoints reply. */
  datatype Upstream = Upstream(
    perCpe: int,                    // how many CVEs are wanted for one match string
    maxCpes: nat,                   // how many match strings are queried
    cves: string -> CveServer,      // the CVE pages of a match string
    dictionary: DictionaryServer)

  /** Whether the dictionary lists a match string at all. */
  function Listed(dictionary: DictionaryServer, cpe: string): Reply<bool> {
    match CataloguePage(dictionary, cpe, "")
    case TimedOut => TimedOut
    case Broken(reason) => Broken(reason)
    case Answered(cat) => Answered(cat.Exists())
  }

  /** The product tokens the dictionary holds for a match string's vendor. */
  function KnownProducts(dictionary: DictionaryServer, cpe: string): Reply<seq<string>> {
    var vendor := VendorMatchString(cpe);
    if vendor == "" then Answered([]) else
    match VendorProducts(dictionary, vendor, "")
    case TimedOut => TimedOut
    case Broken(reason) => Broken(reason)
    case Answered(cat) => Answered(cat.products)
  }

  datatype Verdict = Verdict(query: NvdQuery, vulns: seq<Vuln>)

  /** "No CVEs" and "this product was invented" are told apart by a second request. */
  function Judged(s: Upstream, cpe: string, total: int): Reply<Verdict> {
    match Listed(s.dictionary, cpe)
    case TimedOut => TimedOut
    case Broken(reason) => Broken(reason)
    case Answered(listed) =>
      if listed then Answered(Verdict(NvdQuery(cpe, total, InDictionary, []), [])) else
      match KnownProducts(s.dictionary, cpe)
      case TimedOut => TimedOut
      case Broken(reason) => Broken(reason)
      case Answered(products) => Answered(Verdict(NvdQuery(cpe, total, Unverified, products), []))
  }

  function QueryCpe(s: Upstream, cpe: string): Reply<Verdict> {
    match Walk(s.perCpe, s.cves(cpe), 0, [], 0)
    case TimedOut => TimedOut
    case Broken(reason) => Broken(reason)
    case Answered(page) =>
      if page.total > 0 then Answered(Verdict(NvdQuery(cpe, page.total, HasCves, []), page.vulns))
      else Judged(s, cpe, page.total)
  }

  /** Whatever the replies, the three verdicts are never confused, and only the first comes with CVEs. */
  lemma VerdictMeans(s: Upstream, cpe: string)
    requires QueryCpe(s, cpe).Answered?
    ensures var v, walk := QueryCpe(s, cpe).value, Walk(s.perCpe, s.cves(cpe), 0, [], 0);
      && v.query.cpe == cpe && walk.Answered? && v.query.totalResults == walk.value.total
      && (v.query.verification == HasCves <==> walk.value.total > 0)
      && (v.query.verification == InDictionary <==>
            walk.value.total <= 0 && Listed(s.dictionary, cpe) == Answered(true))
      && (v.query.verification == Unverified <==> walk.value.total <= 0 && Listed(s.dictionary, cpe) == Answered(false))
      && v.vulns == (if v.query.verification == HasCves then walk.value.vulns else [])
  {
    hide Walk, Listed, KnownProducts;
  }

  function CveCalls(cpe: string, requests: seq<Request>): seq<Call> {
    seq(|requests|, i requires 0 <= i < |requests| => CvePage(cpe, requests[i].perPage, requests[i].start))
  }

  function JudgeCalls(s: Upstream, cpe: string): seq<Call> {
    if Listed(s.dictionary, cpe) == Answered(false) && VendorMatchString(cpe) != ""
    then [DictionaryPage(cpe, ""), DictionaryPage(VendorMatchString(cpe), "")]
    else [DictionaryPage(cpe, "")]
  }

  /** The calls one match string costs: the walk, then the dictionary, then the vendor's page. */
  function CpeCalls(s: Upstream, cpe: string): seq<Call> {
    var walk := Walk(s.perCpe, s.cves(cpe), 0, [], 0);
    var cves := CveCalls(cpe, WalkRequests(s.perCpe, s.cves(cpe), 0, []));
    if walk.Answered? && walk.value.total <= 0 then cves + JudgeCalls(s, cpe) else cves
  }

  /** Two services that reply alike to the calls made for a match string give it the same verdict. */
  lemma CallsDecide(a: Upstream, b: Upstream, cpe: string)
    requires a.perCpe == b.perCpe
    requires Alike(a.cves(cpe), b.cves(cpe), 0, WalkRequests(a.perCpe, a.cves(cpe), 0, []))
    requires forall p, t :: DictionaryPage(p, t) in CpeCalls(a, cpe) ==> a.dictionary(p, t) == b.dictionary(p, t)
    ensures QueryCpe(a, cpe) == QueryCpe(b, cpe) && CpeCalls(a, cpe) == CpeCalls(b, cpe)
  {
    RequestsDecide(a.perCpe, a.cves(cpe), b.cves(cpe), 0, [], 0);
    hide Walk, WalkRequests;
    var walk := Walk(a.perCpe, a.cves(cpe), 0, [], 0);
    if walk.Answered? && walk.value.total <= 0 {
      assert DictionaryPage(cpe, "") in JudgeCalls(a, cpe);
      JudgeDecides(a, b, cpe, walk.value.total);
    }
    hide Judged, JudgeCalls;
  }

  lemma JudgeDecides(a: Upstream, b: Upstream, cpe: string, total: int)
    requires forall p, t :: DictionaryPage(p, t) in JudgeCalls(a, cpe) ==> a.dictionary(p, t) == b.dictionary(p, t)
    ensures Judged(a, cpe, total) == Judged(b, cpe, total) && JudgeCalls(a, cpe) == JudgeCalls(b, cpe)
  {
    assert TrimSpace("") == "";
    assert DictionaryPage(cpe, "") in JudgeCalls(a, cpe);
    assert Listed(a.dictionary, cpe) == Listed(b.dictionary, cpe);
    if Listed(a.dictionary, cpe) == Answered(false) && VendorMatchString(cpe) != "" {
      assert DictionaryPage(VendorMatchString(cpe), "") in JudgeCalls(a, cpe);
      assert KnownProducts(a.dictionary, cpe) == KnownProducts(b.dictionary, cpe);
    }
  }

  method QueryOne(s: Upstream, cpe: string) returns (out: Reply<Verdict>, calls: seq<Call>)
    ensures out == QueryCpe(s, cpe) && calls == CpeCalls(s, cpe)
  {
    var walk, requests := FetchCves(s.perCpe, s.cves(cpe));
    calls := CveCalls(cpe, requests);
    match walk {
      case TimedOut => return TimedOut, calls;
      case Broken(reason) => return Broken(reason), calls;
      case Answered(page) =>
        if page.total > 0 {
          return Answered(Verdict(NvdQuery(cpe, page.total, HasCves, []), page.vulns)), calls;
        }
        var judged, more := Judge(s, cpe, page.total);
        return judged, calls + more;
    }
  }

  method Judge(s: Upstream, cpe: string, total: int) returns (out: Reply<Verdict>, calls: seq<Call>)
    ensures out == Judged(s, cpe, total) && calls == JudgeCalls(s, cpe)
  {
    calls := [DictionaryPage(cpe, "")];
    match Listed(s.dictionary, cpe) {
      case TimedOut => return TimedOut, calls;
      case Broken(reason) => return Broken(reason), calls;
      case Answered(listed) =>
        if listed {
          return Answered(Verdict(NvdQuery(cpe, total, InDictionary, []), [])), calls;
        }
    }
    if VendorMatchString(cpe) != "" {
      calls := calls + [DictionaryPage(VendorMatchString(cpe), "")];
    }
    match KnownProducts(s.dictionary, cpe) {
      case TimedOut => return TimedOut, calls;
      case Broken(reason) => return Broken(reason), calls;
      case Answered(products) =>
        return Answered(Verdict(NvdQuery(cpe, total, Unverified, products), [])), calls;
    }
  }

  // --- The section --------------------------------------------------------------------------

  function VulnId(v: Vuln): string { v.id }

  /** Higher score first; equal scores by id. */
  predicate VulnLeq(a: Vuln, b: Vuln) {
    a.baseScore > b.baseScore || (a.baseScore == b.baseScore && StringLeq(a.id, b.id))
  }

  lemma VulnOrdering()
    ensures Ordering(VulnLeq)
  {
    forall a, b ensures VulnLeq(a, b) || VulnLeq(b, a) {
      StringLeqTotal(a.id, b.id);
    }
    forall a, b, c | VulnLeq(a, b) && VulnLeq(b, c) ensures VulnLeq(a, c) {
      if StringLeq(a.id, b.id) && StringLeq(b.id, c.id) {
        StringLeqTransitive(a.id, b.id, c.id);
      }
    }
  }

  datatype Severity = Critical | High | Medium | Low | Unscored

  function SeverityOf(v: Vuln): Severity {
    if EqualFold(v.severity, "CRITICAL") then Critical
    else if EqualFold(v.severity, "HIGH") then High
    else if EqualFold(v.severity, "MEDIUM") then Medium
    else if EqualFold(v.severity, "LOW") then Low
    else Unscored
  }

  function Counts(vulns: seq<Vuln>): SeverityCounts {
    SeverityCounts(Count(vulns, SeverityOf, Critical), Count(vulns, SeverityOf, High),
                   Count(vulns, SeverityOf, Medium), Count(vulns, SeverityOf, Low),
                   Count(vulns, SeverityOf, Unscored))
  }

  /** Every CVE falls in exactly one bucket. */
  lemma {:induction false} CountsSum(vulns: seq<Vuln>)
    ensures var c := Counts(vulns); c.critical + c.high + c.medium + c.low + c.unscored == |vulns|
  {
    hide SeverityOf;
    if vulns != [] {
      CountsSum(vulns[..|vulns| - 1]);
      var b := SeverityOf(vulns[|vulns| - 1]);
      assert b == Critical || b == High || b == Medium || b == Low || b == Unscored;
    }
  }

  /** The CVEs whose severity NVD spells this way, in whatever case. */
  ghost function Rated(vulns: seq<Vuln>, severity: string): set<int> {
    set i | 0 <= i < |vulns| && EqualFold(vulns[i].severity, severity)
  }

  /** Every counter holds the number of CVEs of its severity, and the last one that of all others. */
  ghost predicate CountsOf(counts: SeverityCounts, vulns: seq<Vuln>) {
    && counts.critical == |Rated(vulns, "CRITICAL")|
    && counts.high == |Rated(vulns, "HIGH")|
    && counts.medium == |Rated(vulns, "MEDIUM")|
    && counts.low == |Rated(vulns, "LOW")|
    && counts.critical + counts.high + counts.medium + counts.low + counts.unscored == |vulns|
  }

  lemma CountsExact(vulns: seq<Vuln>)
    ensures CountsOf(Counts(vulns), vulns)
  {
    CountsSum(vulns);
    CountExact(vulns, SeverityOf, Critical);
    CountExact(vulns, SeverityOf, High);
    CountExact(vulns, SeverityOf, Medium);
    CountExact(vulns, SeverityOf, Low);
    assert |ToLower("CRITICAL")| == 8 && |ToLower("HIGH")| == 4 && |ToLower("MEDIUM")| == 6 && |ToLower("LOW")| == 3;
    assert PositionsOf(vulns, SeverityOf, Critical) == Rated(vulns, "CRITICAL");
    assert PositionsOf(vulns, SeverityOf, High) == Rated(vulns, "HIGH");
    assert PositionsOf(vulns, SeverityOf, Medium) == Rated(vulns, "MEDIUM");
    assert PositionsOf(vulns, SeverityOf, Low) == Rated(vulns, "LOW");
  }

  method CountSeverities(vulns: seq<Vuln>) returns (counts: SeverityCounts)
    ensures counts == Counts(vulns) && CountsOf(counts, vulns)
  {
    hide SeverityOf;
    counts := SeverityCounts(0, 0, 0, 0, 0);
    for i := 0 to |vulns|
      invariant counts == Counts(vulns[..i])
    {
      assert vulns[..i + 1][..i] == vulns[..i];
      match SeverityOf(vulns[i]) {
        case Critical => counts := counts.(critical := counts.critical + 1);
        case High => counts := counts.(high := counts.high + 1);
        case Medium => counts := counts.(medium := counts.medium + 1);
        case Low => counts := counts.(low := counts.low + 1);
        case Unscored => counts := counts.(unscored := counts.unscored + 1);
      }
    }
    assert vulns[..|vulns|] == vulns;
    CountsExact(vulns);
    hide CountsOf;
  }

  predicate AnyVerified(r: NvdResult) {
    exists q <- r.queries :: q.verification != Unverified
  }

  predicate AllUnverified(queries: seq<NvdQuery>) {
    forall q <- queries :: q.verification == Unverified
  }

  function QueriedCpes(queries: seq<NvdQuery>): seq<string> {
    seq(|queries|, i requires 0 <= i < |queries| => queries[i].cpe)
  }

  /** The section's verdict is about exactly the match strings of `cpes`. */
  ghost predicate About(section: Section, cpes: seq<string>) {
    section.data.NvdData? ==>
      QueriedCpes(section.data.nvd.queries) + section.data.nvd.unqueried == MatchStrings(cpes)
  }

  /** What the service would answer for each match string. */
  function Asking(s: Upstream): string -> Reply<Verdict> {
    cpe => QueryCpe(s, cpe)
  }

  function Calling(s: Upstream): string -> seq<Call> {
    cpe => CpeCalls(s, cpe)
  }

  ghost predicate Attributed(ask: string -> Reply<Verdict>) {
    forall cpe :: ask(cpe).Answered? ==> ask(cpe).value.query.cpe == cpe
  }

  lemma AskingAttributed(s: Upstream)
    ensures Attributed(Asking(s))
  {
    forall cpe | Asking(s)(cpe).Answered? ensures Asking(s)(cpe).value.query.cpe == cpe {
      VerdictMeans(s, cpe);
    }
  }

  /** How many leading match strings are answered before the list, the cap or an error ends the loop. */
  function Reached(ask: string -> Reply<Verdict>, matches: seq<string>, maxCpes: nat, i: nat): (n: nat)
    requires i <= |matches|
    ensures i <= n <= |matches|
    ensures forall j :: i <= j < n ==> ask(matches[j]).Answered?
    ensures n > i ==> n <= maxCpes
    ensures n < |matches| && n < maxCpes ==> !ask(matches[n]).Answered?
    decreases |matches| - i
  {
    if i >= |matches| || i >= maxCpes || !ask(matches[i]).Answered? then i
    else Reached(ask, matches, maxCpes, i + 1)
  }

  function Answers(ask: string -> Reply<Verdict>, matches: seq<string>, n: nat): (queries: seq<NvdQuery>)
    requires n <= |matches| && forall j :: 0 <= j < n ==> ask(matches[j]).Answered?
    ensures |queries| == n
  {
    seq(n, i requires 0 <= i < n => ask(matches[i]).value.query)
  }

  /** All CVEs of the first `n` match strings, in the order they arrived. */
  function Arrived(ask: string -> Reply<Verdict>, matches: seq<string>, n: nat): seq<Vuln>
    requires n <= |matches|
  {
    if n == 0 then [] else
    var reply := ask(matches[n - 1]);
    Arrived(ask, matches, n - 1) + if reply.Answered? then reply.value.vulns else []
  }

  /** The calls for the first `n` match strings. */
  function CallsUpTo(calls: string -> seq<Call>, matches: seq<string>, n: nat): seq<Call>
    requires n <= |matches|
  {
    if n == 0 then [] else CallsUpTo(calls, matches, n - 1) + calls(matches[n - 1])
  }

  function Citations(cves: seq<Vuln>): seq<Citation> {
    seq(|cves|, i requires 0 <= i < |cves| => Citation(cves[i].id, cves[i].url))
  }

  /** One line per invented CPE, naming the products its vendor really has. */
  function UnverifiedLines(queries: seq<NvdQuery>): string {
    if queries == [] then "" else
    var q := queries[|queries| - 1];
    UnverifiedLines(queries[..|queries| - 1]) + "\n  " + q.cpe + " is unknown to NVD" +
    if q.knownProducts == [] then ""
    else "; NVD lists these products for that vendor: " + JoinComma(q.knownProducts)
  }

  /** The section once the queries are over. */
  function Concluded(queries: seq<NvdQuery>, unqueried: seq<string>, found: seq<Vuln>): Section {
    if queries != [] && AllUnverified(queries) then
      FailedSection(Fingerprint.NVD, "none of the resolved CPEs exist in NVD" + UnverifiedLines(queries)).(
        data := NvdData(NvdResult(queries, unqueried, 0, SeverityCounts(0, 0, 0, 0, 0), found)))
    else
      var cves := StableSort(found, VulnLeq);
      OkSection(Fingerprint.NVD, NvdData(NvdResult(queries, unqueried, |cves|, Counts(cves), cves)), Citations(cves))
  }

  /** NVD's section, as a function of the match strings and of what each is answered. */
  function SectionOf(ask: string -> Reply<Verdict>, matches: seq<string>, maxCpes: nat): Section {
    if matches == [] then SkippedSection(Fingerprint.NVD, "no CPEs resolved for this vendor; NVD is keyed on CPE") else
    var n := Reached(ask, matches, maxCpes, 0);
    if n < |matches| && n < maxCpes && ask(matches[n]).Broken?
    then FailedSection(Fingerprint.NVD, Reason(ask(matches[n])))
    else Concluded(Answers(ask, matches, n), matches[n..], FirstByKey(Arrived(ask, matches, n), VulnId))
  }

  /** The calls behind it: those of every match string asked, the last one perhaps in vain. */
  function CallsOf(
    ask: string -> Reply<Verdict>, calls: string -> seq<Call>, matches: seq<string>, maxCpes: nat): seq<Call>
  {
    var n := Reached(ask, matches, maxCpes, 0);
    CallsUpTo(calls, matches, n) + if n < |matches| && n < maxCpes then calls(matches[n]) else []
  }

  /** NVD's Fetch: a function of the query, the entity and the replies. */
  function NvdFetch(s: Upstream, ent: Entity): Fetched {
    var matches := MatchStrings(ent.cpes);
    Fetched(CallsOf(Asking(s), Calling(s), matches, s.maxCpes), SectionOf(Asking(s), matches, s.maxCpes))
  }

  method QueryAll(s: Upstream, matches: seq<string>)
    returns (queries: seq<NvdQuery>, unqueried: seq<string>, cves: seq<Vuln>, broken: Option<string>, calls: seq<Call>)
    ensures var ask := Asking(s);
      var n := Reached(ask, matches, s.maxCpes, 0);
      && queries == Answers(ask, matches, n)
      && unqueried == matches[n..]
      && cves == FirstByKey(Arrived(ask, matches, n), VulnId)
      && broken == (if n < |matches| && n < s.maxCpes && ask(matches[n]).Broken?
                    then Some(Reason(ask(matches[n]))) else None)
      && calls == CallsOf(ask, Calling(s), matches, s.maxCpes)
  {
    queries, unqueried, cves, broken, calls := [], [], [], None, [];
    ghost var ask := Asking(s);
    hide QueryCpe, CpeCalls, FirstByKey, Reached, Answers, Arrived, CallsUpTo;
    Ends(ask, Calling(s), matches, s.maxCpes);
    for i := 0 to |matches|
      invariant Reached(ask, matches, s.maxCpes, 0) == Reached(ask, matches, s.maxCpes, i)
      invariant forall j :: 0 <= j < i ==> ask(matches[j]).Answered?
      invariant queries == Answers(ask, matches, i)
      invariant cves == FirstByKey(Arrived(ask, matches, i), VulnId)
      invariant calls == CallsUpTo(Calling(s), matches, i)
      invariant unqueried == []
    {
      Step(ask, Calling(s), matches, s.maxCpes, i);
      if i >= s.maxCpes {
        unqueried := matches[i..];
        assert calls + [] == calls;
        return;
      }
      var reply, more := QueryOne(s, matches[i]);
      calls := calls + more;
      match reply {
        case Broken(reason) =>
          unqueried, broken := matches[i..], Some(reason);
          return;
        case TimedOut =>
          unqueried := matches[i..];
          return;
        case Answered(verdict) =>
          assert ask(matches[i]) == reply;
          queries := queries + [verdict.query];
          cves := AddUnseen(Arrived(ask, matches, i), cves, verdict.vulns);
      }
    }
    assert calls + [] == calls;
  }

  lemma Ends(ask: string -> Reply<Verdict>, calls: string -> seq<Call>, matches: seq<string>, maxCpes: nat)
    ensures Answers(ask, matches, 0) == [] && CallsUpTo(calls, matches, 0) == []
    ensures FirstByKey(Arrived(ask, matches, 0), VulnId) == []
    ensures Reached(ask, matches, maxCpes, |matches|) == |matches|
  {}

  /** What one more match string adds, when it is answered, and that the walk ends there when it is not. */
  lemma Step(
    ask: string -> Reply<Verdict>, calls: string -> seq<Call>, matches: seq<string>, maxCpes: nat, i: nat)
    requires i < |matches| && forall j :: 0 <= j < i ==> ask(matches[j]).Answered?
    ensures CallsUpTo(calls, matches, i + 1) == CallsUpTo(calls, matches, i) + calls(matches[i])
    ensures if i >= maxCpes || !ask(matches[i]).Answered? then Reached(ask, matches, maxCpes, i) == i
            else
              && Reached(ask, matches, maxCpes, i) == Reached(ask, matches, maxCpes, i + 1)
              && Answers(ask, matches, i + 1) == Answers(ask, matches, i) + [ask(matches[i]).value.query]
              && Arrived(ask, matches, i + 1) == Arrived(ask, matches, i) + ask(matches[i]).value.vulns
  {}

  /** The inner loop: a CVE already kept is skipped. */
  method AddUnseen(ghost arrived: seq<Vuln>, kept: seq<Vuln>, vulns: seq<Vuln>) returns (cves: seq<Vuln>)
    requires kept == FirstByKey(arrived, VulnId)
    ensures cves == FirstByKey(arrived + vulns, VulnId)
  {
    hide FirstByKey;
    cves := kept;
    assert arrived + vulns[..0] == arrived;
    for i := 0 to |vulns|
      invariant cves == FirstByKey(arrived + vulns[..i], VulnId)
    {
      FirstByKeyOneMore(arrived, vulns, i, VulnId);
      if !HasKey(cves, VulnId, vulns[i].id) {
        cves := cves + [vulns[i]];
      }
    }
    assert vulns[..|vulns|] == vulns;
  }

  method Conclude(queries: seq<NvdQuery>, unqueried: seq<string>, found: seq<Vuln>) returns (section: Section)
    ensures section == Concluded(queries, unqueried, found)
  {
    if |queries| > 0 && AllUnverified(queries) {
      return FailedSection(Fingerprint.NVD, "none of the resolved CPEs exist in NVD" + UnverifiedLines(queries)).(
        data := NvdData(NvdResult(queries, unqueried, 0, SeverityCounts(0, 0, 0, 0, 0), found)));
    }
    var cves := StableSort(found, VulnLeq);
    var severity := CountSeverities(cves);
    section := OkSection(
      Fingerprint.NVD, NvdData(NvdResult(queries, unqueried, |cves|, severity, cves)), Citations(cves));
  }

  /** Returns the section and the calls that `NvdFetch` determines from the entity and the replies. */
  method Fetch(s: Upstream, ent: Entity) returns (section: Section, calls: seq<Call>)
    ensures Fetched(calls, section) == NvdFetch(s, ent)
  {
    hide Concluded, QueryCpe, CpeCalls;
    var matches := CpeMatchStrings(ent.cpes);
    if |matches| == 0 {
      return SkippedSection(Fingerprint.NVD, "no CPEs resolved for this vendor; NVD is keyed on CPE"), [];
    }
    var queries, unqueried, cves, broken;
    queries, unqueried, cves, broken, calls := QueryAll(s, matches);
    if broken.Some? {
      return FailedSection(Fingerprint.NVD, broken.value), calls;
    }
    section := Conclude(queries, unqueried, cves);
  }

  // --- What the section says ------------------------------------------------------------------

  /** Highest score first; equal scores by id, in the order of a dictionary. */
  ghost predicate Descending(cves: seq<Vuln>) {
    forall i, j :: 0 <= i < j < |cves| ==>
      cves[i].baseScore > cves[j].baseScore ||
      (cves[i].baseScore == cves[j].baseScore && Precedes(cves[i].id, cves[j].id))
  }

  /** Every CVE that arrived, once, as it first did, in order and counted. */
  ghost predicate SoundAnswer(r: NvdResult, arrived: seq<Vuln>) {
    && DistinctKeys(r.cves, VulnId)
    && Descending(r.cves)
    && (forall id :: HasKey(r.cves, VulnId, id) <==> HasKey(arrived, VulnId, id))
    && multiset(r.cves) == multiset(FirstByKey(arrived, VulnId))
    && r.totalCves == |r.cves|
    && CountsOf(r.severity, r.cves)
  }

  /** What stopped the queries after `asked` of them: the list, the cap, the deadline, or another error. */
  ghost predicate Stopped(
    ask: string -> Reply<Verdict>, matches: seq<string>, maxCpes: nat, asked: nat, broken: bool)
  {
    if asked >= |matches| || asked >= maxCpes then !broken
    else if broken then ask(matches[asked]).Broken?
    else ask(matches[asked]).TimedOut?
  }

  /** A section with these queries behind it: it fails when none was verified, and is otherwise a sound answer. */
  ghost predicate Reports(section: Section, queries: seq<NvdQuery>, unqueried: seq<string>, arrived: seq<Vuln>) {
    && section.source == Fingerprint.NVD && !section.cached
    && section.data.NvdData? && section.status != Skipped
    && var r := section.data.nvd;
    && r.queries == queries && r.unqueried == unqueried
    && (section.status == Failed <==> queries != [] && forall q <- queries :: q.verification == Unverified)
    && (section.status == Failed ==> r.totalCves == 0 && section.citations == [])
    && (section.status == OK ==>
          && SoundAnswer(r, arrived)
          && |section.citations| == |r.cves|
          && forall i :: 0 <= i < |r.cves| ==> section.citations[i] == Citation(r.cves[i].id, r.cves[i].url))
  }

  lemma ConcludedSound(queries: seq<NvdQuery>, unqueried: seq<string>, arrived: seq<Vuln>)
    ensures Reports(Concluded(queries, unqueried, FirstByKey(arrived, VulnId)), queries, unqueried, arrived)
  {
    SortedSound(arrived);
    hide Counts, SoundAnswer, UnverifiedLines, VulnLeq, StableSort, FirstByKey;
    AnswerIsSound(queries, unqueried, arrived);
  }

  lemma AnswerIsSound(queries: seq<NvdQuery>, unqueried: seq<string>, arrived: seq<Vuln>)
    ensures var cves := StableSort(FirstByKey(arrived, VulnId), VulnLeq);
            SoundAnswer(NvdResult(queries, unqueried, |cves|, Counts(cves), cves), arrived)
  {
    SortedSound(arrived);
    hide Counts, CountsOf, VulnLeq, StableSort, FirstByKey;
  }

  lemma SortedSound(arrived: seq<Vuln>)
    ensures var found := FirstByKey(arrived, VulnId);
      var cves := StableSort(found, VulnLeq);
      && DistinctKeys(cves, VulnId) && Descending(cves) && multiset(cves) == multiset(found)
      && (forall id :: HasKey(cves, VulnId, id) <==> HasKey(arrived, VulnId, id))
      && CountsOf(Counts(cves), cves)
  {
    var found := FirstByKey(arrived, VulnId);
    FirstByKeyKeys(arrived, VulnId);
    VulnOrdering();
    SortKeepsKeys(found, VulnLeq, VulnId);
    CountsExact(StableSort(found, VulnLeq));
    WorstFirst(StableSort(found, VulnLeq));
    hide *;
  }

  lemma WorstFirst(cves: seq<Vuln>)
    requires Sorted(cves, VulnLeq) && DistinctKeys(cves, VulnId)
    ensures Descending(cves)
  {
    hide StringLeq, Precedes;
    forall i, j | 0 <= i < j < |cves| ensures
      cves[i].baseScore > cves[j].baseScore ||
      (cves[i].baseScore == cves[j].baseScore && Precedes(cves[i].id, cves[j].id))
    {
      assert VulnLeq(cves[i], cves[j]) && VulnId(cves[i]) != VulnId(cves[j]);
      StringLeqExact(cves[i].id, cves[j].id);
    }
  }

  /**
   Unless an error other than the deadline occurs, each match string was queried or is listed as
   unqueried, in order; and an OK section holds each CVE once, by score and id.
   */
  lemma SectionReports(s: Upstream, ent: Entity) returns (asked: nat)
    ensures var matches, section := MatchStrings(ent.cpes), NvdFetch(s, ent).section;
      && asked <= |matches| && asked <= s.maxCpes
      && About(section, ent.cpes)
      && (section.status == Skipped <==> matches == [])
      && (matches != [] ==> Stopped(Asking(s), matches, s.maxCpes, asked, section.data.NoData?))
      && (matches != [] && section.data.NoData? ==> section.status == Failed)
      && (section.data.NvdData? ==>
            var r := section.data.nvd;
            && |r.queries| == asked && QueriedCpes(r.queries) + r.unqueried == matches
            && (forall i :: 0 <= i < asked ==>
                  Asking(s)(matches[i]).Answered? && r.queries[i] == Asking(s)(matches[i]).value.query)
            && (section.status == Failed <==> r.queries != [] && !AnyVerified(r))
            && Reports(section, r.queries, r.unqueried, Arrived(Asking(s), matches, asked))
            && (section.status == OK ==> SoundAnswer(r, Arrived(Asking(s), matches, asked))))
  {
    asked := Reached(Asking(s), MatchStrings(ent.cpes), s.maxCpes, 0);
    AskingAttributed(s);
    AskedSectionReports(Asking(s), MatchStrings(ent.cpes), s.maxCpes);
    hide SectionOf, Asking, SoundAnswer, Stopped, AnyVerified, Reports;
  }

  lemma AskedSectionReports(ask: string -> Reply<Verdict>, matches: seq<string>, maxCpes: nat)
    requires Attributed(ask)
    ensures var section, asked := SectionOf(ask, matches, maxCpes), Reached(ask, matches, maxCpes, 0);
      && (section.status == Skipped <==> matches == [])
      && (matches == [] ==> section.data == NoData)
      && (matches != [] ==> Stopped(ask, matches, maxCpes, asked, section.data.NoData?))
      && (matches != [] && section.data.NoData? ==> section.status == Failed)
      && (section.data.NvdData? ==>
            var r := section.data.nvd;
            && r.queries == Answers(ask, matches, asked)
            && QueriedCpes(r.queries) + r.unqueried == matches
            && (section.status == Failed <==> r.queries != [] && !AnyVerified(r))
            && Reports(section, r.queries, r.unqueried, Arrived(ask, matches, asked))
            && (section.status == OK ==> SoundAnswer(r, Arrived(ask, matches, asked))))
  {
    var asked := Reached(ask, matches, maxCpes, 0);
    var queries, arrived := Answers(ask, matches, asked), Arrived(ask, matches, asked);
    var concluded := Concluded(queries, matches[asked..], FirstByKey(arrived, VulnId));
    Branches(ask, matches, maxCpes);
    ConcludedSound(queries, matches[asked..], arrived);
    ReportsMeans(concluded, queries, matches[asked..], arrived);
    QueriedThenUnqueried(ask, matches, asked);
    hide *;
  }

  lemma Branches(ask: string -> Reply<Verdict>, matches: seq<string>, maxCpes: nat)
    ensures var section, asked := SectionOf(ask, matches, maxCpes), Reached(ask, matches, maxCpes, 0);
      if matches == [] then section.status == Skipped && section.data.NoData?
      else
        || (section.status == Failed && section.data.NoData? && Stopped(ask, matches, maxCpes, asked, true))
        || (section == Concluded(Answers(ask, matches, asked), matches[asked..],
                                 FirstByKey(Arrived(ask, matches, asked), VulnId)) &&
            Stopped(ask, matches, maxCpes, asked, false))
  {
    hide Concluded, Answers, Arrived, FirstByKey;
  }

  lemma ReportsMeans(section: Section, queries: seq<NvdQuery>, unqueried: seq<string>, arrived: seq<Vuln>)
    requires Reports(section, queries, unqueried, arrived)
    ensures section.data.NvdData? && section.status != Skipped
    ensures section.data.nvd.queries == queries && section.data.nvd.unqueried == unqueried
    ensures section.status == Failed <==> queries != [] && !AnyVerified(section.data.nvd)
    ensures section.status == OK ==> SoundAnswer(section.data.nvd, arrived)
  {
    hide SoundAnswer;
  }

  lemma QueriedThenUnqueried(ask: string -> Reply<Verdict>, matches: seq<string>, n: nat)
    requires Attributed(ask) && n <= |matches| && forall j :: 0 <= j < n ==> ask(matches[j]).Answered?
    ensures QueriedCpes(Answers(ask, matches, n)) + matches[n..] == matches
  {
    assert QueriedCpes(Answers(ask, matches, n)) == matches[..n];
  }

  // --- What is asked --------------------------------------------------------------------------

  lemma {:induction false} CallsUpToExact(calls: string -> seq<Call>, matches: seq<string>, n: nat)
    requires n <= |matches|
    ensures CallsUpTo(calls, matches, n) == Concat(seq(n, i requires 0 <= i < n => calls(matches[i])))
  {
    if n > 0 {
      CallsUpToExact(calls, matches, n - 1);
      var all := seq(n, i requires 0 <= i < n => calls(matches[i]));
      assert all[..n - 1] == seq(n - 1, i requires 0 <= i < n - 1 => calls(matches[i]));
    }
  }

  /** The calls of a fetch are those of each match string queried, in order, and of the one that ended it, if any. */
  lemma FetchCallsExact(s: Upstream, ent: Entity) returns (asked: nat)
    ensures var matches := MatchStrings(ent.cpes);
      && asked <= |matches|
      && (forall i :: 0 <= i < asked ==> QueryCpe(s, matches[i]).Answered?)
      && (asked < |matches| && asked < s.maxCpes ==> !QueryCpe(s, matches[asked]).Answered?)
      && var k := if asked < |matches| && asked < s.maxCpes then asked + 1 else asked;
      NvdFetch(s, ent).calls == Concat(seq(k, i requires 0 <= i < k => CpeCalls(s, matches[i])))
  {
    var matches := MatchStrings(ent.cpes);
    asked := Reached(Asking(s), matches, s.maxCpes, 0);
    var k := if asked < |matches| && asked < s.maxCpes then asked + 1 else asked;
    CallsUpToExact(Calling(s), matches, k);
    assert seq(k, i requires 0 <= i < k => Calling(s)(matches[i])) ==
      seq(k, i requires 0 <= i < k => CpeCalls(s, matches[i]));
    CallsAre(s, matches, asked, k);
    hide *;
  }

  lemma CallsAre(s: Upstream, matches: seq<string>, asked: nat, k: nat)
    requires asked == Reached(Asking(s), matches, s.maxCpes, 0)
    requires k == if asked < |matches| && asked < s.maxCpes then asked + 1 else asked
    ensures forall ent: Entity | MatchStrings(ent.cpes) == matches ::
              NvdFetch(s, ent).calls == CallsUpTo(Calling(s), matches, k)
    ensures forall i :: 0 <= i < asked ==> QueryCpe(s, matches[i]).Answered?
    ensures asked < |matches| && asked < s.maxCpes ==> !QueryCpe(s, matches[asked]).Answered?
  {
    assert CallsUpTo(Calling(s), matches, asked) + [] == CallsUpTo(Calling(s), matches, asked);
    hide QueryCpe, CpeCalls, SectionOf, MatchStrings;
    forall i | 0 <= i < asked ensures QueryCpe(s, matches[i]).Answered? {
      assert Asking(s)(matches[i]).Answered?;
    }
  }
}
