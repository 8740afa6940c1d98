/** OSV: the walk over each package's pages, and the section made of what they held. */
module Osv {
  import opened Text
  import opened Sequences
  import opened Domain
  import opened Service
  import Fingerprint

  const MAX_PAGES := 5

  // --- One package ----------------------------------------------------------------------------

  datatype TokenPage<+V> = TokenPage(vulns: seq<V>, next: string)

  datatype Listing<+V> = Listing(vulns: seq<V>, truncated: bool)

  /** What the service replies to the k-th request, which carries a page token: any function at all. */
  type TokenServer<V> = (nat, string) -> Reply<TokenPage<V>>

  /** The walk from its k-th request on, `all` having been gathered. */
  function Follow<V>(server: TokenServer<V>, k: nat, token: string, all: seq<V>): Reply<Listing<V>>
    decreases MAX_PAGES - k
  {
    if k >= MAX_PAGES then Answered(Listing(all, true)) else
    match server(k, token)
    case TimedOut => TimedOut
    case Broken(reason) => Broken(reason)
    case Answered(page) =>
      if page.next == "" then Answered(Listing(all + page.vulns, false))
      else Follow(server, k + 1, page.next, all + page.vulns)
  }

  /** The tokens that walk sends. */
  function FollowTokens<V>(server: TokenServer<V>, k: nat, token: string): (tokens: seq<string>)
    ensures |tokens| <= if k < MAX_PAGES then MAX_PAGES - k else 0
    decreases MAX_PAGES - k
  {
    if k >= MAX_PAGES then [] else
    match server(k, token)
    case Answered(page) => if page.next == "" then [token] else [token] + FollowTokens(server, k + 1, page.next)
    case _ => [token]
  }

  ghost predicate Alike<V>(a: TokenServer<V>, b: TokenServer<V>, k: nat, tokens: seq<string>) {
    forall i :: 0 <= i < |tokens| ==> a(k + i, tokens[i]) == b(k + i, tokens[i])
  }

  /** Two servers that reply alike to the tokens one walk sends give the same walk: it asks nothing else. */
  lemma {:induction false} TokensDecide<V>(
    a: TokenServer<V>, b: TokenServer<V>, k: nat, token: string, all: seq<V>)
    requires Alike(a, b, k, FollowTokens(a, k, token))
    ensures Follow(a, k, token, all) == Follow(b, k, token, all)
    ensures FollowTokens(a, k, token) == FollowTokens(b, k, token)
    decreases MAX_PAGES - k
  {
    if k < MAX_PAGES {
      var tokens := FollowTokens(a, k, token);
      assert tokens[0] == token;
      assert a(k + 0, tokens[0]) == b(k + 0, tokens[0]);
      if a(k, token).Answered? && a(k, token).value.next != "" {
        AlikeNext(a, b, k, token, FollowTokens(a, k + 1, a(k, token).value.next));
        hide Alike;
        TokensDecide(a, b, k + 1, a(k, token).value.next, all + a(k, token).value.vulns);
      }
    }
  }

  lemma AlikeNext<V>(a: TokenServer<V>, b: TokenServer<V>, k: nat, token: string, rest: seq<string>)
    requires Alike(a, b, k, [token] + rest)
    ensures Alike(a, b, k + 1, rest)
  {
    forall i | 0 <= i < |rest| ensures a(k + 1 + i, rest[i]) == b(k + 1 + i, rest[i]) {
      assert ([token] + rest)[i + 1] == rest[i];
      assert a(k + (i + 1), rest[i]) == b(k + (i + 1), rest[i]);
    }
  }

  method QueryPackage<V>(server: TokenServer<V>) returns (out: Reply<Listing<V>>, tokens: seq<string>)
    ensures out == Follow(server, 0, "", [])
    ensures tokens == FollowTokens(server, 0, "") && |tokens| <= MAX_PAGES
  {
    tokens := [];
    var all: seq<V> := [];
    var token := "";
    for page := 0 to MAX_PAGES
      invariant Follow(server, 0, "", []) == Follow(server, page, token, all)
      invariant FollowTokens(server, 0, "") == tokens + FollowTokens(server, page, token)
    {
      var reply := server(page, token);
      if reply.Answered? {
        Regroup(tokens, [token], FollowTokens(server, page + 1, reply.value.next));
      }
      tokens := tokens + [token];
      match reply {
        case TimedOut => return TimedOut, tokens;
        case Broken(reason) => return Broken(reason), tokens;
        case Answered(received) =>
          all := all + received.vulns;
          if received.next == "" {
            return Answered(Listing(all, false)), tokens;
          }
          token := received.next;
      }
    }
    out := Answered(Listing(all, true));
  }

  /** The token the request after `pages` carries. */
  function NextToken<V>(pages: seq<TokenPage<V>>): string {
    if pages == [] then "" else pages[|pages| - 1].next
  }

  /** `pages` are the replies to consecutive requests, each carrying the token the one before gave. */
  ghost predicate Followed<V>(server: TokenServer<V>, pages: seq<TokenPage<V>>) {
    pages == [] ||
    var before := pages[..|pages| - 1];
    && Followed(server, before)
    && (before != [] ==> NextToken(before) != "")
    && server(|before|, NextToken(before)) == Answered(pages[|pages| - 1])
  }

  function Gathered<V>(pages: seq<TokenPage<V>>): seq<V> {
    if pages == [] then [] else Gathered(pages[..|pages| - 1]) + pages[|pages| - 1].vulns
  }

  /** The pages end where the service said so, or at the cap. */
  ghost predicate Ended<V>(pages: seq<TokenPage<V>>) {
    0 < |pages| <= MAX_PAGES && (NextToken(pages) == "" || |pages| == MAX_PAGES)
  }

  /** What the pages received amount to: their advisories, and whether the cap cut them short. */
  function ListingOf<V>(pages: seq<TokenPage<V>>): Listing<V> {
    Listing(Gathered(pages), |pages| == MAX_PAGES && NextToken(pages) != "")
  }

  lemma {:induction false} FollowOn<V>(server: TokenServer<V>, pages: seq<TokenPage<V>>)
    returns (more: seq<TokenPage<V>>)
    requires Followed(server, pages) && |pages| <= MAX_PAGES && (pages != [] ==> NextToken(pages) != "")
    ensures pages <= more && Followed(server, more)
    ensures var out := Follow(server, |pages|, NextToken(pages), Gathered(pages));
      if out.Answered? then Ended(more) && out.value == ListingOf(more)
      else
        && |more| < MAX_PAGES && (more != [] ==> NextToken(more) != "")
        && (out.TimedOut? <==> server(|more|, NextToken(more)).TimedOut?)
        && (out.Broken? ==> server(|more|, NextToken(more)) == Broken(out.reason))
    decreases MAX_PAGES - |pages|
  {
    more := pages;
    if |pages| < MAX_PAGES {
      var reply := server(|pages|, NextToken(pages));
      if reply.Answered? {
        more := pages + [reply.value];
        assert more[..|pages|] == pages;
        if reply.value.next != "" {
          more := FollowOn(server, more);
        }
      }
    }
  }

  /**
   Every advisory of every page received, in order; truncation is reported exactly when the fifth page
   still carried a token. An error is the reply that stopped the walk.
   */
  lemma FollowGathersItsPages<V>(server: TokenServer<V>) returns (pages: seq<TokenPage<V>>)
    ensures Followed(server, pages)
    ensures var out := Follow(server, 0, "", []);
      if out.Answered? then Ended(pages) && out.value == ListingOf(pages)
      else
        && |pages| < MAX_PAGES && (pages != [] ==> NextToken(pages) != "")
        && (out.TimedOut? <==> server(|pages|, NextToken(pages)).TimedOut?)
        && (out.Broken? ==> server(|pages|, NextToken(pages)) == Broken(out.reason))
  {
    pages := FollowOn(server, []);
  }

  /** A server that holds `list`, page by page, under tokens of its own making. */
  ghost predicate Serves<V>(server: TokenServer<V>, list: seq<seq<V>>, token: nat -> string) {
    && list != [] && token(0) == "" && (forall i: nat :: i > 0 ==> token(i) != "")
    && forall k: nat, i: nat :: i < |list| ==>
         server(k, token(i)) == Answered(TokenPage(list[i], if i + 1 < |list| then token(i + 1) else ""))
  }

  lemma {:induction false} FollowedServes<V>(
    server: TokenServer<V>, list: seq<seq<V>>, token: nat -> string, pages: seq<TokenPage<V>>)
    requires Serves(server, list, token) && Followed(server, pages)
    ensures |pages| <= |list|
    ensures Gathered(pages) == Concat(list[..|pages|])
    ensures NextToken(pages) == if |pages| < |list| then token(|pages|) else ""
  {
    if pages != [] {
      var before := pages[..|pages| - 1];
      FollowedServes(server, list, token, before);
      var n := |before|;
      assert n < |list| && server(n, token(n)) == Answered(pages[n]);
      assert list[..n + 1][..n] == list[..n];
    }
  }

  /** Against such a server the walk returns its first five pages, and says so when there are more. */
  lemma HonestPages<V>(server: TokenServer<V>, list: seq<seq<V>>, token: nat -> string)
    requires Serves(server, list, token)
    ensures Follow(server, 0, "", []) == Answered(Listing(Concat(Take(list, 5)), |list| > 5))
  {
    var pages := FollowGathersItsPages(server);
    FollowedServes(server, list, token, pages);
    hide Followed, Gathered, Follow;
    assert list[..|list|] == list;
  }

  // --- One advisory ---------------------------------------------------------------------------

  datatype Score = Score(kind: string, vector: string)

  /** An advisory as OSV sends it. */
  datatype Entry = Entry(
    id: string, summary: string, published: string, modified: string, aliases: seq<string>,
    scores: seq<Score>, severity: string)

  function CveAlias(alias: string): Option<string> {
    if "CVE-" <= alias then Some(alias) else None
  }

  function ScoreOfKind(scores: seq<Score>, kind: string): Option<Score> {
    if scores == [] then None
    else if scores[0].kind == kind then Some(scores[0])
    else ScoreOfKind(scores[1..], kind)
  }

  /** The first CVSS 4 score, else the first CVSS 3 score, else an empty one. */
  function BestScore(scores: seq<Score>): Score {
    match ScoreOfKind(scores, "CVSS_V4")
    case Some(score) => score
    case None =>
      match ScoreOfKind(scores, "CVSS_V3")
      case Some(score) => score
      case None => Score("", "")
  }

  function AdvisoryOf(package: Package): Entry -> Advisory {
    (e: Entry) =>
      var score := BestScore(e.scores);
      Advisory(e.id, package, e.summary, e.published, e.modified, e.aliases, FilterMap(e.aliases, CveAlias),
               e.severity, score.kind, score.vector, "https://osv.dev/vulnerability/" + e.id)
  }

  function AdvisoriesOf(entries: seq<Entry>, package: Package): seq<Advisory> {
    seq(|entries|, i requires 0 <= i < |entries| => AdvisoryOf(package)(entries[i]))
  }

  /** The pages of one package, parsed; a page with an advisory that has no id is an error. */
  function Parsing(server: TokenServer<Entry>, package: Package): TokenServer<Advisory> {
    (k: nat, token: string) =>
      match server(k, token)
      case TimedOut => TimedOut
      case Broken(reason) => Broken(reason)
      case Answered(page) =>
        if exists e <- page.vulns :: Blank(e.id)
        then Broken("OSV lookup for " + package.Text() + ": an entry has no id")
        else Answered(TokenPage(AdvisoriesOf(page.vulns, package), page.next))
  }

  // --- The section ----------------------------------------------------------------------------

  /** What OSV replies about the package at each position of the list. */
  type Upstream = (nat, Package) -> TokenServer<Entry>

  function AdvisoryId(a: Advisory): string { a.id }

  datatype Band = Critical | High | Moderate | Low | Unrated

  /** The database's own rating; OSV writes MODERATE, some databases MEDIUM. */
  function BandOf(a: Advisory): Band {
    if EqualFold(a.severity, "CRITICAL") then Critical
    else if EqualFold(a.severity, "HIGH") then High
    else if EqualFold(a.severity, "MODERATE") || EqualFold(a.severity, "MEDIUM") then Moderate
    else if EqualFold(a.severity, "LOW") then Low
    else Unrated
  }

  function BandRank(band: Band): nat {
    match band case Critical => 0 case High => 1 case Moderate => 2 case Low => 3 case Unrated => 5
  }

  /** Worse band first; within a band by id. */
  predicate AdvisoryLeq(a: Advisory, b: Advisory) {
    BandRank(BandOf(a)) < BandRank(BandOf(b)) ||
    (BandRank(BandOf(a)) == BandRank(BandOf(b)) && StringLeq(a.id, b.id))
  }

  function Counts(vulns: seq<Advisory>): OsvCounts {
    OsvCounts(Count(vulns, BandOf, Critical), Count(vulns, BandOf, High), Count(vulns, BandOf, Moderate),
              Count(vulns, BandOf, Low), Count(vulns, BandOf, Unrated))
  }

  /** The packages queried so far: their outcomes and every advisory that arrived, or the error that ended it. */
  datatype Gathering = Gathering(queries: seq<OsvQuery>, arrived: seq<Advisory>)

  function Gather(u: Upstream, packages: seq<Package>, n: nat): Reply<Gathering>
    requires n <= |packages|
  {
    if n == 0 then Answered(Gathering([], [])) else
    match Gather(u, packages, n - 1)
    case TimedOut => TimedOut
    case Broken(reason) => Broken(reason)
    case Answered(g) =>
      var package := packages[n - 1];
      match Follow(Parsing(u(n - 1, package), package), 0, "", [])
      case TimedOut => TimedOut
      case Broken(reason) => Broken(reason)
      case Answered(listing) =>
        Answered(Gathering(g.queries + [OsvQuery(package, |listing.vulns|, listing.truncated)],
                           g.arrived + listing.vulns))
  }

  function PackageCalls(package: Package, tokens: seq<string>): seq<Call> {
    seq(|tokens|, i requires 0 <= i < |tokens| => AdvisoryPage(package, tokens[i]))
  }

  function GatherCalls(u: Upstream, packages: seq<Package>, n: nat): seq<Call>
    requires n <= |packages|
  {
    if n == 0 then [] else
    var before := GatherCalls(u, packages, n - 1);
    if !Gather(u, packages, n - 1).Answered? then before else
    before + PackageCalls(packages[n - 1], FollowTokens(Parsing(u(n - 1, packages[n - 1]), packages[n - 1]), 0, ""))
  }

  function Citations(vulns: seq<Advisory>): seq<Citation> {
    seq(|vulns|, i requires 0 <= i < |vulns| => Citation(vulns[i].id, vulns[i].url))
  }

  function Concluded(queries: seq<OsvQuery>, found: seq<Advisory>): Section {
    var vulns := StableSort(found, AdvisoryLeq);
    OkSection(Fingerprint.OSV, OsvData(OsvResult(queries, |vulns|, Counts(vulns), vulns)), Citations(vulns))
  }

  /** OSV's Fetch: a function of the entity and the replies. */
  function OsvFetch(u: Upstream, ent: Entity): Fetched {
    if ent.packages == [] then
      Fetched([], SkippedSection(Fingerprint.OSV, "no open-source packages resolved for this vendor"))
    else
      Fetched(
        GatherCalls(u, ent.packages, |ent.packages|),
        match Gather(u, ent.packages, |ent.packages|)
        case Answered(g) => Concluded(g.queries, FirstByKey(g.arrived, AdvisoryId))
        case error => FailedSection(Fingerprint.OSV, Reason(error)))
  }

  lemma {:induction false} GatherStopped(u: Upstream, packages: seq<Package>, i: nat, n: nat)
    requires i <= n <= |packages| && !Gather(u, packages, i).Answered?
    ensures Gather(u, packages, n) == Gather(u, packages, i)
    ensures GatherCalls(u, packages, n) == GatherCalls(u, packages, i)
    decreases n
  {
    hide Follow, FollowTokens, Parsing;
    if i < n {
      GatherStopped(u, packages, i, n - 1);
    }
  }

  method GatherAll(u: Upstream, packages: seq<Package>)
    returns (queries: seq<OsvQuery>, found: seq<Advisory>, failure: Option<string>, calls: seq<Call>)
    ensures calls == GatherCalls(u, packages, |packages|)
    ensures match Gather(u, packages, |packages|)
            case Answered(g) => failure == None && queries == g.queries && found == FirstByKey(g.arrived, AdvisoryId)
            case error => failure == Some(Reason(error))
  {
    hide Follow, FollowTokens, Parsing;
    queries, found, failure, calls := [], [], None, [];
    for i := 0 to |packages|
      invariant calls == GatherCalls(u, packages, i)
      invariant failure == None && Gather(u, packages, i).Answered?
      invariant queries == Gather(u, packages, i).value.queries
      invariant found == FirstByKey(Gather(u, packages, i).value.arrived, AdvisoryId)
    {
      var listing, tokens := QueryPackage(Parsing(u(i, packages[i]), packages[i]));
      calls := calls + PackageCalls(packages[i], tokens);
      match listing {
        case Answered(l) =>
          found := AddUnseen(Gather(u, packages, i).value.arrived, found, l.vulns);
          queries := queries + [OsvQuery(packages[i], |l.vulns|, l.truncated)];
        case error =>
          GatherStopped(u, packages, i + 1, |packages|);
          return queries, found, Some(Reason(error)), calls;
      }
    }
  }

  /** An advisory already kept, for this package or an earlier one, is counted once. */
  method AddUnseen(ghost arrived: seq<Advisory>, kept: seq<Advisory>, vulns: seq<Advisory>)
    returns (found: seq<Advisory>)
    requires kept == FirstByKey(arrived, AdvisoryId)
    ensures found == FirstByKey(arrived + vulns, AdvisoryId)
  {
    hide FirstByKey;
    found := kept;
    assert arrived + vulns[..0] == arrived;
    for i := 0 to |vulns|
      invariant found == FirstByKey(arrived + vulns[..i], AdvisoryId)
    {
      FirstByKeyOneMore(arrived, vulns, i, AdvisoryId);
      if !HasKey(found, AdvisoryId, vulns[i].id) {
        found := found + [vulns[i]];
      }
    }
    assert vulns[..|vulns|] == vulns;
  }

  method Fetch(u: Upstream, ent: Entity) returns (section: Section, calls: seq<Call>)
    ensures Fetched(calls, section) == OsvFetch(u, ent)
  {
    hide Gather, GatherCalls, Counts, AdvisoryLeq;
    if |ent.packages| == 0 {
      return SkippedSection(Fingerprint.OSV, "no open-source packages resolved for this vendor"), [];
    }
    var queries, found, failure;
    queries, found, failure, calls := GatherAll(u, ent.packages);
    if failure.Some? {
      return FailedSection(Fingerprint.OSV, failure.value), calls;
    }
    var vulns := StableSort(found, AdvisoryLeq);
    var severity := CountBands(vulns);
    section := OkSection(Fingerprint.OSV, OsvData(OsvResult(queries, |vulns|, severity, vulns)), Citations(vulns));
  }

  method CountBands(vulns: seq<Advisory>) returns (counts: OsvCounts)
    ensures counts == Counts(vulns)
  {
    hide BandOf;
    counts := OsvCounts(0, 0, 0, 0, 0);
    for i := 0 to |vulns|
      invariant counts == Counts(vulns[..i])
    {
      assert vulns[..i + 1][..i] == vulns[..i];
      match BandOf(vulns[i]) {
        case Critical => counts := counts.(critical := counts.critical + 1);
        case High => counts := counts.(high := counts.high + 1);
        case Moderate => counts := counts.(moderate := counts.moderate + 1);
        case Low => counts := counts.(low := counts.low + 1);
        case Unrated => counts := counts.(unrated := counts.unrated + 1);
      }
    }
    assert vulns[..|vulns|] == vulns;
  }

  lemma AdvisoryOrdering()
    ensures Ordering(AdvisoryLeq)
  {
    hide BandOf;
    forall a, b ensures AdvisoryLeq(a, b) || AdvisoryLeq(b, a) {
      StringLeqTotal(a.id, b.id);
    }
    forall a, b, c | AdvisoryLeq(a, b) && AdvisoryLeq(b, c) ensures AdvisoryLeq(a, c) {
      if StringLeq(a.id, b.id) && StringLeq(b.id, c.id) {
        StringLeqTransitive(a.id, b.id, c.id);
      }
    }
  }

  lemma {:induction false} CountsSum(vulns: seq<Advisory>)
    ensures var c := Counts(vulns); c.critical + c.high + c.moderate + c.low + c.unrated == |vulns|
  {
    hide BandOf;
    if vulns != [] {
      CountsSum(vulns[..|vulns| - 1]);
      var b := BandOf(vulns[|vulns| - 1]);
      assert b == Critical || b == High || b == Moderate || b == Low || b == Unrated;
    }
  }

  /** An advisory that arrived was asked for, and says for which package. */
  lemma {:induction false} ArrivedForItsPackage(u: Upstream, packages: seq<Package>, n: nat, a: Advisory)
    requires n <= |packages| && Gather(u, packages, n).Answered? && a in Gather(u, packages, n).value.arrived
    ensures a.package in packages[..n] && !Blank(a.id)
  {
    if n > 0 {
      var before := Gather(u, packages, n - 1).value.arrived;
      var server := Parsing(u(n - 1, packages[n - 1]), packages[n - 1]);
      if a in before {
        ArrivedForItsPackage(u, packages, n - 1, a);
        assert packages[..n - 1] <= packages[..n];
      } else {
        var pages := FollowGathersItsPages(server);
        GatheredForPackage(u(n - 1, packages[n - 1]), packages[n - 1], pages, a);
        assert packages[..n][n - 1] == packages[n - 1];
      }
    }
  }

  lemma {:induction false} GatheredForPackage(
    server: TokenServer<Entry>, package: Package, pages: seq<TokenPage<Advisory>>, a: Advisory)
    requires Followed(Parsing(server, package), pages) && a in Gathered(pages)
    ensures a.package == package && !Blank(a.id)
  {
    var before, last := pages[..|pages| - 1], pages[|pages| - 1];
    if a in Gathered(before) {
      GatheredForPackage(server, package, before, a);
    } else {
      var reply := server(|before|, NextToken(before));
      assert last.vulns == AdvisoriesOf(reply.value.vulns, package);
      var i :| 0 <= i < |last.vulns| && last.vulns[i] == a;
      assert a == AdvisoryOf(package)(reply.value.vulns[i]);
    }
  }

  /** How bad a rating is, as the databases spell it; worse comes first. */
  ghost function Level(severity: string): nat {
    if EqualFold(severity, "CRITICAL") then 0
    else if EqualFold(severity, "HIGH") then 1
    else if EqualFold(severity, "MODERATE") || EqualFold(severity, "MEDIUM") then 2
    else if EqualFold(severity, "LOW") then 3
    else 4
  }

  ghost function AtLevel(vulns: seq<Advisory>, level: nat): set<int> {
    set i | 0 <= i < |vulns| && Level(vulns[i].severity) == level
  }

  /** Every counter holds the number of advisories of its rating. */
  ghost predicate CountsOf(c: OsvCounts, vulns: seq<Advisory>) {
    && c.critical == |AtLevel(vulns, 0)| && c.high == |AtLevel(vulns, 1)| && c.moderate == |AtLevel(vulns, 2)|
    && c.low == |AtLevel(vulns, 3)| && c.unrated == |AtLevel(vulns, 4)|
    && c.critical + c.high + c.moderate + c.low + c.unrated == |vulns|
  }

  lemma BandLevel(a: Advisory)
    ensures BandOf(a) == Critical <==> Level(a.severity) == 0
    ensures BandOf(a) == High <==> Level(a.severity) == 1
    ensures BandOf(a) == Moderate <==> Level(a.severity) == 2
    ensures BandOf(a) == Low <==> Level(a.severity) == 3
    ensures BandOf(a) == Unrated <==> Level(a.severity) == 4
  {
    hide EqualFold;
  }

  lemma CountsExact(vulns: seq<Advisory>)
    ensures CountsOf(Counts(vulns), vulns)
  {
    CountsSum(vulns);
    forall a { BandLevel(a); }
    hide BandOf, Level;
    CountExact(vulns, BandOf, Critical);
    CountExact(vulns, BandOf, High);
    CountExact(vulns, BandOf, Moderate);
    CountExact(vulns, BandOf, Low);
    CountExact(vulns, BandOf, Unrated);
    assert PositionsOf(vulns, BandOf, Critical) == AtLevel(vulns, 0);
    assert PositionsOf(vulns, BandOf, High) == AtLevel(vulns, 1);
    assert PositionsOf(vulns, BandOf, Moderate) == AtLevel(vulns, 2);
    assert PositionsOf(vulns, BandOf, Low) == AtLevel(vulns, 3);
    assert PositionsOf(vulns, BandOf, Unrated) == AtLevel(vulns, 4);
  }

  /** Worse ratings first; within one by id, in the order of a dictionary. */
  ghost predicate WorstFirst(vulns: seq<Advisory>) {
    forall i, j :: 0 <= i < j < |vulns| ==>
      var a, b := Level(vulns[i].severity), Level(vulns[j].severity);
      a < b || (a == b && Precedes(vulns[i].id, vulns[j].id))
  }

  lemma SortedWorstFirst(vulns: seq<Advisory>)
    requires Sorted(vulns, AdvisoryLeq) && DistinctKeys(vulns, AdvisoryId)
    ensures WorstFirst(vulns)
  {
    hide StringLeq, Precedes, BandOf, Level;
    forall i, j | 0 <= i < j < |vulns| ensures
      var a, b := Level(vulns[i].severity), Level(vulns[j].severity);
      a < b || (a == b && Precedes(vulns[i].id, vulns[j].id))
    {
      assert AdvisoryLeq(vulns[i], vulns[j]) && AdvisoryId(vulns[i]) != AdvisoryId(vulns[j]);
      BandLevel(vulns[i]);
      BandLevel(vulns[j]);
      StringLeqExact(vulns[i].id, vulns[j].id);
    }
  }

  /** The result of these outcomes and these arrivals: each advisory once, as it first came, in order and counted. */
  ghost predicate SoundResult(r: OsvResult, arrived: seq<Advisory>) {
    && DistinctKeys(r.vulns, AdvisoryId) && WorstFirst(r.vulns)
    && (forall id :: HasKey(r.vulns, AdvisoryId, id) <==> HasKey(arrived, AdvisoryId, id))
    && (forall a <- r.vulns :: exists j :: FirstAt(arrived, AdvisoryId, j) && arrived[j] == a)
    && r.totalVulns == |r.vulns| && CountsOf(r.severity, r.vulns)
  }

  lemma SortedSound(arrived: seq<Advisory>)
    ensures var vulns := StableSort(FirstByKey(arrived, AdvisoryId), AdvisoryLeq);
      && DistinctKeys(vulns, AdvisoryId) && WorstFirst(vulns)
      && (forall id :: HasKey(vulns, AdvisoryId, id) <==> HasKey(arrived, AdvisoryId, id))
      && (forall a <- vulns :: exists j :: FirstAt(arrived, AdvisoryId, j) && arrived[j] == a)
      && CountsOf(Counts(vulns), vulns)
  {
    var found := FirstByKey(arrived, AdvisoryId);
    var vulns := StableSort(found, AdvisoryLeq);
    FirstByKeyKeys(arrived, AdvisoryId);
    AdvisoryOrdering();
    SortKeepsKeys(found, AdvisoryLeq, AdvisoryId);
    SortedWorstFirst(vulns);
    CountsExact(vulns);
    hide *;
    forall a <- vulns ensures exists j :: FirstAt(arrived, AdvisoryId, j) && arrived[j] == a {
      assert a in multiset(vulns) && a in multiset(found);
      FirstByKeyFirst(arrived, AdvisoryId, a);
    }
  }

  lemma ConcludedSound(queries: seq<OsvQuery>, arrived: seq<Advisory>)
    ensures var section := Concluded(queries, FirstByKey(arrived, AdvisoryId));
      && section.source == Fingerprint.OSV && section.status == OK && section.data.OsvData?
      && section.data.osv.queries == queries && SoundResult(section.data.osv, arrived)
      && |section.citations| == |section.data.osv.vulns|
      && forall i :: 0 <= i < |section.citations| ==>
           section.citations[i] == Citation(section.data.osv.vulns[i].id, section.data.osv.vulns[i].url)
  {
    SortedSound(arrived);
    hide Counts, CountsOf, AdvisoryLeq, StableSort, FirstByKey, WorstFirst;
  }

  /** The i-th package's pages, followed and parsed. */
  function ListingAt(u: Upstream, packages: seq<Package>, i: nat): Reply<Listing<Advisory>>
    requires i < |packages|
  {
    Follow(Parsing(u(i, packages[i]), packages[i]), 0, "", [])
  }

  /** Everything the first `n` packages' listings hold, in order. */
  ghost function AllListed(u: Upstream, packages: seq<Package>, n: nat): seq<Advisory>
    requires n <= |packages| && forall i: nat :: i < n ==> ListingAt(u, packages, i).Answered?
  {
    if n == 0 then [] else AllListed(u, packages, n - 1) + ListingAt(u, packages, n - 1).value.vulns
  }

  /** Gathering succeeds exactly when every package's walk does, and then holds one outcome for each. */
  lemma {:induction false} GatherExact(u: Upstream, packages: seq<Package>, n: nat)
    requires n <= |packages|
    ensures Gather(u, packages, n).Answered? <==> forall i: nat :: i < n ==> ListingAt(u, packages, i).Answered?
    ensures Gather(u, packages, n).Answered? ==>
      var g := Gather(u, packages, n).value;
      && g.arrived == AllListed(u, packages, n)
      && |g.queries| == n
      && forall i: nat :: i < n ==>
           var l := ListingAt(u, packages, i).value;
           g.queries[i] == OsvQuery(packages[i], |l.vulns|, l.truncated)
  {
    hide Follow, Parsing;
    if n > 0 {
      GatherExact(u, packages, n - 1);
      assert ListingAt(u, packages, n - 1) ==
        Follow(Parsing(u(n - 1, packages[n - 1]), packages[n - 1]), 0, "", []);
      if Gather(u, packages, n).Answered? {
        var before, g := Gather(u, packages, n - 1).value, Gather(u, packages, n).value;
        forall i: nat | i < n
          ensures var l := ListingAt(u, packages, i).value;
                  g.queries[i] == OsvQuery(packages[i], |l.vulns|, l.truncated)
        {
          assert i < n - 1 ==> g.queries[i] == before.queries[i];
        }
      }
    }
  }

  /**
   The section is skipped without packages, is OK exactly when every package's walk was answered, and then holds
   one outcome per package - how many advisories were listed, and whether more were left - and each advisory
   once, as the first package to surface it did, worst first and counted.
   */
  lemma SectionSound(u: Upstream, ent: Entity)
    ensures var section, n := OsvFetch(u, ent).section, |ent.packages|;
      && (section.status == Skipped <==> n == 0)
      && (section.status == OK <==> n > 0 && forall i: nat :: i < n ==> ListingAt(u, ent.packages, i).Answered?)
      && (section.status == OK ==>
            && section.data.OsvData? && section.source == Fingerprint.OSV
            && var r := section.data.osv;
            && |r.queries| == n
            && (forall i: nat :: i < n ==>
                  var l := ListingAt(u, ent.packages, i).value;
                  r.queries[i] == OsvQuery(ent.packages[i], |l.vulns|, l.truncated))
            && SoundResult(r, AllListed(u, ent.packages, n))
            && |section.citations| == |r.vulns|
            && forall i :: 0 <= i < |r.vulns| ==> section.citations[i] == Citation(r.vulns[i].id, r.vulns[i].url))
  {
    var n := |ent.packages|;
    GatherExact(u, ent.packages, n);
    if Gather(u, ent.packages, n).Answered? {
      var g := Gather(u, ent.packages, n).value;
      ConcludedSound(g.queries, g.arrived);
    }
    hide Concluded, Gather, GatherCalls, ListingAt, AllListed, SoundResult;
  }

  /** Every advisory of an OK section has an id, and names a package that was asked about. */
  lemma SectionNamed(u: Upstream, ent: Entity, a: Advisory)
    requires OsvFetch(u, ent).section.status == OK && OsvFetch(u, ent).section.data.OsvData?
    requires a in OsvFetch(u, ent).section.data.osv.vulns
    ensures !Blank(a.id) && a.package in ent.packages
  {
    var n := |ent.packages|;
    SectionSound(u, ent);
    GatherExact(u, ent.packages, n);
    var arrived := AllListed(u, ent.packages, n);
    var j :| FirstAt(arrived, AdvisoryId, j) && arrived[j] == a;
    assert a in arrived;
    hide *;
    ArrivedForItsPackage(u, ent.packages, n, a);
    assert ent.packages[..n] == ent.packages;
  }

  lemma {:induction false} GatherCallsExact(u: Upstream, packages: seq<Package>, n: nat) returns (k: nat)
    requires n <= |packages|
    ensures k <= n && (forall i: nat :: i + 1 < k ==> ListingAt(u, packages, i).Answered?)
    ensures k == n || (k > 0 && !ListingAt(u, packages, k - 1).Answered?)
    ensures GatherCalls(u, packages, n) == Concat(FirstCalls(u, packages, k))
  {
    hide Follow, FollowTokens, Parsing, CallsAt, PackageCalls;
    if n == 0 {
      k := 0;
    } else {
      k := GatherCallsExact(u, packages, n - 1);
      GatherExact(u, packages, n - 1);
      if Gather(u, packages, n - 1).Answered? {
        assert k == n - 1;
        assert FirstCalls(u, packages, n)[..n - 1] == FirstCalls(u, packages, n - 1);
        CallsAtIs(u, packages, n - 1);
        k := n;
        GatherExact(u, packages, n);
      } else if k == n - 1 {
        GatherStopped(u, packages, n - 1, n);
        FailedLast(u, packages, n - 1, k);
      }
    }
  }

  /** The calls of a fetch are those of each package's walk, in order, up to and including the first that failed. */
  lemma FetchCallsExact(u: Upstream, ent: Entity) returns (k: nat)
    ensures var packages := ent.packages;
      && k <= |packages| && (forall i: nat :: i + 1 < k ==> ListingAt(u, packages, i).Answered?)
      && (k == |packages| || (k > 0 && !ListingAt(u, packages, k - 1).Answered?))
      && OsvFetch(u, ent).calls == Concat(FirstCalls(u, packages, k))
  {
    hide GatherCalls, Gather, ListingAt, CallsAt, Concluded;
    k := GatherCallsExact(u, ent.packages, |ent.packages|);
    assert FirstCalls(u, ent.packages, 0) == [];
  }

  function CallsAt(u: Upstream, packages: seq<Package>, i: nat): seq<Call>
    requires i < |packages|
  {
    PackageCalls(packages[i], FollowTokens(Parsing(u(i, packages[i]), packages[i]), 0, ""))
  }

  /** The calls of each of the first `k` packages' walks. */
  function FirstCalls(u: Upstream, packages: seq<Package>, k: nat): seq<seq<Call>>
    requires k <= |packages|
  {
    seq(k, i requires 0 <= i < k => CallsAt(u, packages, i))
  }

  lemma CallsAtIs(u: Upstream, packages: seq<Package>, i: nat)
    requires i < |packages|
    ensures CallsAt(u, packages, i) ==
            PackageCalls(packages[i], FollowTokens(Parsing(u(i, packages[i]), packages[i]), 0, ""))
  {}

  lemma FailedLast(u: Upstream, packages: seq<Package>, n: nat, k: nat)
    requires n <= |packages| && !Gather(u, packages, n).Answered? && k == n
    requires forall i: nat :: i + 1 < k ==> ListingAt(u, packages, i).Answered?
    ensures k > 0 && !ListingAt(u, packages, k - 1).Answered?
  {
    GatherExact(u, packages, n);
  }
}
