/** What OSV's section says, end to end, when the service hands out each package's pages in turn. */
module OsvAnswer {
  import opened Text
  import opened Sequences
  import opened Domain
  import opened Service
  import opened Osv

  /** The service holds these pages for the i-th package, and every entry on them has an id. */
  ghost predicate HonestFor(
    u: Upstream, packages: seq<Package>, pages: nat -> seq<seq<Entry>>, token: nat -> string, i: nat)
    requires i < |packages|
  {
    && Serves(u(i, packages[i]), pages(i), token)
    && forall page <- pages(i) :: forall e <- page :: !Blank(e.id)
  }

  function Advisories(pages: seq<seq<Entry>>, package: Package): seq<seq<Advisory>> {
    seq(|pages|, k requires 0 <= k < |pages| => AdvisoriesOf(pages[k], package))
  }

  lemma ParsedServes(
    server: TokenServer<Entry>, package: Package, pages: seq<seq<Entry>>, token: nat -> string)
    requires Serves(server, pages, token) && forall page <- pages :: forall e <- page :: !Blank(e.id)
    ensures Serves(Parsing(server, package), Advisories(pages, package), token)
  {
    forall k: nat, i: nat | i < |pages|
      ensures Parsing(server, package)(k, token(i)) ==
              Answered(TokenPage(Advisories(pages, package)[i], if i + 1 < |pages| then token(i + 1) else ""))
    {
      assert pages[i] in pages;
    }
  }

  /** One of the first five pages lists it. */
  ghost predicate OnPages(pages: seq<seq<Entry>>, id: string) {
    exists k: nat, e :: k < 5 && k < |pages| && e in pages[k] && e.id == id
  }

  /** Some package's pages list it. */
  ghost predicate Known(n: nat, pages: nat -> seq<seq<Entry>>, id: string) {
    exists i: nat :: i < n && OnPages(pages(i), id)
  }

  lemma {:induction false} ConcatMembers<T>(parts: seq<seq<T>>, x: T)
    ensures x in Concat(parts) <==> exists k: nat :: k < |parts| && x in parts[k]
  {
    if parts != [] {
      ConcatMembers(parts[..|parts| - 1], x);
    }
  }

  lemma ListedIds(pages: seq<seq<Entry>>, package: Package, id: string)
    ensures HasKey(Concat(Take(Advisories(pages, package), 5)), AdvisoryId, id) <==>
            OnPages(pages, id)
  {
    var parts := Take(Advisories(pages, package), 5);
    if HasKey(Concat(parts), AdvisoryId, id) {
      var j :| 0 <= j < |Concat(parts)| && AdvisoryId(Concat(parts)[j]) == id;
      ConcatMembers(parts, Concat(parts)[j]);
      var k: nat :| k < |parts| && Concat(parts)[j] in parts[k];
      var m :| 0 <= m < |parts[k]| && parts[k][m] == Concat(parts)[j];
      assert parts[k][m] == AdvisoryOf(package)(pages[k][m]);
      assert pages[k][m] in pages[k];
    }
    if k: nat, e :| k < 5 && k < |pages| && e in pages[k] && e.id == id {
      var m :| 0 <= m < |pages[k]| && pages[k][m] == e;
      var a := AdvisoryOf(package)(e);
      assert parts[k][m] == a && a in parts[k];
      ConcatMembers(parts, a);
      var j :| 0 <= j < |Concat(parts)| && Concat(parts)[j] == a;
      assert AdvisoryId(Concat(parts)[j]) == id;
    }
  }

  lemma HasKeyAppend(a: seq<Advisory>, b: seq<Advisory>, id: string)
    ensures HasKey(a + b, AdvisoryId, id) <==> HasKey(a, AdvisoryId, id) || HasKey(b, AdvisoryId, id)
  {
    if HasKey(a, AdvisoryId, id) {
      var i :| 0 <= i < |a| && AdvisoryId(a[i]) == id;
      assert AdvisoryId((a + b)[i]) == id;
    }
    if HasKey(b, AdvisoryId, id) {
      var i :| 0 <= i < |b| && AdvisoryId(b[i]) == id;
      assert AdvisoryId((a + b)[|a| + i]) == id;
    }
  }

  /** One package's outcome: the first five pages, and whether there were more. */
  lemma HonestListing(
    u: Upstream, packages: seq<Package>, pages: nat -> seq<seq<Entry>>, token: nat -> string, i: nat)
    requires i < |packages| && HonestFor(u, packages, pages, token, i)
    ensures ListingAt(u, packages, i) ==
            Answered(Listing(Concat(Take(Advisories(pages(i), packages[i]), 5)), |pages(i)| > 5))
  {
    ParsedServes(u(i, packages[i]), packages[i], pages(i), token);
    HonestPages(Parsing(u(i, packages[i]), packages[i]), Advisories(pages(i), packages[i]), token);
    hide Follow, Parsing, Serves;
  }

  lemma ListingIds(
    u: Upstream, packages: seq<Package>, pages: nat -> seq<seq<Entry>>, token: nat -> string, i: nat, id: string)
    requires i < |packages| && HonestFor(u, packages, pages, token, i)
    ensures ListingAt(u, packages, i).Answered?
    ensures HasKey(ListingAt(u, packages, i).value.vulns, AdvisoryId, id) <==> OnPages(pages(i), id)
  {
    HonestListing(u, packages, pages, token, i);
    ListedIds(pages(i), packages[i], id);
    hide *;
  }

  lemma KnownOneMore(n: nat, pages: nat -> seq<seq<Entry>>, id: string)
    requires n > 0
    ensures Known(n, pages, id) <==> Known(n - 1, pages, id) || OnPages(pages(n - 1), id)
  {
    hide OnPages;
  }

  lemma {:induction false} ListedIsKnown(
    u: Upstream, packages: seq<Package>, pages: nat -> seq<seq<Entry>>, token: nat -> string, n: nat, id: string)
    requires n <= |packages| && forall i: nat :: i < |packages| ==> HonestFor(u, packages, pages, token, i)
    requires forall i: nat :: i < n ==> ListingAt(u, packages, i).Answered?
    ensures HasKey(AllListed(u, packages, n), AdvisoryId, id) <==> Known(n, pages, id)
  {
    if n == 0 {
      hide OnPages, HonestFor, ListingAt;
    } else {
      hide ListingAt, HonestFor, OnPages, Known, HasKey, AdvisoryId;
      ListingIds(u, packages, pages, token, n - 1, id);
      KnownOneMore(n, pages, id);
      ListedIsKnown(u, packages, pages, token, n - 1, id);
      var before, last := AllListed(u, packages, n - 1), ListingAt(u, packages, n - 1).value.vulns;
      HasKeyAppend(before, last, id);
      assert AllListed(u, packages, n) == before + last;
    }
  }

  /**
   Against such a service the section is OK; each package's outcome counts the advisories of its first five
   pages and says whether there were more; and the section's ids are exactly those on these pages.
   */
  lemma HonestSection(u: Upstream, ent: Entity, pages: nat -> seq<seq<Entry>>, token: nat -> string)
    requires ent.packages != []
    requires forall i: nat :: i < |ent.packages| ==> HonestFor(u, ent.packages, pages, token, i)
    ensures var section, n := OsvFetch(u, ent).section, |ent.packages|;
      && section.status == OK && section.data.OsvData?
      && var r := section.data.osv;
      && |r.queries| == n
      && (forall i: nat :: i < n ==>
            r.queries[i] == OsvQuery(
              ent.packages[i], |Concat(Take(Advisories(pages(i), ent.packages[i]), 5))|,
              |pages(i)| > 5))
      && (forall id :: HasKey(r.vulns, AdvisoryId, id) <==> Known(n, pages, id))
      && WorstFirst(r.vulns) && CountsOf(r.severity, r.vulns) && r.totalVulns == |r.vulns|
  {
    var n := |ent.packages|;
    SectionSound(u, ent);
    forall i: nat | i < n
      ensures ListingAt(u, ent.packages, i) == Answered(Listing(
        Concat(Take(Advisories(pages(i), ent.packages[i]), 5)), |pages(i)| > 5))
    {
      HonestListing(u, ent.packages, pages, token, i);
    }
    hide OsvFetch, HonestFor, ListingAt, Advisories, WorstFirst, CountsOf, AllListed, HasKey, Known;
    forall id ensures
      HasKey(AllListed(u, ent.packages, n), AdvisoryId, id) <==> Known(n, pages, id)
    {
      ListedIsKnown(u, ent.packages, pages, token, n, id);
    }
  }

  /** The i-th score is the first of its kind. */
  ghost predicate FirstOfKind(scores: seq<Score>, kind: string, i: int) {
    0 <= i < |scores| && scores[i].kind == kind && forall j :: 0 <= j < i ==> scores[j].kind != kind
  }

  lemma {:induction false} ScoreOfKindExact(scores: seq<Score>, kind: string)
    ensures match ScoreOfKind(scores, kind)
            case None => forall s <- scores :: s.kind != kind
            case Some(s) => exists i :: FirstOfKind(scores, kind, i) && scores[i] == s
  {
    if scores != [] {
      assert scores == [scores[0]] + scores[1..];
      if scores[0].kind == kind {
        assert FirstOfKind(scores, kind, 0);
      } else {
        ScoreOfKindExact(scores[1..], kind);
        if ScoreOfKind(scores, kind).Some? {
          var i :| FirstOfKind(scores[1..], kind, i) && scores[1..][i] == ScoreOfKind(scores, kind).value;
          assert forall j :: 1 <= j < |scores| ==> scores[j] == scores[1..][j - 1];
          assert FirstOfKind(scores, kind, i + 1);
        }
      }
    }
  }

  /** What an entry becomes: its CVE aliases in order, and a vector of revision 4 before any of revision 3. */
  lemma AdvisoryExact(package: Package, e: Entry)
    ensures var a := AdvisoryOf(package)(e);
      && a.id == e.id && a.package == package && a.severity == e.severity && a.aliases == e.aliases
      && a.summary == e.summary && a.published == e.published && a.modified == e.modified
      && a.url == "https://osv.dev/vulnerability/" + e.id
      && (forall c :: c in a.cves <==> c in e.aliases && "CVE-" <= c)
      && (if exists s <- e.scores :: s.kind == "CVSS_V4"
          then exists i :: FirstOfKind(e.scores, "CVSS_V4", i) && Score(a.vectorType, a.vector) == e.scores[i]
          else if exists s <- e.scores :: s.kind == "CVSS_V3"
          then exists i :: FirstOfKind(e.scores, "CVSS_V3", i) && Score(a.vectorType, a.vector) == e.scores[i]
          else a.vectorType == "" && a.vector == "")
  {
    ScoreOfKindExact(e.scores, "CVSS_V4");
    ScoreOfKindExact(e.scores, "CVSS_V3");
    FilterMapMembers(e.aliases, CveAlias);
    var a := AdvisoryOf(package)(e);
    hide ScoreOfKind;
    forall c ensures c in a.cves <==> c in e.aliases && "CVE-" <= c {
      if c in e.aliases && "CVE-" <= c {
        var i :| 0 <= i < |e.aliases| && e.aliases[i] == c;
        assert CveAlias(e.aliases[i]) == Some(c);
      }
    }
  }
}
