/** What NVD's section says, end to end, when the service answers truthfully. */
module NvdAnswer {
  import opened Text
  import opened Sequences
  import opened Domain
  import opened Cpe
  import opened Service
  import opened Dictionary
  import opened Nvd

  /** The dictionary holds `held(p)` under a prefix: it claims that many rows and sends the first of them. */
  ghost predicate HonestDictionary(server: DictionaryServer, held: string -> seq<string>) {
    forall p :: HonestRows(server(p, ""), held(p))
  }

  ghost predicate HonestRows(reply: Reply<Rows>, held: seq<string>) {
    && reply.Answered?
    && reply.value.total == |held|
    && reply.value.names <= held
    && forall n <- held :: Readable(n)
  }

  /** Every match string's CVEs are served honestly, and so is the dictionary. */
  ghost predicate HonestService(s: Upstream, cves: string -> seq<Vuln>, held: string -> seq<string>) {
    && s.perCpe > 0
    && (forall cpe :: Honest(s.cves(cpe), cves(cpe)))
    && HonestDictionary(s.dictionary, held)
  }

  lemma HonestPage(server: DictionaryServer, held: string -> seq<string>, prefix: string)
    requires HonestDictionary(server, held)
    ensures var page := CataloguePage(server, prefix, "");
            page.Answered? && page.value.totalRows == |held(prefix)| && page.value.vendor == prefix
  {
    assert TrimSpace("") == "";
    assert HonestRows(server(prefix, ""), held(prefix));
    var names := server(prefix, "").value.names;
    assert forall n <- names :: n in held(prefix);
    assert Products(names).Some?;
  }

  lemma HonestListing(server: DictionaryServer, held: string -> seq<string>, cpe: string)
    requires HonestDictionary(server, held)
    ensures Listed(server, cpe) == Answered(held(cpe) != [])
    ensures KnownProducts(server, cpe).Answered?
  {
    HonestPage(server, held, cpe);
    HonestPage(server, held, VendorMatchString(cpe));
    hide CataloguePage, HonestDictionary;
  }

  /** What a truthful NVD makes of one match string. */
  function TrueVerification(cves: seq<Vuln>, held: seq<string>): Verification {
    if cves != [] then HasCves else if held != [] then InDictionary else Unverified
  }

  /** One match string is always answered: its CVEs up to the limit, or the dictionary's word. */
  lemma HonestVerdict(s: Upstream, cves: string -> seq<Vuln>, held: string -> seq<string>, cpe: string)
    requires HonestService(s, cves, held)
    ensures var reply := QueryCpe(s, cpe);
      && reply.Answered?
      && reply.value.query.cpe == cpe && reply.value.query.totalResults == |cves(cpe)|
      && reply.value.query.verification == TrueVerification(cves(cpe), held(cpe))
      && reply.value.vulns == Take(cves(cpe), s.perCpe)
  {
    assert Honest(s.cves(cpe), cves(cpe));
    HonestWalk(s.perCpe, s.cves(cpe), cves(cpe));
    HonestListing(s.dictionary, held, cpe);
    hide Walk, Listed, KnownProducts, HonestDictionary;
  }

  /** Only an invented product comes with suggestions, and they are the products of its vendor's page. */
  lemma SuggestionsExact(s: Upstream, cpe: string)
    requires QueryCpe(s, cpe).Answered?
    ensures var q, v := QueryCpe(s, cpe).value.query, VendorMatchString(cpe);
      && (q.verification != Unverified || v == "" ==> q.knownProducts == [])
      && (q.verification == Unverified && v != "" ==>
            && s.dictionary(v, "").Answered?
            && forall t :: t in q.knownProducts <==>
                 exists n :: n in s.dictionary(v, "").value.names && |Split(n, ':')| >= 5 && Split(n, ':')[4] == t)
  {
    var v := VendorMatchString(cpe);
    VendorProductsExact(s.dictionary, v, "");
    assert TrimSpace("") == "";
    hide Walk, Listed, VendorProducts, TrimSpace, VendorMatchString;
  }

  /** A CVE is known when some queried match string has it among the entries read. */
  ghost predicate Known(matches: seq<string>, asked: nat, cves: string -> seq<Vuln>, perCpe: nat, id: string)
    requires asked <= |matches|
  {
    exists i :: 0 <= i < asked && HasKey(Take(cves(matches[i]), perCpe), VulnId, id)
  }

  lemma HasKeyAppend(a: seq<Vuln>, b: seq<Vuln>, id: string)
    ensures HasKey(a + b, VulnId, id) <==> HasKey(a, VulnId, id) || HasKey(b, VulnId, id)
  {
    if HasKey(a, VulnId, id) {
      var i :| 0 <= i < |a| && VulnId(a[i]) == id;
      assert VulnId((a + b)[i]) == id;
    }
    if HasKey(b, VulnId, id) {
      var i :| 0 <= i < |b| && VulnId(b[i]) == id;
      assert VulnId((a + b)[|a| + i]) == id;
    }
  }

  lemma {:induction false} ArrivedIsKnown(
    s: Upstream, cves: string -> seq<Vuln>, held: string -> seq<string>, matches: seq<string>, n: nat, id: string)
    requires HonestService(s, cves, held) && n <= |matches|
    ensures HasKey(Arrived(Asking(s), matches, n), VulnId, id) <==> Known(matches, n, cves, s.perCpe, id)
  {
    if n > 0 {
      var last := Take(cves(matches[n - 1]), s.perCpe);
      ArrivedIsKnown(s, cves, held, matches, n - 1, id);
      HonestVerdict(s, cves, held, matches[n - 1]);
      HasKeyAppend(Arrived(Asking(s), matches, n - 1), last, id);
      hide QueryCpe, HonestService, Take, HasKey;
      assert Arrived(Asking(s), matches, n) == Arrived(Asking(s), matches, n - 1) + last;
      if HasKey(last, VulnId, id) {
        assert Known(matches, n, cves, s.perCpe, id);
      }
    }
  }

  /**
   Against an honest service nothing fails on the way. As many match strings are queried as the cap
   allows; each has CVEs exactly when its list is not empty, and is unverified exactly when the dictionary
   does not know it either; and an OK section's CVEs are exactly those among the entries read.
   */
  lemma HonestSection(
    s: Upstream, ent: Entity, cves: string -> seq<Vuln>, held: string -> seq<string>) returns (asked: nat)
    requires HonestService(s, cves, held) && MatchStrings(ent.cpes) != []
    ensures var matches, section := MatchStrings(ent.cpes), NvdFetch(s, ent).section;
      && asked == (if |matches| < s.maxCpes then |matches| else s.maxCpes)
      && section.data.NvdData?
      && |section.data.nvd.queries| == asked
      && (forall i :: 0 <= i < asked ==>
            section.data.nvd.queries[i].verification == TrueVerification(cves(matches[i]), held(matches[i])))
      && (section.status == OK <==>
            asked == 0 || exists i :: 0 <= i < asked && (cves(matches[i]) != [] || held(matches[i]) != []))
      && (section.status == OK ==>
            forall id :: HasKey(section.data.nvd.cves, VulnId, id) <==> Known(matches, asked, cves, s.perCpe, id))
  {
    var matches, section := MatchStrings(ent.cpes), NvdFetch(s, ent).section;
    asked := SectionReports(s, ent);
    HonestlyAsked(s, ent, cves, held, asked);
    var queries := section.data.nvd.queries;
    forall i | 0 <= i < asked
      ensures queries[i].verification == TrueVerification(cves(matches[i]), held(matches[i]))
    {
      HonestVerdict(s, cves, held, matches[i]);
    }
    SomeVerified(section.data.nvd, matches, asked, cves, held);
    forall id
      ensures HasKey(Arrived(Asking(s), matches, asked), VulnId, id) <==> Known(matches, asked, cves, s.perCpe, id)
    {
      ArrivedIsKnown(s, cves, held, matches, asked, id);
    }
    hide NvdFetch, HonestService, QueryCpe;
  }

  lemma HonestlyAsked(
    s: Upstream, ent: Entity, cves: string -> seq<Vuln>, held: string -> seq<string>, asked: nat)
    requires HonestService(s, cves, held) && MatchStrings(ent.cpes) != []
    requires asked <= |MatchStrings(ent.cpes)| && asked <= s.maxCpes
    requires Stopped(Asking(s), MatchStrings(ent.cpes), s.maxCpes, asked, NvdFetch(s, ent).section.data.NoData?)
    ensures !NvdFetch(s, ent).section.data.NoData?
    ensures asked == if |MatchStrings(ent.cpes)| < s.maxCpes then |MatchStrings(ent.cpes)| else s.maxCpes
  {
    var matches := MatchStrings(ent.cpes);
    hide NvdFetch, MatchStrings;
    if asked < |matches| {
      HonestVerdict(s, cves, held, matches[asked]);
    }
  }

  lemma SomeVerified(
    r: NvdResult, matches: seq<string>, asked: nat, cves: string -> seq<Vuln>, held: string -> seq<string>)
    requires |r.queries| == asked <= |matches|
    requires forall i :: 0 <= i < asked ==>
               r.queries[i].verification == TrueVerification(cves(matches[i]), held(matches[i]))
    ensures AnyVerified(r) <==> exists i :: 0 <= i < asked && (cves(matches[i]) != [] || held(matches[i]) != [])
  {
    if i :| 0 <= i < asked && (cves(matches[i]) != [] || held(matches[i]) != []) {
      assert r.queries[i] in r.queries;
    }
    if AnyVerified(r) {
      var q :| q in r.queries && q.verification != Unverified;
      var i :| 0 <= i < asked && r.queries[i] == q;
      assert cves(matches[i]) != [] || held(matches[i]) != [];
    }
  }
}
