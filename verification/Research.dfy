/**
 The research checklist: a claim survives only on evidence the search tool itself returned. URL
 normalisation is a parameter; "" is its answer for a text that is not a URL with a host.
 */
module Research {
  import opened Text
  import opened Sequences
  import opened Domain

  const MAX_CITATIONS := 2

  /** Where in the reply a claim stands. */
  datatype Place =
    | SupplierDescription | ServiceDescription | ServiceImplementation
    | SupplierWebsite | ServiceWebsite | SecurityPage | NotificationPage
    | PastBreach(index: nat) | CyberLawsuit(index: nat) | LocationAt(index: nat)
    | UsedKaspersky | MoveitImpacted | EvidenceFor(answer: Place)

  /** What was discarded, and why. */
  datatype Drop =
    | NotInResults(place: Place, url: string)
    | UncitedClaim(place: Place)
    | NotAnAnswer(place: Place, raw: string)
    | UncitedYes(place: Place)
    | NotConcluded(place: Place)
    | NotLabelled(place: Place)

  datatype Claim = Claim(value: string, citations: seq<string>)

  datatype Finding = Finding(value: string, citations: seq<Citation>)

  const NOTHING := Finding("", [])

  /** The search results, by normalised URL. */
  datatype Evidence = Evidence(norm: string -> string, allowed: map<string, Citation>)

  // --- The index of search results ------------------------------------------------------------

  /** A later result with the same URL replaces an earlier one; a result without a URL is unusable. */
  function Index(norm: string -> string, results: seq<Citation>): map<string, Citation> {
    if results == [] then map[] else
    var last := results[|results| - 1];
    var before := Index(norm, results[..|results| - 1]);
    if norm(last.url) == "" then before else before[norm(last.url) := last]
  }

  method NewResultIndex(norm: string -> string, results: seq<Citation>) returns (index: map<string, Citation>)
    ensures index == Index(norm, results)
  {
    index := map[];
    for i := 0 to |results|
      invariant index == Index(norm, results[..i])
    {
      assert results[..i + 1][..i] == results[..i];
      var key := norm(results[i].url);
      if key != "" {
        index := index[key := results[i]];
      }
    }
    assert results[..|results|] == results;
  }

  /** Every entry is a search result filed under its own URL. */
  ghost predicate Indexed(ev: Evidence, results: seq<Citation>) {
    forall k <- ev.allowed :: k != "" && ev.norm(ev.allowed[k].url) == k && ev.allowed[k] in results
  }

  lemma {:induction false} IndexIsIndexed(norm: string -> string, results: seq<Citation>)
    ensures Indexed(Evidence(norm, Index(norm, results)), results)
    ensures forall k :: k in Index(norm, results) <==> k != "" && exists r <- results :: norm(r.url) == k
  {
    if results != [] {
      var before, last := results[..|results| - 1], results[|results| - 1];
      IndexIsIndexed(norm, before);
      assert results == before + [last];
    }
  }

  // --- Citations ------------------------------------------------------------------------------

  function UrlKey(ev: Evidence): Citation -> string {
    (c: Citation) => ev.norm(c.url)
  }

  /** The search result a claimed URL names. */
  function Match(ev: Evidence): string -> Option<Citation> {
    raw =>
      var t := TrimSpace(raw);
      if t != "" && ev.norm(t) in ev.allowed then Some(ev.allowed[ev.norm(t)]) else None
  }

  function Unmatched(ev: Evidence, place: Place): string -> Option<Drop> {
    raw =>
      var t := TrimSpace(raw);
      if t == "" || ev.norm(t) in ev.allowed then None else Some(NotInResults(place, t))
  }

  function Matches(ev: Evidence, urls: seq<string>): seq<Citation> {
    FirstByKey(FilterMap(urls, Match(ev)), UrlKey(ev))
  }

  /** The first two distinct search results the URLs name. */
  function Cited(ev: Evidence, urls: seq<string>): seq<Citation> {
    Take(Matches(ev, urls), MAX_CITATIONS)
  }

  /** How many URLs are looked at: up to the one that fills the cap. */
  function Looked(ev: Evidence, urls: seq<string>, n: nat): (m: nat)
    requires n <= |urls|
    ensures n <= m <= |urls|
    decreases |urls| - n
  {
    if n == |urls| || |Matches(ev, urls[..n])| >= MAX_CITATIONS then n else Looked(ev, urls, n + 1)
  }

  function CitationDrops(ev: Evidence, urls: seq<string>, place: Place): seq<Drop> {
    FilterMap(urls[..Looked(ev, urls, 0)], Unmatched(ev, place))
  }

  lemma OneMoreUrl(ev: Evidence, urls: seq<string>, i: nat, place: Place)
    requires i < |urls|
    requires forall k <- ev.allowed :: ev.norm(ev.allowed[k].url) == k
    ensures var t := TrimSpace(urls[i]);
      var found := t != "" && ev.norm(t) in ev.allowed;
      var before := Matches(ev, urls[..i]);
      && Matches(ev, urls[..i + 1]) ==
           (if found && !HasKey(before, UrlKey(ev), ev.norm(t)) then before + [ev.allowed[ev.norm(t)]] else before)
      && FilterMap(urls[..i + 1], Unmatched(ev, place)) ==
           FilterMap(urls[..i], Unmatched(ev, place)) +
             (if t != "" && ev.norm(t) !in ev.allowed then [NotInResults(place, t)] else [])
  {
    assert urls[..i + 1] == urls[..i] + [urls[i]];
    FilterMapSnoc(urls[..i], urls[i], Match(ev));
    FilterMapSnoc(urls[..i], urls[i], Unmatched(ev, place));
    var found := FilterMap(urls[..i], Match(ev));
    assert found + [] == found;
    if Match(ev)(urls[i]).Some? {
      FirstByKeySnoc(found, Match(ev)(urls[i]).value, UrlKey(ev));
    }
  }

  /** Stopping once the cap is reached loses nothing the cap would have kept. */
  lemma MatchesPrefix(ev: Evidence, urls: seq<string>, n: nat)
    requires n <= |urls|
    ensures Matches(ev, urls[..n]) <= Matches(ev, urls)
  {
    FilterMapPrefix(urls, n, Match(ev));
    var all, part := FilterMap(urls, Match(ev)), FilterMap(urls[..n], Match(ev));
    FirstByKeyPrefix(all, |part|, UrlKey(ev));
    assert all[..|part|] == part;
  }

  // --- Findings -------------------------------------------------------------------------------

  function FindingOf(ev: Evidence, claim: Claim): Finding {
    if Blank(claim.value) || Cited(ev, claim.citations) == [] then NOTHING
    else Finding(TrimSpace(claim.value), Cited(ev, claim.citations))
  }

  function FindingDrops(ev: Evidence, claim: Claim, place: Place): seq<Drop> {
    if Blank(claim.value) then []
    else CitationDrops(ev, claim.citations, place) +
         if Cited(ev, claim.citations) == [] then [UncitedClaim(place)] else []
  }

  /** One or two search results, by distinct URLs. */
  ghost predicate Supported(ev: Evidence, results: seq<Citation>, f: Finding) {
    && (f.value == "" ==> f.citations == [])
    && (f.value != "" ==> 1 <= |f.citations| <= MAX_CITATIONS)
    && DistinctKeys(f.citations, UrlKey(ev))
    && forall c <- f.citations :: c in results
  }

  predicate Names(ev: Evidence, url: string) {
    TrimSpace(url) != "" && ev.norm(TrimSpace(url)) in ev.allowed
  }

  lemma {:induction false} MatchesNothing(ev: Evidence, urls: seq<string>)
    ensures Matches(ev, urls) == [] <==> forall url <- urls :: !Names(ev, url)
    ensures forall c <- Matches(ev, urls) :: exists k :: k in ev.allowed && c == ev.allowed[k]
  {
    var found := FilterMap(urls, Match(ev));
    FilterMapMembers(urls, Match(ev));
    FirstByKeyKeys(found, UrlKey(ev));
    if url :| url in urls && Names(ev, url) {
      var i :| 0 <= i < |urls| && urls[i] == url;
      FirstByKeyCovers(found, UrlKey(ev), Match(ev)(url).value);
    }
    forall c <- Matches(ev, urls) ensures exists k :: k in ev.allowed && c == ev.allowed[k] {
      var i :| 0 <= i < |urls| && Match(ev)(urls[i]) == Some(c);
      assert ev.norm(TrimSpace(urls[i])) in ev.allowed;
    }
    if Matches(ev, urls) != [] {
      var c := Matches(ev, urls)[0];
      assert c in found;
      var i :| 0 <= i < |urls| && Match(ev)(urls[i]) == Some(c);
      assert Names(ev, urls[i]) && urls[i] in urls;
    }
  }

  /** A claim is kept exactly when it says something and one of its URLs came from search. */
  lemma FindingsAreSupported(ev: Evidence, results: seq<Citation>, claim: Claim)
    requires Indexed(ev, results)
    ensures Supported(ev, results, FindingOf(ev, claim))
    ensures FindingOf(ev, claim).value != "" <==>
            !Blank(claim.value) && exists url <- claim.citations :: Names(ev, url)
  {
    MatchesNothing(ev, claim.citations);
    FirstByKeyKeys(FilterMap(claim.citations, Match(ev)), UrlKey(ev));
    forall c <- Cited(ev, claim.citations) ensures c in results {
      assert c in Matches(ev, claim.citations);
      var k :| k in ev.allowed && c == ev.allowed[k];
    }
  }

  // --- Answers, lawsuits, locations -----------------------------------------------------------

  datatype Tri = Yes | NoEvidence | NotApplicable

  function AnswerOf(raw: string): Option<Tri> {
    var answer := TrimSpace(ToLower(raw));
    if answer == "yes" then Some(Yes)
    else if answer == "no_evidence_found" then Some(NoEvidence)
    else if answer == "not_applicable" then Some(NotApplicable)
    else None
  }

  datatype Answer = Answer(tri: Tri, evidence: Finding)

  function TriOf(ev: Evidence, raw: string, evidence: Claim): Answer {
    var answer := AnswerOf(raw);
    if answer.None? then Answer(NoEvidence, NOTHING)
    else if answer.value != Yes then Answer(answer.value, NOTHING)
    else
      var finding := FindingOf(ev, evidence);
      if finding.value == "" then Answer(NoEvidence, NOTHING) else Answer(Yes, finding)
  }

  function TriDrops(ev: Evidence, raw: string, evidence: Claim, place: Place): seq<Drop> {
    var answer := AnswerOf(raw);
    if answer.None? then [NotAnAnswer(place, raw)]
    else if answer.value != Yes then []
    else FindingDrops(ev, evidence, EvidenceFor(place)) +
         if FindingOf(ev, evidence).value == "" then [UncitedYes(place)] else []
  }

  /** A yes never stands without evidence, and evidence never stands without a yes. */
  lemma YesNeedsEvidence(ev: Evidence, results: seq<Citation>, raw: string, evidence: Claim)
    requires Indexed(ev, results)
    ensures var a := TriOf(ev, raw, evidence);
      && (a.tri == Yes <==> a.evidence.value != "")
      && Supported(ev, results, a.evidence)
      && (a.tri == Yes <==> AnswerOf(raw) == Some(Yes) && FindingOf(ev, evidence).value != "")
  {
    FindingsAreSupported(ev, results, evidence);
  }

  datatype LawsuitClaim = LawsuitClaim(claim: Claim, outcome: string, resolutionDate: string)

  datatype Lawsuit = Lawsuit(finding: Finding, outcome: string, resolutionDate: string)

  predicate Concluded(l: LawsuitClaim) {
    !Blank(l.outcome) && !Blank(l.resolutionDate)
  }

  function LawsuitOf(ev: Evidence): LawsuitClaim -> Option<Lawsuit> {
    (l: LawsuitClaim) =>
      var finding := FindingOf(ev, l.claim);
      if !Concluded(l) || finding.value == "" then None
      else Some(Lawsuit(finding, TrimSpace(l.outcome), TrimSpace(l.resolutionDate)))
  }

  function LawsuitDrops(ev: Evidence, l: LawsuitClaim, place: Place): seq<Drop> {
    if Concluded(l) then FindingDrops(ev, l.claim, place) else [NotConcluded(place)]
  }

  function AllLawsuitDrops(ev: Evidence, ls: seq<LawsuitClaim>): seq<Drop> {
    if ls == [] then [] else
    AllLawsuitDrops(ev, ls[..|ls| - 1]) + LawsuitDrops(ev, ls[|ls| - 1], CyberLawsuit(|ls| - 1))
  }

  datatype LocationClaim = LocationClaim(claim: Claim, kind: string, country: string, city: string)

  datatype Location = Location(finding: Finding, kind: string, country: string, city: string)

  function KindOf(l: LocationClaim): string {
    TrimSpace(ToLower(l.kind))
  }

  predicate Labelled(l: LocationClaim) {
    KindOf(l) == "headquarters" || KindOf(l) == "operational"
  }

  function LocationOf(ev: Evidence): LocationClaim -> Option<Location> {
    (l: LocationClaim) =>
      var finding := FindingOf(ev, l.claim);
      if !Labelled(l) || finding.value == "" then None
      else Some(Location(finding, KindOf(l), TrimSpace(l.country), TrimSpace(l.city)))
  }

  function LocationDrops(ev: Evidence, l: LocationClaim, place: Place): seq<Drop> {
    if Labelled(l) then FindingDrops(ev, l.claim, place) else [NotLabelled(place)]
  }

  function AllLocationDrops(ev: Evidence, ls: seq<LocationClaim>): seq<Drop> {
    if ls == [] then [] else
    AllLocationDrops(ev, ls[..|ls| - 1]) + LocationDrops(ev, ls[|ls| - 1], LocationAt(|ls| - 1))
  }

  function BreachOf(ev: Evidence): Claim -> Option<Finding> {
    claim => if FindingOf(ev, claim).value == "" then None else Some(FindingOf(ev, claim))
  }

  function AllBreachDrops(ev: Evidence, claims: seq<Claim>): seq<Drop> {
    if claims == [] then [] else
    AllBreachDrops(ev, claims[..|claims| - 1]) +
    FindingDrops(ev, claims[|claims| - 1], PastBreach(|claims| - 1))
  }

  /** What is kept of each list is concluded, labelled and supported. */
  lemma KeptItemsAreSound(
    ev: Evidence, results: seq<Citation>,
    lawsuits: seq<LawsuitClaim>, locations: seq<LocationClaim>, breaches: seq<Claim>)
    requires Indexed(ev, results)
    ensures forall l <- FilterMap(lawsuits, LawsuitOf(ev)) ::
              l.outcome != "" && l.resolutionDate != "" && l.finding.value != "" && Supported(ev, results, l.finding)
    ensures forall l <- FilterMap(locations, LocationOf(ev)) ::
              (l.kind == "headquarters" || l.kind == "operational") && l.finding.value != "" &&
              Supported(ev, results, l.finding)
    ensures forall f <- FilterMap(breaches, BreachOf(ev)) :: f.value != "" && Supported(ev, results, f)
  {
    LawsuitsSound(ev, results, lawsuits);
    LocationsSound(ev, results, locations);
    BreachesSound(ev, results, breaches);
  }

  lemma LawsuitsSound(ev: Evidence, results: seq<Citation>, lawsuits: seq<LawsuitClaim>)
    requires Indexed(ev, results)
    ensures forall l <- FilterMap(lawsuits, LawsuitOf(ev)) ::
              l.outcome != "" && l.resolutionDate != "" && l.finding.value != "" && Supported(ev, results, l.finding)
  {
    FilterMapMembers(lawsuits, LawsuitOf(ev));
    forall l <- FilterMap(lawsuits, LawsuitOf(ev))
      ensures l.outcome != "" && l.resolutionDate != "" && l.finding.value != "" && Supported(ev, results, l.finding)
    {
      var i :| 0 <= i < |lawsuits| && LawsuitOf(ev)(lawsuits[i]) == Some(l);
      FindingsAreSupported(ev, results, lawsuits[i].claim);
    }
  }

  lemma LocationsSound(ev: Evidence, results: seq<Citation>, locations: seq<LocationClaim>)
    requires Indexed(ev, results)
    ensures forall l <- FilterMap(locations, LocationOf(ev)) ::
              (l.kind == "headquarters" || l.kind == "operational") && l.finding.value != "" &&
              Supported(ev, results, l.finding)
  {
    FilterMapMembers(locations, LocationOf(ev));
    forall l <- FilterMap(locations, LocationOf(ev))
      ensures (l.kind == "headquarters" || l.kind == "operational") && l.finding.value != ""
      ensures Supported(ev, results, l.finding)
    {
      var i :| 0 <= i < |locations| && LocationOf(ev)(locations[i]) == Some(l);
      FindingsAreSupported(ev, results, locations[i].claim);
    }
  }

  lemma BreachesSound(ev: Evidence, results: seq<Citation>, breaches: seq<Claim>)
    requires Indexed(ev, results)
    ensures forall f <- FilterMap(breaches, BreachOf(ev)) :: f.value != "" && Supported(ev, results, f)
  {
    FilterMapMembers(breaches, BreachOf(ev));
    forall f <- FilterMap(breaches, BreachOf(ev)) ensures f.value != "" && Supported(ev, results, f) {
      var i :| 0 <= i < |breaches| && BreachOf(ev)(breaches[i]) == Some(f);
      FindingsAreSupported(ev, results, breaches[i]);
    }
  }

  // --- The validator --------------------------------------------------------------------------

  lemma {:induction false} LookedFrom(ev: Evidence, urls: seq<string>, n: nat)
    requires n <= |urls| && |Matches(ev, urls[..n])| <= MAX_CITATIONS
    requires forall k <- ev.allowed :: ev.norm(ev.allowed[k].url) == k
    ensures var m := Looked(ev, urls, n);
      && (forall j :: n <= j < m ==> |Matches(ev, urls[..j])| < MAX_CITATIONS)
      && (m == |urls| || |Matches(ev, urls[..m])| == MAX_CITATIONS)
      && |Matches(ev, urls[..m])| <= MAX_CITATIONS
    decreases |urls| - n
  {
    hide Matches, Unmatched;
    if n < |urls| && |Matches(ev, urls[..n])| < MAX_CITATIONS {
      OneMoreUrl(ev, urls, n, UsedKaspersky);
      LookedFrom(ev, urls, n + 1);
    }
  }

  /** URLs are looked at until two distinct results are found, and those two are what is cited. */
  lemma LookedExact(ev: Evidence, urls: seq<string>)
    requires forall k <- ev.allowed :: ev.norm(ev.allowed[k].url) == k
    ensures var n := Looked(ev, urls, 0);
      && Cited(ev, urls) == Matches(ev, urls[..n])
      && (n == |urls| || |Matches(ev, urls[..n])| == MAX_CITATIONS)
      && forall j :: 0 <= j < n ==> |Matches(ev, urls[..j])| < MAX_CITATIONS
  {
    var n := Looked(ev, urls, 0);
    assert urls[..0] == [];
    LookedFrom(ev, urls, 0);
    MatchesPrefix(ev, urls, n);
    if n == |urls| {
      assert urls[..n] == urls;
    }
  }

  /** Every URL looked at that search did not return is named, and nothing else is. */
  lemma UnmatchedAreNamed(ev: Evidence, urls: seq<string>, place: Place, url: string)
    ensures NotInResults(place, url) in CitationDrops(ev, urls, place) <==>
            url != "" && ev.norm(url) !in ev.allowed &&
            exists i :: 0 <= i < Looked(ev, urls, 0) && TrimSpace(urls[i]) == url
  {
    var looked := urls[..Looked(ev, urls, 0)];
    FilterMapMembers(looked, Unmatched(ev, place));
    if url != "" && ev.norm(url) !in ev.allowed {
      forall i | 0 <= i < |looked| && TrimSpace(urls[i]) == url
        ensures Unmatched(ev, place)(looked[i]) == Some(NotInResults(place, url))
      {}
    }
  }

  lemma OneMoreItem<T, U>(s: seq<T>, i: nat, f: T -> Option<U>)
    requires i < |s|
    ensures s[..i + 1][..i] == s[..i]
    ensures FilterMap(s[..i + 1], f) == FilterMap(s[..i], f) + if f(s[i]).Some? then [f(s[i]).value] else []
  {
    assert s[..i + 1] == s[..i] + [s[i]];
    FilterMapSnoc(s[..i], s[i], f);
  }

  datatype ResearchReply = ResearchReply(
    supplierDescription: Claim, serviceDescription: Claim, serviceImplementation: Claim,
    cyberLawsuits: seq<LawsuitClaim>, pastBreaches: seq<Claim>,
    supplierWebsite: Claim, serviceWebsite: Claim, securityPage: Claim, notificationPage: Claim,
    locations: seq<LocationClaim>,
    usedKaspersky: string, usedKasperskyEvidence: Claim,
    moveitImpacted: string, moveitEvidence: Claim)

  datatype Checklist = Checklist(
    supplierDescription: Finding, serviceDescription: Finding, serviceImplementation: Finding,
    supplierWebsite: Finding, serviceWebsite: Finding, securityPage: Finding, notificationPage: Finding)

  datatype ResearchResult = ResearchResult(
    checklist: Checklist, pastBreaches: seq<Finding>, cyberLawsuits: seq<Lawsuit>, locations: seq<Location>,
    usedKaspersky: Answer, moveit: Answer, searchResults: seq<Citation>, dropped: seq<Drop>)

  class Validator {
    const ev: Evidence
    var dropped: seq<Drop>

    ghost predicate Valid() {
      forall k <- ev.allowed :: k != "" && ev.norm(ev.allowed[k].url) == k
    }

    constructor (norm: string -> string, searchResults: seq<Citation>)
      ensures Valid() && ev == Evidence(norm, Index(norm, searchResults)) && dropped == []
    {
      var index := NewResultIndex(norm, searchResults);
      IndexIsIndexed(norm, searchResults);
      ev, dropped := Evidence(norm, index), [];
    }

    method Note(drop: Drop)
      modifies this`dropped
      ensures dropped == old(dropped) + [drop]
    {
      dropped := dropped + [drop];
    }

    /** Keeps only results the search tool returned, and no more than the cap. */
    method Citations(urls: seq<string>, place: Place) returns (kept: seq<Citation>)
      requires Valid()
      modifies this`dropped
      ensures kept == Cited(ev, urls)
      ensures dropped == old(dropped) + CitationDrops(ev, urls, place)
    {
      kept := [];
      var seen: set<string> := {};
      LookedExact(ev, urls);
      for i := 0 to |urls|
        invariant kept == Matches(ev, urls[..i]) && |kept| < MAX_CITATIONS
        invariant forall k :: k in seen <==> HasKey(kept, UrlKey(ev), k)
        invariant dropped == old(dropped) + FilterMap(urls[..i], Unmatched(ev, place))
        invariant Looked(ev, urls, 0) == Looked(ev, urls, i)
      {
        kept, seen := Look(urls, i, kept, seen, place);
        if |kept| == MAX_CITATIONS {
          return;
        }
      }
      assert urls[..|urls|] == urls;
    }

    /** One URL of the loop. */
    method Look(urls: seq<string>, i: nat, kept: seq<Citation>, seen: set<string>, place: Place)
      returns (more: seq<Citation>, after: set<string>)
      requires Valid() && i < |urls|
      requires kept == Matches(ev, urls[..i])
      requires forall k :: k in seen <==> HasKey(kept, UrlKey(ev), k)
      modifies this`dropped
      ensures more == Matches(ev, urls[..i + 1]) && |more| <= |kept| + 1
      ensures forall k :: k in after <==> HasKey(more, UrlKey(ev), k)
      ensures forall before :: old(dropped) == before + FilterMap(urls[..i], Unmatched(ev, place)) ==>
                dropped == before + FilterMap(urls[..i + 1], Unmatched(ev, place))
    {
      more, after := kept, seen;
      OneMoreUrl(ev, urls, i, place);
      var raw := TrimSpace(urls[i]);
      if raw == "" {
        return;
      }
      var key := ev.norm(raw);
      if key !in ev.allowed {
        Note(NotInResults(place, raw));
        return;
      }
      if key in seen {
        return;
      }
      SeenOneMore(seen, kept, ev.allowed[key], UrlKey(ev));
      after := seen + {key};
      more := kept + [ev.allowed[key]];
    }

    /** The claim with the results that support it, or nothing and a note why. */
    method Find(claim: Claim, place: Place) returns (finding: Finding)
      requires Valid()
      modifies this`dropped
      ensures finding == FindingOf(ev, claim)
      ensures dropped == old(dropped) + FindingDrops(ev, claim, place)
    {
      var value := TrimSpace(claim.value);
      if value == "" {
        return NOTHING;
      }
      var citations := Citations(claim.citations, place);
      if |citations| == 0 {
        Note(UncitedClaim(place));
        return NOTHING;
      }
      return Finding(value, citations);
    }

    /** Returns the answer that survives its evidence, and notes what was taken away from it. */
    method Judge(raw: string, evidence: Claim, place: Place) returns (answer: Answer)
      requires Valid()
      modifies this`dropped
      ensures answer == TriOf(ev, raw, evidence)
      ensures dropped == old(dropped) + TriDrops(ev, raw, evidence, place)
    {
      var tri := AnswerOf(raw);
      if tri.None? {
        Note(NotAnAnswer(place, raw));
        return Answer(NoEvidence, NOTHING);
      }
      if tri.value != Yes {
        return Answer(tri.value, NOTHING);
      }
      var finding := Find(evidence, EvidenceFor(place));
      if finding.value == "" {
        Note(UncitedYes(place));
        return Answer(NoEvidence, NOTHING);
      }
      return Answer(Yes, finding);
    }

    /** Both fields are how a case is known to have concluded. */
    method KeepLawsuit(l: LawsuitClaim, place: Place) returns (kept: Option<Lawsuit>)
      requires Valid()
      modifies this`dropped
      ensures kept == LawsuitOf(ev)(l)
      ensures dropped == old(dropped) + LawsuitDrops(ev, l, place)
    {
      var outcome, resolved := TrimSpace(l.outcome), TrimSpace(l.resolutionDate);
      if outcome == "" || resolved == "" {
        Note(NotConcluded(place));
        return None;
      }
      var finding := Find(l.claim, place);
      if finding.value == "" {
        return None;
      }
      return Some(Lawsuit(finding, outcome, resolved));
    }

    method Lawsuits(claims: seq<LawsuitClaim>) returns (kept: seq<Lawsuit>)
      requires Valid()
      modifies this`dropped
      ensures kept == FilterMap(claims, LawsuitOf(ev))
      ensures dropped == old(dropped) + AllLawsuitDrops(ev, claims)
    {
      hide LawsuitDrops, LawsuitOf;
      kept := [];
      for i := 0 to |claims|
        invariant kept == FilterMap(claims[..i], LawsuitOf(ev))
        invariant dropped == old(dropped) + AllLawsuitDrops(ev, claims[..i])
      {
        OneMoreItem(claims, i, LawsuitOf(ev));
        var l := KeepLawsuit(claims[i], CyberLawsuit(i));
        if l.Some? {
          kept := kept + [l.value];
        }
      }
      assert claims[..|claims|] == claims;
    }

    /** An unlabelled location would read as a headquarters. */
    method KeepLocation(l: LocationClaim, place: Place) returns (kept: Option<Location>)
      requires Valid()
      modifies this`dropped
      ensures kept == LocationOf(ev)(l)
      ensures dropped == old(dropped) + LocationDrops(ev, l, place)
    {
      if !Labelled(l) {
        Note(NotLabelled(place));
        return None;
      }
      var finding := Find(l.claim, place);
      if finding.value == "" {
        return None;
      }
      return Some(Location(finding, KindOf(l), TrimSpace(l.country), TrimSpace(l.city)));
    }

    method Locations(claims: seq<LocationClaim>) returns (kept: seq<Location>)
      requires Valid()
      modifies this`dropped
      ensures kept == FilterMap(claims, LocationOf(ev))
      ensures dropped == old(dropped) + AllLocationDrops(ev, claims)
    {
      hide LocationDrops, LocationOf;
      kept := [];
      for i := 0 to |claims|
        invariant kept == FilterMap(claims[..i], LocationOf(ev))
        invariant dropped == old(dropped) + AllLocationDrops(ev, claims[..i])
      {
        OneMoreItem(claims, i, LocationOf(ev));
        var l := KeepLocation(claims[i], LocationAt(i));
        if l.Some? {
          kept := kept + [l.value];
        }
      }
      assert claims[..|claims|] == claims;
    }

    method Breaches(claims: seq<Claim>) returns (kept: seq<Finding>)
      requires Valid()
      modifies this`dropped
      ensures kept == FilterMap(claims, BreachOf(ev))
      ensures dropped == old(dropped) + AllBreachDrops(ev, claims)
    {
      hide FindingDrops;
      kept := [];
      for i := 0 to |claims|
        invariant kept == FilterMap(claims[..i], BreachOf(ev))
        invariant dropped == old(dropped) + AllBreachDrops(ev, claims[..i])
      {
        OneMoreItem(claims, i, BreachOf(ev));
        var finding := Find(claims[i], PastBreach(i));
        if finding.value == "" {
          continue;
        }
        kept := kept + [finding];
      }
      assert claims[..|claims|] == claims;
    }

    method SingleFindings(reply: ResearchReply) returns (list: Checklist)
      requires Valid()
      modifies this`dropped
      ensures list == ChecklistOf(ev, reply)
      ensures dropped == old(dropped) + ChecklistDrops(ev, reply)
    {
      hide FindingDrops, FindingOf;
      var a := Find(reply.supplierDescription, SupplierDescription);
      var b := Find(reply.serviceDescription, ServiceDescription);
      var c := Find(reply.serviceImplementation, ServiceImplementation);
      var d := Find(reply.supplierWebsite, SupplierWebsite);
      var e := Find(reply.serviceWebsite, ServiceWebsite);
      var f := Find(reply.securityPage, SecurityPage);
      var g := Find(reply.notificationPage, NotificationPage);
      list := Checklist(a, b, c, d, e, f, g);
    }
  }

  function ChecklistOf(ev: Evidence, reply: ResearchReply): Checklist {
    Checklist(
      FindingOf(ev, reply.supplierDescription), FindingOf(ev, reply.serviceDescription),
      FindingOf(ev, reply.serviceImplementation), FindingOf(ev, reply.supplierWebsite),
      FindingOf(ev, reply.serviceWebsite), FindingOf(ev, reply.securityPage),
      FindingOf(ev, reply.notificationPage))
  }

  function ChecklistDrops(ev: Evidence, reply: ResearchReply): seq<Drop> {
    FindingDrops(ev, reply.supplierDescription, SupplierDescription) +
    FindingDrops(ev, reply.serviceDescription, ServiceDescription) +
    FindingDrops(ev, reply.serviceImplementation, ServiceImplementation) +
    FindingDrops(ev, reply.supplierWebsite, SupplierWebsite) +
    FindingDrops(ev, reply.serviceWebsite, ServiceWebsite) +
    FindingDrops(ev, reply.securityPage, SecurityPage) +
    FindingDrops(ev, reply.notificationPage, NotificationPage)
  }

  function ResearchOf(ev: Evidence, reply: ResearchReply, results: seq<Citation>): ResearchResult {
    ResearchResult(
      ChecklistOf(ev, reply),
      FilterMap(reply.pastBreaches, BreachOf(ev)),
      FilterMap(reply.cyberLawsuits, LawsuitOf(ev)),
      FilterMap(reply.locations, LocationOf(ev)),
      TriOf(ev, reply.usedKaspersky, reply.usedKasperskyEvidence),
      TriOf(ev, reply.moveitImpacted, reply.moveitEvidence),
      results,
      ChecklistDrops(ev, reply) +
      AllBreachDrops(ev, reply.pastBreaches) +
      AllLawsuitDrops(ev, reply.cyberLawsuits) +
      AllLocationDrops(ev, reply.locations) +
      TriDrops(ev, reply.usedKaspersky, reply.usedKasperskyEvidence, UsedKaspersky) +
      TriDrops(ev, reply.moveitImpacted, reply.moveitEvidence, MoveitImpacted))
  }

  /** What a decoded reply amounts to; nothing at all when it could not be decoded. */
  function Researched(norm: string -> string, reply: Option<ResearchReply>, results: seq<Citation>)
    : Option<ResearchResult>
  {
    if reply.None? then None else Some(ResearchOf(Evidence(norm, Index(norm, results)), reply.value, results))
  }

  method ParseResearch(norm: string -> string, decoded: Option<ResearchReply>, searchResults: seq<Citation>)
    returns (out: Option<ResearchResult>)
    ensures out == Researched(norm, decoded, searchResults)
  {
    if decoded.None? {
      return None;
    }
    var reply := decoded.value;
    var v := new Validator(norm, searchResults);
    var list := v.SingleFindings(reply);
    assert v.dropped == ChecklistDrops(v.ev, reply);
    var breaches := v.Breaches(reply.pastBreaches);
    var lawsuits := v.Lawsuits(reply.cyberLawsuits);
    var locations := v.Locations(reply.locations);
    var kaspersky := v.Judge(reply.usedKaspersky, reply.usedKasperskyEvidence, UsedKaspersky);
    var moveit := v.Judge(reply.moveitImpacted, reply.moveitEvidence, MoveitImpacted);
    out := Some(
      ResearchResult(list, breaches, lawsuits, locations, kaspersky, moveit, searchResults, v.dropped));
  }

  ghost predicate Asked(c: Checklist, f: Finding) {
    || f == c.supplierDescription || f == c.serviceDescription || f == c.serviceImplementation
    || f == c.supplierWebsite || f == c.serviceWebsite || f == c.securityPage || f == c.notificationPage
  }

  /** Every finding of a result, wherever it stands. */
  ghost predicate Holds(r: ResearchResult, f: Finding) {
    || Asked(r.checklist, f)
    || f == r.usedKaspersky.evidence || f == r.moveit.evidence
    || f in r.pastBreaches
    || (exists l <- r.cyberLawsuits :: l.finding == f)
    || (exists l <- r.locations :: l.finding == f)
  }

  lemma ChecklistSupported(ev: Evidence, results: seq<Citation>, reply: ResearchReply, f: Finding)
    requires Indexed(ev, results) && Asked(ChecklistOf(ev, reply), f)
    ensures Supported(ev, results, f)
  {
    FindingsAreSupported(ev, results, reply.supplierDescription);
    FindingsAreSupported(ev, results, reply.serviceDescription);
    FindingsAreSupported(ev, results, reply.serviceImplementation);
    FindingsAreSupported(ev, results, reply.supplierWebsite);
    FindingsAreSupported(ev, results, reply.serviceWebsite);
    FindingsAreSupported(ev, results, reply.securityPage);
    FindingsAreSupported(ev, results, reply.notificationPage);
  }

  /** Nothing in a parsed checklist stands without one or two distinct sources the search tool returned. */
  lemma EveryFindingSupported(
    norm: string -> string, decoded: Option<ResearchReply>, results: seq<Citation>, f: Finding)
    requires Researched(norm, decoded, results).Some? && Holds(Researched(norm, decoded, results).value, f)
    ensures Researched(norm, decoded, results).value.searchResults == results
    ensures Supported(Evidence(norm, Index(norm, results)), results, f)
  {
    var ev, reply := Evidence(norm, Index(norm, results)), decoded.value;
    IndexIsIndexed(norm, results);
    if Asked(ChecklistOf(ev, reply), f) {
      ChecklistSupported(ev, results, reply, f);
    }
    YesNeedsEvidence(ev, results, reply.usedKaspersky, reply.usedKasperskyEvidence);
    YesNeedsEvidence(ev, results, reply.moveitImpacted, reply.moveitEvidence);
    KeptItemsAreSound(ev, results, reply.cyberLawsuits, reply.locations, reply.pastBreaches);
  }

  // --- Nothing disappears silently --------------------------------------------------------------

  lemma CitationDropsAreUrls(ev: Evidence, urls: seq<string>, place: Place)
    ensures forall d <- CitationDrops(ev, urls, place) :: d.NotInResults? && d.place == place
  {
    FilterMapMembers(urls[..Looked(ev, urls, 0)], Unmatched(ev, place));
  }

  /** A claim is named as uncited exactly when it said something and was not kept. */
  lemma UncitedExactly(ev: Evidence, claim: Claim, place: Place)
    ensures UncitedClaim(place) in FindingDrops(ev, claim, place) <==>
            !Blank(claim.value) && FindingOf(ev, claim).value == ""
    ensures forall d <- FindingDrops(ev, claim, place) :: d.place == place && (d.NotInResults? || d.UncitedClaim?)
  {
    CitationDropsAreUrls(ev, claim.citations, place);
  }

  /** A note for each yes that lost its evidence and each answer outside the three values, and for no other. */
  lemma DowngradesAreNamed(ev: Evidence, raw: string, evidence: Claim, place: Place)
    ensures UncitedYes(place) in TriDrops(ev, raw, evidence, place) <==>
            AnswerOf(raw) == Some(Yes) && TriOf(ev, raw, evidence).tri != Yes
    ensures NotAnAnswer(place, raw) in TriDrops(ev, raw, evidence, place) <==> AnswerOf(raw).None?
  {
    UncitedExactly(ev, evidence, EvidenceFor(place));
    hide FindingDrops, FindingOf, AnswerOf;
  }

  lemma LawsuitNamed(ev: Evidence, l: LawsuitClaim, place: Place)
    ensures NotConcluded(place) in LawsuitDrops(ev, l, place) <==> !Concluded(l)
    ensures UncitedClaim(place) in LawsuitDrops(ev, l, place) <==>
            Concluded(l) && !Blank(l.claim.value) && LawsuitOf(ev)(l).None?
    ensures forall d <- LawsuitDrops(ev, l, place) :: d.place == place
  {
    UncitedExactly(ev, l.claim, place);
    hide FindingDrops, FindingOf;
  }

  /** A lawsuit that was not kept is named as unconcluded, or as uncited, or it said nothing. */
  lemma {:induction false} LawsuitsAccounted(ev: Evidence, ls: seq<LawsuitClaim>, i: nat)
    ensures NotConcluded(CyberLawsuit(i)) in AllLawsuitDrops(ev, ls) <==> i < |ls| && !Concluded(ls[i])
    ensures UncitedClaim(CyberLawsuit(i)) in AllLawsuitDrops(ev, ls) <==>
            i < |ls| && Concluded(ls[i]) && !Blank(ls[i].claim.value) && LawsuitOf(ev)(ls[i]).None?
  {
    if ls != [] {
      var n := |ls| - 1;
      LawsuitsAccounted(ev, ls[..n], i);
      LawsuitNamed(ev, ls[n], CyberLawsuit(n));
      hide LawsuitDrops, LawsuitOf, Concluded;
      assert i < n ==> ls[..n][i] == ls[i];
      assert i != n ==> CyberLawsuit(i) != CyberLawsuit(n);
    }
  }

  lemma LocationNamed(ev: Evidence, l: LocationClaim, place: Place)
    ensures NotLabelled(place) in LocationDrops(ev, l, place) <==> !Labelled(l)
    ensures UncitedClaim(place) in LocationDrops(ev, l, place) <==>
            Labelled(l) && !Blank(l.claim.value) && LocationOf(ev)(l).None?
    ensures forall d <- LocationDrops(ev, l, place) :: d.place == place
  {
    UncitedExactly(ev, l.claim, place);
    hide FindingDrops, FindingOf, Labelled;
  }

  /** A location that was not kept is named as unlabelled, or as uncited, or it said nothing. */
  lemma {:induction false} LocationsAccounted(ev: Evidence, ls: seq<LocationClaim>, i: nat)
    ensures NotLabelled(LocationAt(i)) in AllLocationDrops(ev, ls) <==> i < |ls| && !Labelled(ls[i])
    ensures UncitedClaim(LocationAt(i)) in AllLocationDrops(ev, ls) <==>
            i < |ls| && Labelled(ls[i]) && !Blank(ls[i].claim.value) && LocationOf(ev)(ls[i]).None?
  {
    if ls != [] {
      var n := |ls| - 1;
      LocationsAccounted(ev, ls[..n], i);
      LocationNamed(ev, ls[n], LocationAt(n));
      hide LocationDrops, LocationOf, Labelled;
      assert i < n ==> ls[..n][i] == ls[i];
      assert i != n ==> LocationAt(i) != LocationAt(n);
    }
  }
}
