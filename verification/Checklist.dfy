/** What the research checklist says about a reply: every field, every item and every note, read off the reply. */
module Checklist {
  import opened Text
  import opened Sequences
  import opened Domain
  import opened Research

  // --- Citations ------------------------------------------------------------------------------

  /** The j-th URL is the first of the list to name its search result. */
  ghost predicate FirstNaming(ev: Evidence, urls: seq<string>, j: int) {
    && 0 <= j < |urls| && Names(ev, urls[j])
    && forall i :: 0 <= i < j && Names(ev, urls[i]) ==> ev.norm(TrimSpace(urls[i])) != ev.norm(TrimSpace(urls[j]))
  }

  /** The citations are the results named first, second and no further, in the order of the URLs naming them. */
  ghost predicate CitesFirst(ev: Evidence, urls: seq<string>, citations: seq<Citation>) {
    exists at: seq<int> ::
      && Increasing(at) && (forall j :: FirstNaming(ev, urls, j) <==> j in at)
      && |citations| == (if |at| < 2 then |at| else 2)
      && forall i :: 0 <= i < |citations| ==>
           0 <= at[i] < |urls| && Names(ev, urls[at[i]]) &&
           citations[i] == ev.allowed[ev.norm(TrimSpace(urls[at[i]]))]
  }

  lemma MatchesAt(ev: Evidence, urls: seq<string>) returns (at: seq<int>)
    requires forall k <- ev.allowed :: ev.norm(ev.allowed[k].url) == k
    ensures Increasing(at) && |at| == |Matches(ev, urls)|
    ensures forall j :: FirstNaming(ev, urls, j) <==> j in at
    ensures forall i :: 0 <= i < |at| ==>
              0 <= at[i] < |urls| && Names(ev, urls[at[i]]) &&
              Matches(ev, urls)[i] == ev.allowed[ev.norm(TrimSpace(urls[at[i]]))]
  {
    var found := FilterMap(urls, Match(ev));
    var kept := FilterMapExact(urls, Match(ev));
    var first := FirstByKeyExact(found, UrlKey(ev));
    FirstInside(first, found, UrlKey(ev));
    NamedKey(ev, urls, found, kept);
    at := Compose(kept, first);
    hide *;
    forall j ensures FirstNaming(ev, urls, j) <==> j in at {
      NamingAt(ev, urls, found, kept, first, at, j);
    }
  }

  lemma NamingAt(
    ev: Evidence, urls: seq<string>, found: seq<Citation>, kept: seq<int>, first: seq<int>, at: seq<int>, j: int)
    requires |kept| == |found| && |at| == |first| && Increasing(kept)
    requires forall j :: 0 <= j < |urls| ==> (Names(ev, urls[j]) <==> j in kept)
    requires forall m :: 0 <= m < |kept| ==>
               0 <= kept[m] < |urls| && UrlKey(ev)(found[m]) == ev.norm(TrimSpace(urls[kept[m]]))
    requires forall m :: FirstAt(found, UrlKey(ev), m) <==> m in first
    requires forall i :: 0 <= i < |first| ==> 0 <= first[i] < |kept| && at[i] == kept[first[i]]
    ensures FirstNaming(ev, urls, j) <==> j in at
  {
    hide TrimSpace, Names, UrlKey, FirstAt;
    if 0 <= j < |urls| && Names(ev, urls[j]) {
      var m :| 0 <= m < |kept| && kept[m] == j;
      FirstOfFound(ev, urls, found, kept, m);
      if m in first {
        var i :| 0 <= i < |first| && first[i] == m;
        assert at[i] == j;
      }
      if j in at {
        var i :| 0 <= i < |at| && at[i] == j;
        assert first[i] in first && kept[first[i]] == kept[m];
      }
    }
  }

  /** What each matching URL found, filed under its own key. */
  lemma NamedKey(ev: Evidence, urls: seq<string>, found: seq<Citation>, kept: seq<int>)
    requires forall k <- ev.allowed :: ev.norm(ev.allowed[k].url) == k
    requires KeptAt(kept, urls, Match(ev)) && |kept| == |found|
    requires forall m :: 0 <= m < |kept| ==> Match(ev)(urls[kept[m]]) == Some(found[m])
    ensures forall j :: 0 <= j < |urls| ==> (Names(ev, urls[j]) <==> j in kept)
    ensures forall m :: 0 <= m < |kept| ==>
              && Names(ev, urls[kept[m]])
              && found[m] == ev.allowed[ev.norm(TrimSpace(urls[kept[m]]))]
              && UrlKey(ev)(found[m]) == ev.norm(TrimSpace(urls[kept[m]]))
  {
    hide TrimSpace;
  }

  lemma FirstOfFound(ev: Evidence, urls: seq<string>, found: seq<Citation>, kept: seq<int>, m: nat)
    requires m < |kept| == |found| && Increasing(kept)
    requires forall j :: 0 <= j < |urls| ==> (Names(ev, urls[j]) <==> j in kept)
    requires forall m :: 0 <= m < |kept| ==>
               0 <= kept[m] < |urls| && UrlKey(ev)(found[m]) == ev.norm(TrimSpace(urls[kept[m]]))
    ensures FirstNaming(ev, urls, kept[m]) <==> FirstAt(found, UrlKey(ev), m)
  {
    hide TrimSpace, Names, UrlKey;
    assert kept[m] in kept;
    if FirstAt(found, UrlKey(ev), m) {
      forall i | 0 <= i < kept[m] && Names(ev, urls[i])
        ensures ev.norm(TrimSpace(urls[i])) != ev.norm(TrimSpace(urls[kept[m]]))
      {
        var l :| 0 <= l < |kept| && kept[l] == i;
        assert l < m;
      }
    }
    if FirstNaming(ev, urls, kept[m]) {
      forall l | 0 <= l < m ensures UrlKey(ev)(found[l]) != UrlKey(ev)(found[m]) {
        assert kept[l] in kept;
      }
    }
  }

  lemma CitedExact(ev: Evidence, urls: seq<string>)
    requires forall k <- ev.allowed :: ev.norm(ev.allowed[k].url) == k
    ensures CitesFirst(ev, urls, Cited(ev, urls))
  {
    var at := MatchesAt(ev, urls);
    hide Matches, Names, FirstNaming, TrimSpace;
  }

  // --- Fields and items -----------------------------------------------------------------------

  /** The claim says something, and search returned one of its URLs. */
  ghost predicate Backed(ev: Evidence, claim: Claim) {
    !Blank(claim.value) && exists url <- claim.citations :: Names(ev, url)
  }

  /** A backed claim is kept, with its citations; any other leaves nothing. */
  ghost predicate FindingFor(ev: Evidence, claim: Claim, f: Finding) {
    if Backed(ev, claim)
    then f.value == TrimSpace(claim.value) && CitesFirst(ev, claim.citations, f.citations)
    else f.value == "" && f.citations == []
  }

  lemma FindingExact(ev: Evidence, results: seq<Citation>, claim: Claim)
    requires Indexed(ev, results)
    ensures FindingFor(ev, claim, FindingOf(ev, claim))
    ensures FindingOf(ev, claim).value != "" <==> Backed(ev, claim)
  {
    FindingsAreSupported(ev, results, claim);
    CitedExact(ev, claim.citations);
    hide CitesFirst, Cited, Names, TrimSpace;
  }

  /** The field's answer, by its text: a yes only if backed, and any other text means that nothing was found. */
  ghost predicate AnswerFor(ev: Evidence, raw: string, evidence: Claim, a: Answer) {
    var text := TrimSpace(ToLower(raw));
    && (a.tri == Yes <==> text == "yes" && Backed(ev, evidence))
    && (a.tri == NotApplicable <==> text == "not_applicable")
    && (if a.tri == Yes then FindingFor(ev, evidence, a.evidence) else a.evidence == NOTHING)
  }

  lemma AnswerExact(ev: Evidence, results: seq<Citation>, raw: string, evidence: Claim)
    requires Indexed(ev, results)
    ensures AnswerFor(ev, raw, evidence, TriOf(ev, raw, evidence))
  {
    FindingExact(ev, results, evidence);
    hide FindingFor, FindingOf, Backed;
  }

  ghost predicate ConcludedLawsuit(ev: Evidence, l: LawsuitClaim) {
    !Blank(l.outcome) && !Blank(l.resolutionDate) && Backed(ev, l.claim)
  }

  ghost predicate LabelledLocation(ev: Evidence, l: LocationClaim) {
    TrimSpace(ToLower(l.kind)) in {"headquarters", "operational"} && Backed(ev, l.claim)
  }

  /** The items kept are those at the positions `at`, in order. */
  ghost predicate BreachesFor(ev: Evidence, claims: seq<Claim>, kept: seq<Finding>) {
    exists at: seq<int> ::
      && Increasing(at) && |at| == |kept|
      && (forall j :: 0 <= j < |claims| ==> (j in at <==> Backed(ev, claims[j])))
      && forall i :: 0 <= i < |at| ==> 0 <= at[i] < |claims| && FindingFor(ev, claims[at[i]], kept[i])
  }

  ghost predicate LawsuitsFor(ev: Evidence, claims: seq<LawsuitClaim>, kept: seq<Lawsuit>) {
    exists at: seq<int> ::
      && Increasing(at) && |at| == |kept|
      && (forall j :: 0 <= j < |claims| ==> (j in at <==> ConcludedLawsuit(ev, claims[j])))
      && forall i :: 0 <= i < |at| ==>
           && 0 <= at[i] < |claims|
           && FindingFor(ev, claims[at[i]].claim, kept[i].finding)
           && kept[i].outcome == TrimSpace(claims[at[i]].outcome)
           && kept[i].resolutionDate == TrimSpace(claims[at[i]].resolutionDate)
  }

  ghost predicate LocationsFor(ev: Evidence, claims: seq<LocationClaim>, kept: seq<Location>) {
    exists at: seq<int> ::
      && Increasing(at) && |at| == |kept|
      && (forall j :: 0 <= j < |claims| ==> (j in at <==> LabelledLocation(ev, claims[j])))
      && forall i :: 0 <= i < |at| ==>
           && 0 <= at[i] < |claims|
           && FindingFor(ev, claims[at[i]].claim, kept[i].finding)
           && kept[i].kind == TrimSpace(ToLower(claims[at[i]].kind))
           && kept[i].country == TrimSpace(claims[at[i]].country) && kept[i].city == TrimSpace(claims[at[i]].city)
  }

  lemma BreachesExact(ev: Evidence, results: seq<Citation>, claims: seq<Claim>)
    requires Indexed(ev, results)
    ensures BreachesFor(ev, claims, FilterMap(claims, BreachOf(ev)))
  {
    var at := FilterMapExact(claims, BreachOf(ev));
    hide FindingOf, FindingFor, Backed;
    forall j | 0 <= j < |claims|
      ensures BreachOf(ev)(claims[j]).Some? <==> Backed(ev, claims[j])
      ensures BreachOf(ev)(claims[j]).Some? ==> FindingFor(ev, claims[j], BreachOf(ev)(claims[j]).value)
    {
      FindingExact(ev, results, claims[j]);
    }
  }

  lemma LawsuitsExact(ev: Evidence, results: seq<Citation>, claims: seq<LawsuitClaim>)
    requires Indexed(ev, results)
    ensures LawsuitsFor(ev, claims, FilterMap(claims, LawsuitOf(ev)))
  {
    var at := FilterMapExact(claims, LawsuitOf(ev));
    hide FindingOf, FindingFor, Backed, TrimSpace;
    forall j | 0 <= j < |claims|
      ensures LawsuitOf(ev)(claims[j]).Some? <==> ConcludedLawsuit(ev, claims[j])
      ensures LawsuitOf(ev)(claims[j]).Some? ==> FindingFor(ev, claims[j].claim, LawsuitOf(ev)(claims[j]).value.finding)
    {
      FindingExact(ev, results, claims[j].claim);
    }
  }

  lemma LocationsExact(ev: Evidence, results: seq<Citation>, claims: seq<LocationClaim>)
    requires Indexed(ev, results)
    ensures LocationsFor(ev, claims, FilterMap(claims, LocationOf(ev)))
  {
    var at := FilterMapExact(claims, LocationOf(ev));
    hide FindingOf, FindingFor, Backed, TrimSpace, ToLower;
    forall j | 0 <= j < |claims|
      ensures LocationOf(ev)(claims[j]).Some? <==> LabelledLocation(ev, claims[j])
      ensures LocationOf(ev)(claims[j]).Some? ==>
                FindingFor(ev, claims[j].claim, LocationOf(ev)(claims[j]).value.finding)
    {
      FindingExact(ev, results, claims[j].claim);
    }
  }

  // --- The whole result -----------------------------------------------------------------------

  ghost predicate FieldsFor(ev: Evidence, reply: ResearchReply, r: ResearchResult) {
    && FindingFor(ev, reply.supplierDescription, r.checklist.supplierDescription)
    && FindingFor(ev, reply.serviceDescription, r.checklist.serviceDescription)
    && FindingFor(ev, reply.serviceImplementation, r.checklist.serviceImplementation)
    && FindingFor(ev, reply.supplierWebsite, r.checklist.supplierWebsite)
    && FindingFor(ev, reply.serviceWebsite, r.checklist.serviceWebsite)
    && FindingFor(ev, reply.securityPage, r.checklist.securityPage)
    && FindingFor(ev, reply.notificationPage, r.checklist.notificationPage)
    && AnswerFor(ev, reply.usedKaspersky, reply.usedKasperskyEvidence, r.usedKaspersky)
    && AnswerFor(ev, reply.moveitImpacted, reply.moveitEvidence, r.moveit)
    && BreachesFor(ev, reply.pastBreaches, r.pastBreaches)
    && LawsuitsFor(ev, reply.cyberLawsuits, r.cyberLawsuits)
    && LocationsFor(ev, reply.locations, r.locations)
  }

  /** Each field of the result is what its own part of the reply amounts to; an undecodable reply has no result. */
  lemma ResultExact(norm: string -> string, decoded: Option<ResearchReply>, results: seq<Citation>)
    ensures Researched(norm, decoded, results).Some? <==> decoded.Some?
    ensures decoded.Some? ==>
      var r := Researched(norm, decoded, results).value;
      FieldsFor(Evidence(norm, Index(norm, results)), decoded.value, r) && r.searchResults == results
  {
    var ev := Evidence(norm, Index(norm, results));
    IndexIsIndexed(norm, results);
    if decoded.Some? {
      var reply := decoded.value;
      FindingExact(ev, results, reply.supplierDescription);
      FindingExact(ev, results, reply.serviceDescription);
      FindingExact(ev, results, reply.serviceImplementation);
      FindingExact(ev, results, reply.supplierWebsite);
      FindingExact(ev, results, reply.serviceWebsite);
      FindingExact(ev, results, reply.securityPage);
      FindingExact(ev, results, reply.notificationPage);
      AnswerExact(ev, results, reply.usedKaspersky, reply.usedKasperskyEvidence);
      AnswerExact(ev, results, reply.moveitImpacted, reply.moveitEvidence);
      BreachesExact(ev, results, reply.pastBreaches);
      LawsuitsExact(ev, results, reply.cyberLawsuits);
      LocationsExact(ev, results, reply.locations);
    }
    hide FindingFor, FindingOf, TriOf, AnswerFor, BreachOf, LawsuitOf, LocationOf;
    hide BreachesFor, LawsuitsFor, LocationsFor;
  }

  /** The index files under each URL the last search result that has it. */
  lemma {:induction false} LastResultWins(norm: string -> string, results: seq<Citation>, k: string)
    requires k in Index(norm, results)
    ensures exists i ::
      && 0 <= i < |results| && norm(results[i].url) == k && Index(norm, results)[k] == results[i]
      && forall j :: i < j < |results| ==> norm(results[j].url) != k
  {
    var n := |results| - 1;
    assert results != [];
    if norm(results[n].url) == k {
      assert k != "" by { IndexIsIndexed(norm, results); }
    } else {
      LastResultWins(norm, results[..n], k);
      var i :| 0 <= i < n && norm(results[..n][i].url) == k && Index(norm, results[..n])[k] == results[..n][i]
        && forall j :: i < j < n ==> norm(results[..n][j].url) != k;
      forall j | i < j < |results| ensures norm(results[j].url) != k {
        assert j < n ==> results[..n][j] == results[j];
      }
      assert results[..n][i] == results[i];
    }
  }

  // --- The notes ------------------------------------------------------------------------------

  const ANSWERS := {"yes", "no_evidence_found", "not_applicable"}

  function Wording(raw: string): string {
    TrimSpace(ToLower(raw))
  }

  /** The claim that stands at a place of the reply and was weighed there. */
  function ClaimAt(reply: ResearchReply, place: Place): Option<Claim> {
    match place
    case SupplierDescription => Some(reply.supplierDescription)
    case ServiceDescription => Some(reply.serviceDescription)
    case ServiceImplementation => Some(reply.serviceImplementation)
    case SupplierWebsite => Some(reply.supplierWebsite)
    case ServiceWebsite => Some(reply.serviceWebsite)
    case SecurityPage => Some(reply.securityPage)
    case NotificationPage => Some(reply.notificationPage)
    case PastBreach(i) => if i < |reply.pastBreaches| then Some(reply.pastBreaches[i]) else None
    case CyberLawsuit(i) =>
      if i < |reply.cyberLawsuits| && Concluded(reply.cyberLawsuits[i]) then Some(reply.cyberLawsuits[i].claim)
      else None
    case LocationAt(i) =>
      if i < |reply.locations| && Labelled(reply.locations[i]) then Some(reply.locations[i].claim) else None
    case EvidenceFor(answer) =>
      if answer == UsedKaspersky && Wording(reply.usedKaspersky) == "yes" then Some(reply.usedKasperskyEvidence)
      else if answer == MoveitImpacted && Wording(reply.moveitImpacted) == "yes" then Some(reply.moveitEvidence)
      else None
    case _ => None
  }

  /** The note is about its own place of the reply, and says what is so there. */
  ghost predicate Noted(ev: Evidence, reply: ResearchReply, d: Drop) {
    match d
    case NotInResults(place, url) =>
      var c := ClaimAt(reply, place);
      c.Some? && !Blank(c.value.value) && d in CitationDrops(ev, c.value.citations, place)
    case UncitedClaim(place) =>
      var c := ClaimAt(reply, place);
      c.Some? && !Blank(c.value.value) && !Backed(ev, c.value)
    case NotAnAnswer(place, raw) =>
      || (place == UsedKaspersky && raw == reply.usedKaspersky && Wording(raw) !in ANSWERS)
      || (place == MoveitImpacted && raw == reply.moveitImpacted && Wording(raw) !in ANSWERS)
    case UncitedYes(place) =>
      || (place == UsedKaspersky && Wording(reply.usedKaspersky) == "yes"
          && !Backed(ev, reply.usedKasperskyEvidence))
      || (place == MoveitImpacted && Wording(reply.moveitImpacted) == "yes"
          && !Backed(ev, reply.moveitEvidence))
    case NotConcluded(place) =>
      place.CyberLawsuit? && place.index < |reply.cyberLawsuits| && !Concluded(reply.cyberLawsuits[place.index])
    case NotLabelled(place) =>
      place.LocationAt? && place.index < |reply.locations| && !Labelled(reply.locations[place.index])
  }

  /** A note about one claim. */
  ghost predicate OfClaim(ev: Evidence, claim: Claim, place: Place, d: Drop) {
    && d.place == place && !Blank(claim.value)
    && ((d.NotInResults? && d in CitationDrops(ev, claim.citations, place)) ||
        (d.UncitedClaim? && !Backed(ev, claim)))
  }

  lemma ClaimNote(ev: Evidence, results: seq<Citation>, claim: Claim, place: Place, d: Drop)
    requires Indexed(ev, results)
    ensures d in FindingDrops(ev, claim, place) <==> OfClaim(ev, claim, place, d)
  {
    CitationDropsAreUrls(ev, claim.citations, place);
    FindingExact(ev, results, claim);
    hide CitationDrops, Cited, Backed, FindingFor;
  }

  lemma {:induction false} BreachNote(ev: Evidence, results: seq<Citation>, claims: seq<Claim>, d: Drop)
    requires Indexed(ev, results)
    ensures d in AllBreachDrops(ev, claims) <==>
      d.place.PastBreach? && d.place.index < |claims| && OfClaim(ev, claims[d.place.index], d.place, d)
  {
    if claims != [] {
      var n := |claims| - 1;
      BreachNote(ev, results, claims[..n], d);
      ClaimNote(ev, results, claims[n], PastBreach(n), d);
      OtherPlace(ev, claims[n], PastBreach(n), d);
      hide OfClaim, FindingDrops;
    }
  }

  lemma OtherPlace(ev: Evidence, claim: Claim, place: Place, d: Drop)
    ensures OfClaim(ev, claim, place, d) ==> d.place == place
  {}

  /** A note about one lawsuit. */
  ghost predicate OfLawsuit(ev: Evidence, l: LawsuitClaim, place: Place, d: Drop) {
    if Concluded(l) then OfClaim(ev, l.claim, place, d) else d == NotConcluded(place)
  }

  lemma OneLawsuitNote(ev: Evidence, results: seq<Citation>, l: LawsuitClaim, place: Place, d: Drop)
    requires Indexed(ev, results)
    ensures d in LawsuitDrops(ev, l, place) <==> OfLawsuit(ev, l, place, d)
    ensures OfLawsuit(ev, l, place, d) ==> d.place == place
  {
    ClaimNote(ev, results, l.claim, place, d);
    OtherPlace(ev, l.claim, place, d);
    hide OfClaim, FindingDrops, Concluded;
  }

  lemma {:induction false} LawsuitNote(ev: Evidence, results: seq<Citation>, ls: seq<LawsuitClaim>, d: Drop)
    requires Indexed(ev, results)
    ensures d in AllLawsuitDrops(ev, ls) <==>
      d.place.CyberLawsuit? && d.place.index < |ls| && OfLawsuit(ev, ls[d.place.index], d.place, d)
  {
    hide OfLawsuit, LawsuitDrops;
    if ls != [] {
      var n := |ls| - 1;
      LawsuitNote(ev, results, ls[..n], d);
      OneLawsuitNote(ev, results, ls[n], CyberLawsuit(n), d);
    }
  }

  /** A note about one location. */
  ghost predicate OfLocation(ev: Evidence, l: LocationClaim, place: Place, d: Drop) {
    if Labelled(l) then OfClaim(ev, l.claim, place, d) else d == NotLabelled(place)
  }

  lemma OneLocationNote(ev: Evidence, results: seq<Citation>, l: LocationClaim, place: Place, d: Drop)
    requires Indexed(ev, results)
    ensures d in LocationDrops(ev, l, place) <==> OfLocation(ev, l, place, d)
    ensures OfLocation(ev, l, place, d) ==> d.place == place
  {
    ClaimNote(ev, results, l.claim, place, d);
    OtherPlace(ev, l.claim, place, d);
    hide OfClaim, FindingDrops, Labelled;
  }

  lemma {:induction false} LocationNote(ev: Evidence, results: seq<Citation>, ls: seq<LocationClaim>, d: Drop)
    requires Indexed(ev, results)
    ensures d in AllLocationDrops(ev, ls) <==>
      d.place.LocationAt? && d.place.index < |ls| && OfLocation(ev, ls[d.place.index], d.place, d)
  {
    hide OfLocation, LocationDrops;
    if ls != [] {
      var n := |ls| - 1;
      LocationNote(ev, results, ls[..n], d);
      OneLocationNote(ev, results, ls[n], LocationAt(n), d);
    }
  }

  ghost predicate OfAnswer(ev: Evidence, raw: string, evidence: Claim, place: Place, d: Drop) {
    || (Wording(raw) !in ANSWERS && d == NotAnAnswer(place, raw))
    || (Wording(raw) == "yes" &&
        (OfClaim(ev, evidence, EvidenceFor(place), d) || (d == UncitedYes(place) && !Backed(ev, evidence))))
  }

  lemma AnswerWorded(raw: string)
    ensures AnswerOf(raw).None? <==> Wording(raw) !in ANSWERS
    ensures AnswerOf(raw) == Some(Yes) <==> Wording(raw) == "yes"
  {
    hide TrimSpace, ToLower;
  }

  lemma AnswerNote(ev: Evidence, results: seq<Citation>, raw: string, evidence: Claim, place: Place, d: Drop)
    requires Indexed(ev, results)
    ensures d in TriDrops(ev, raw, evidence, place) <==> OfAnswer(ev, raw, evidence, place, d)
  {
    ClaimNote(ev, results, evidence, EvidenceFor(place), d);
    FindingExact(ev, results, evidence);
    AnswerWorded(raw);
    hide OfClaim, FindingDrops, FindingOf, FindingFor, Backed, AnswerOf, Wording;
  }

  /** The note is about one of the seven single fields. */
  ghost predicate OfField(ev: Evidence, reply: ResearchReply, d: Drop) {
    || OfClaim(ev, reply.supplierDescription, SupplierDescription, d)
    || OfClaim(ev, reply.serviceDescription, ServiceDescription, d)
    || OfClaim(ev, reply.serviceImplementation, ServiceImplementation, d)
    || OfClaim(ev, reply.supplierWebsite, SupplierWebsite, d)
    || OfClaim(ev, reply.serviceWebsite, ServiceWebsite, d)
    || OfClaim(ev, reply.securityPage, SecurityPage, d)
    || OfClaim(ev, reply.notificationPage, NotificationPage, d)
  }

  lemma FieldNote(ev: Evidence, results: seq<Citation>, reply: ResearchReply, d: Drop)
    requires Indexed(ev, results)
    ensures d in ChecklistDrops(ev, reply) <==> OfField(ev, reply, d)
  {
    ClaimNote(ev, results, reply.supplierDescription, SupplierDescription, d);
    ClaimNote(ev, results, reply.serviceDescription, ServiceDescription, d);
    ClaimNote(ev, results, reply.serviceImplementation, ServiceImplementation, d);
    ClaimNote(ev, results, reply.supplierWebsite, SupplierWebsite, d);
    ClaimNote(ev, results, reply.serviceWebsite, ServiceWebsite, d);
    ClaimNote(ev, results, reply.securityPage, SecurityPage, d);
    ClaimNote(ev, results, reply.notificationPage, NotificationPage, d);
    hide OfClaim, FindingDrops;
  }

  /** A note is among those of a result exactly when what it says is so at its own place of the reply. */
  lemma NotesExact(ev: Evidence, reply: ResearchReply, results: seq<Citation>, d: Drop)
    requires Indexed(ev, results)
    ensures d in ResearchOf(ev, reply, results).dropped <==> Noted(ev, reply, d)
  {
    FieldNote(ev, results, reply, d);
    BreachNote(ev, results, reply.pastBreaches, d);
    LawsuitNote(ev, results, reply.cyberLawsuits, d);
    LocationNote(ev, results, reply.locations, d);
    AnswerNote(ev, results, reply.usedKaspersky, reply.usedKasperskyEvidence, UsedKaspersky, d);
    AnswerNote(ev, results, reply.moveitImpacted, reply.moveitEvidence, MoveitImpacted, d);
    PartsNoted(ev, reply, d);
    hide OfField, OfClaim, OfLawsuit, OfLocation, OfAnswer, Noted, Concluded, Labelled;
    hide FindingDrops, ChecklistDrops, AllBreachDrops, AllLawsuitDrops, AllLocationDrops, TriDrops;
  }

  lemma PartsNoted(ev: Evidence, reply: ResearchReply, d: Drop)
    ensures Noted(ev, reply, d) <==>
      || OfField(ev, reply, d)
      || (d.place.PastBreach? && d.place.index < |reply.pastBreaches| &&
          OfClaim(ev, reply.pastBreaches[d.place.index], d.place, d))
      || (d.place.CyberLawsuit? && d.place.index < |reply.cyberLawsuits| &&
          OfLawsuit(ev, reply.cyberLawsuits[d.place.index], d.place, d))
      || (d.place.LocationAt? && d.place.index < |reply.locations| &&
          OfLocation(ev, reply.locations[d.place.index], d.place, d))
      || OfAnswer(ev, reply.usedKaspersky, reply.usedKasperskyEvidence, UsedKaspersky, d)
      || OfAnswer(ev, reply.moveitImpacted, reply.moveitEvidence, MoveitImpacted, d)
  {
    hide Wording, Backed, CitationDrops, Concluded, Labelled, TrimSpace;
  }
}
