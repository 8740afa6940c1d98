/** BitSight: a domain is searched for, one company is picked, and its current rating is read. */
module BitSight {
  import opened Text
  import opened Sequences
  import opened Domain
  import opened Service
  import Fingerprint

  datatype Company = Company(guid: string, name: string, primaryDomain: string)

  datatype RatingEntry = RatingEntry(date: string, rating: int, range: string)

  /** The company page, as decoded. */
  datatype Detail = Detail(
    guid: string, name: string, primaryDomain: string, industry: string, displayUrl: string,
    industryMedian: string, currentRating: int, ratings: seq<RatingEntry>)

  /** What BitSight replies to a search and to a request for one company. */
  datatype Upstream = Upstream(search: string -> Reply<seq<Company>>, detail: string -> Reply<Detail>)

  function FirstNonEmpty(values: seq<string>): string {
    if values == [] then "" else
    if TrimSpace(values[0]) != "" then TrimSpace(values[0]) else FirstNonEmpty(values[1..])
  }

  // --- Which company --------------------------------------------------------------------------

  predicate Exact(c: Company, domain: string) {
    EqualFold(TrimSpace(c.primaryDomain), TrimSpace(domain))
  }

  function FirstExact(companies: seq<Company>, domain: string): Option<Company> {
    if companies == [] then None
    else if Exact(companies[0], domain) then Some(companies[0])
    else FirstExact(companies[1..], domain)
  }

  function Selected(companies: seq<Company>, domain: string): Company
    requires companies != []
  {
    match FirstExact(companies, domain) case Some(c) => c case None => companies[0]
  }

  function Other(chosen: Company): Company -> Option<string> {
    (c: Company) => if c.guid == chosen.guid then None else Some(c.name + " [" + c.primaryDomain + "]")
  }

  method SelectCompany(companies: seq<Company>, domain: string) returns (chosen: Company, alternatives: seq<string>)
    requires companies != []
    ensures chosen == Selected(companies, domain)
    ensures alternatives == FilterMap(companies, Other(chosen))
  {
    hide Exact;
    chosen := companies[0];
    var i := 0;
    while i < |companies| && !Exact(companies[i], domain)
      invariant i <= |companies|
      invariant FirstExact(companies, domain) == FirstExact(companies[i..], domain)
    {
      assert companies[i..][1..] == companies[i + 1..];
      i := i + 1;
    }
    if i < |companies| {
      chosen := companies[i];
    }
    alternatives := Others(companies, chosen);
  }

  method Others(companies: seq<Company>, chosen: Company) returns (alternatives: seq<string>)
    ensures alternatives == FilterMap(companies, Other(chosen))
  {
    alternatives := [];
    for i := 0 to |companies|
      invariant alternatives == FilterMap(companies[..i], Other(chosen))
    {
      assert companies[..i + 1] == companies[..i] + [companies[i]];
      FilterMapSnoc(companies[..i], companies[i], Other(chosen));
      if companies[i].guid != chosen.guid {
        alternatives := alternatives + [companies[i].name + " [" + companies[i].primaryDomain + "]"];
      }
    }
    assert companies[..|companies|] == companies;
  }

  /** The pick is the first company whose own domain is the one searched for, if any; else the first of all. */
  lemma {:induction false} SelectedIsFirstExact(companies: seq<Company>, domain: string) returns (i: nat)
    requires companies != []
    ensures i < |companies| && Selected(companies, domain) == companies[i]
    ensures if exists c <- companies :: Exact(c, domain)
            then Exact(companies[i], domain) && forall j :: 0 <= j < i ==> !Exact(companies[j], domain)
            else i == 0
  {
    hide Exact;
    FirstExactAny(companies, domain);
    var rest := companies[1..];
    assert companies == [companies[0]] + rest;
    if Exact(companies[0], domain) || rest == [] {
      i := 0;
    } else {
      var k := SelectedIsFirstExact(rest, domain);
      FirstExactAny(rest, domain);
      i := if exists c <- rest :: Exact(c, domain) then k + 1 else 0;
    }
  }

  lemma {:induction false} FirstExactAny(companies: seq<Company>, domain: string)
    ensures FirstExact(companies, domain).Some? <==> exists c <- companies :: Exact(c, domain)
  {
    hide Exact;
    if companies != [] {
      FirstExactAny(companies[1..], domain);
      assert companies == [companies[0]] + companies[1..];
    }
  }

  // --- The rating -----------------------------------------------------------------------------

  /** Latest date first. */
  predicate LaterFirst(a: RatingEntry, b: RatingEntry) {
    StringLeq(b.date, a.date)
  }

  /** The current rating, dated and banded by the latest entry; None when the page carries neither. */
  function RatingOf(d: Detail): Option<Rating> {
    if d.currentRating == 0 && d.ratings == [] then None else
    var latest := if d.ratings == [] then RatingEntry("", 0, "") else StableSort(d.ratings, LaterFirst)[0];
    Some(Rating(
      d.name, d.guid, d.primaryDomain, d.industry,
      if d.currentRating == 0 then latest.rating else d.currentRating,
      latest.range, latest.date, d.industryMedian, d.displayUrl, "", []))
  }

  lemma LaterFirstOrders()
    ensures Ordering(LaterFirst)
  {
    forall a: RatingEntry, b: RatingEntry ensures LaterFirst(a, b) || LaterFirst(b, a) {
      StringLeqTotal(a.date, b.date);
    }
    forall a: RatingEntry, b: RatingEntry, c: RatingEntry | LaterFirst(a, b) && LaterFirst(b, c)
      ensures LaterFirst(a, c)
    {
      StringLeqTransitive(c.date, b.date, a.date);
    }
  }

  /** However the series arrives, date and band are those of an entry no other is later than. */
  lemma RatingIsCurrent(d: Detail)
    requires d.ratings != []
    ensures RatingOf(d).Some?
    ensures exists e <- d.ratings ::
      && e.date == RatingOf(d).value.date && e.range == RatingOf(d).value.range
      && (forall other <- d.ratings :: StringLeq(other.date, e.date))
      && RatingOf(d).value.rating == if d.currentRating == 0 then e.rating else d.currentRating
  {
    var sorted := StableSort(d.ratings, LaterFirst);
    LaterFirstOrders();
    StableSortSorts(d.ratings, LaterFirst);
    assert |multiset(sorted)| == |sorted| && |multiset(d.ratings)| == |d.ratings|;
    var e := sorted[0];
    assert e in multiset(sorted) && e in multiset(d.ratings);
    forall other <- d.ratings ensures StringLeq(other.date, e.date) {
      assert other in multiset(d.ratings) && other in multiset(sorted);
      var i :| 0 <= i < |sorted| && sorted[i] == other;
      assert i > 0 ==> LaterFirst(sorted[0], sorted[i]);
      StringLeqTotal(e.date, e.date);
    }
  }

  // --- The section ----------------------------------------------------------------------------

  function RatingSection(u: Upstream, domain: string, company: Company, alternatives: seq<string>): Section {
    match u.detail(company.guid)
    case Answered(detail) =>
      (match RatingOf(detail)
       case None => FailedSection(Fingerprint.BITSIGHT, "rating for company " + company.guid + ": no rating")
       case Some(rating) =>
         var full := rating.(queriedDomain := domain, alternatives := alternatives);
         OkSection(Fingerprint.BITSIGHT, BitSightData(full),
                   if full.reportUrl == "" then []
                   else [Citation("BitSight company page - " + full.companyName, full.reportUrl)]))
    case error => FailedSection(Fingerprint.BITSIGHT, Reason(error))
  }

  /** BitSight's Fetch: a function of the entity and the replies. */
  function BitSightFetch(u: Upstream, ent: Entity): Fetched {
    var domain := FirstNonEmpty(ent.domains);
    if domain == "" then
      Fetched([], SkippedSection(
        Fingerprint.BITSIGHT, "no domain resolved for this vendor; BitSight is keyed on domain"))
    else
      var found := u.search(domain);
      var calls := [CompanySearch(domain)];
      if !found.Answered? then Fetched(calls, FailedSection(Fingerprint.BITSIGHT, Reason(found)))
      else if exists c <- found.value :: Blank(c.guid) then
        Fetched(calls, FailedSection(Fingerprint.BITSIGHT, "company search for " + domain + ": a result has no guid"))
      else if found.value == [] then
        Fetched(calls, SkippedSection(Fingerprint.BITSIGHT, "no BitSight company matches domain " + domain))
      else
        var company := Selected(found.value, domain);
        Fetched(calls + [CompanyDetail(company.guid)],
                RatingSection(u, domain, company, FilterMap(found.value, Other(company))))
  }

  method Fetch(u: Upstream, ent: Entity) returns (section: Section, calls: seq<Call>)
    ensures Fetched(calls, section) == BitSightFetch(u, ent)
  {
    var domain := FirstNonEmpty(ent.domains);
    if domain == "" {
      return SkippedSection(
          Fingerprint.BITSIGHT, "no domain resolved for this vendor; BitSight is keyed on domain"), [];
    }
    var found := u.search(domain);
    calls := [CompanySearch(domain)];
    if !found.Answered? {
      return FailedSection(Fingerprint.BITSIGHT, Reason(found)), calls;
    }
    if exists c <- found.value :: Blank(c.guid) {
      return FailedSection(Fingerprint.BITSIGHT, "company search for " + domain + ": a result has no guid"), calls;
    }
    if |found.value| == 0 {
      return SkippedSection(Fingerprint.BITSIGHT, "no BitSight company matches domain " + domain), calls;
    }
    var company, alternatives := SelectCompany(found.value, domain);
    calls := calls + [CompanyDetail(company.guid)];
    section := RatingSection(u, domain, company, alternatives);
  }

  // --- What the section says ------------------------------------------------------------------

  /** The domain asked about is the first that is not blank. */
  ghost predicate FirstDomain(domains: seq<string>, i: int) {
    0 <= i < |domains| && !Blank(domains[i]) && forall j :: 0 <= j < i ==> Blank(domains[j])
  }

  lemma {:induction false} FirstNonEmptyExact(domains: seq<string>)
    ensures if exists d <- domains :: !Blank(d)
            then exists i :: FirstDomain(domains, i) && FirstNonEmpty(domains) == TrimSpace(domains[i])
            else FirstNonEmpty(domains) == ""
  {
    hide TrimSpace;
    if domains != [] {
      assert domains == [domains[0]] + domains[1..];
      if !Blank(domains[0]) {
        assert FirstDomain(domains, 0);
      } else {
        FirstNonEmptyExact(domains[1..]);
        if exists d <- domains :: !Blank(d) {
          var i :| FirstDomain(domains[1..], i) && FirstNonEmpty(domains[1..]) == TrimSpace(domains[1..][i]);
          assert forall j :: 1 <= j < |domains| ==> domains[j] == domains[1..][j - 1];
          assert FirstDomain(domains, i + 1);
        }
      }
    }
  }

  /** The company whose page is read: the first whose own domain is this one, or the first of all. */
  ghost predicate Picked(companies: seq<Company>, domain: string, i: int) {
    && 0 <= i < |companies|
    && if exists c <- companies :: EqualFold(TrimSpace(c.primaryDomain), TrimSpace(domain))
       then EqualFold(TrimSpace(companies[i].primaryDomain), TrimSpace(domain)) &&
            forall j :: 0 <= j < i ==> !EqualFold(TrimSpace(companies[j].primaryDomain), TrimSpace(domain))
       else i == 0
  }

  /** The rating repeats the company's page: its own score, or else the latest entry's, with that entry's date. */
  ghost predicate Repeats(r: Rating, d: Detail) {
    && r.companyName == d.name && r.companyGuid == d.guid && r.primaryDomain == d.primaryDomain
    && r.industry == d.industry && r.industryMedian == d.industryMedian && r.reportUrl == d.displayUrl
    && if d.ratings == [] then r.rating == d.currentRating && r.date == "" && r.range == ""
       else exists e <- d.ratings ::
         && r.date == e.date && r.range == e.range
         && r.rating == (if d.currentRating == 0 then e.rating else d.currentRating)
         && forall other <- d.ratings :: other.date == e.date || Precedes(other.date, e.date)
  }

  lemma RatingExact(d: Detail)
    ensures RatingOf(d).None? <==> d.currentRating == 0 && d.ratings == []
    ensures RatingOf(d).Some? ==> Repeats(RatingOf(d).value, d)
  {
    if d.ratings != [] {
      RatingIsCurrent(d);
      var r := RatingOf(d).value;
      hide StableSort;
      var e :| e in d.ratings && e.date == r.date && e.range == r.range
        && (forall other <- d.ratings :: StringLeq(other.date, e.date))
        && r.rating == if d.currentRating == 0 then e.rating else d.currentRating;
      forall other <- d.ratings ensures other.date == e.date || Precedes(other.date, e.date) {
        StringLeqExact(other.date, e.date);
      }
    }
  }

  /** The names of the companies that were found and not picked, in order. */
  ghost predicate NamesOthers(alternatives: seq<string>, companies: seq<Company>, guid: string) {
    exists at: seq<int> ::
      && Increasing(at) && |at| == |alternatives|
      && (forall k :: 0 <= k < |companies| ==> (companies[k].guid != guid <==> k in at))
      && forall i :: 0 <= i < |at| ==>
           0 <= at[i] < |companies| &&
           alternatives[i] == companies[at[i]].name + " [" + companies[at[i]].primaryDomain + "]"
  }

  /** The section once a company has been picked, and its page has been asked for. */
  ghost predicate Rated(section: Section, u: Upstream, domain: string, companies: seq<Company>, i: int)
    requires 0 <= i < |companies|
  {
    var reply := u.detail(companies[i].guid);
    if !reply.Answered? || (reply.value.currentRating == 0 && reply.value.ratings == [])
    then section.status == Failed && section.data.NoData?
    else
      && section.status == OK && section.data.BitSightData?
      && var r := section.data.rating;
      && Repeats(r.(queriedDomain := "", alternatives := []), reply.value)
      && (if r.reportUrl == "" then section.citations == []
          else |section.citations| == 1 && section.citations[0].url == r.reportUrl)
      && r.queriedDomain == domain && NamesOthers(r.alternatives, companies, companies[i].guid)
  }

  /** What was asked and what came of it, step by step. */
  ghost predicate Outcome(u: Upstream, domains: seq<string>, f: Fetched) {
    if forall d <- domains :: Blank(d) then f.calls == [] && f.section.status == Skipped
    else exists k :: FirstDomain(domains, k) && Searched(u, TrimSpace(domains[k]), f)
  }

  ghost predicate Searched(u: Upstream, domain: string, f: Fetched) {
    var found := u.search(domain);
    if !found.Answered? || (exists c <- found.value :: Blank(c.guid))
    then f.calls == [CompanySearch(domain)] && f.section.status == Failed && f.section.data.NoData?
    else if found.value == [] then f.calls == [CompanySearch(domain)] && f.section.status == Skipped
    else exists i ::
      && Picked(found.value, domain, i)
      && f.calls == [CompanySearch(domain), CompanyDetail(found.value[i].guid)]
      && Rated(f.section, u, domain, found.value, i)
  }

  lemma FetchExact(u: Upstream, ent: Entity)
    ensures Outcome(u, ent.domains, BitSightFetch(u, ent))
    ensures BitSightFetch(u, ent).section.source == Fingerprint.BITSIGHT
  {
    FirstNonEmptyExact(ent.domains);
    if exists d <- ent.domains :: !Blank(d) {
      var k :| FirstDomain(ent.domains, k) && FirstNonEmpty(ent.domains) == TrimSpace(ent.domains[k]);
      SearchedExact(u, ent, TrimSpace(ent.domains[k]));
    }
    SourceNamed(u, ent);
    hide BitSightFetch, Searched, TrimSpace;
  }

  lemma SourceNamed(u: Upstream, ent: Entity)
    ensures BitSightFetch(u, ent).section.source == Fingerprint.BITSIGHT
    ensures FirstNonEmpty(ent.domains) == "" ==>
              BitSightFetch(u, ent).calls == [] && BitSightFetch(u, ent).section.status == Skipped
  {
    hide Selected, RatingOf, Other, FirstNonEmpty;
  }

  lemma SearchedExact(u: Upstream, ent: Entity, domain: string)
    requires FirstNonEmpty(ent.domains) == domain != ""
    ensures Searched(u, domain, BitSightFetch(u, ent))
  {
    hide Selected, RatingSection, Rated, Other, TrimSpace, FilterMap, RatingOf, FirstNonEmpty;
    var found := u.search(domain);
    if found.Answered? && found.value != [] && forall c <- found.value :: !Blank(c.guid) {
      var i := SelectedIsFirstExact(found.value, domain);
      assert Picked(found.value, domain, i);
      RatedExact(u, domain, found.value, i);
      hide Picked;
      assert BitSightFetch(u, ent).calls == [CompanySearch(domain), CompanyDetail(found.value[i].guid)];
    }
  }

  lemma RatedExact(u: Upstream, domain: string, companies: seq<Company>, i: nat)
    requires i < |companies|
    ensures Rated(RatingSection(u, domain, companies[i], FilterMap(companies, Other(companies[i]))),
                  u, domain, companies, i)
  {
    var others := FilterMap(companies, Other(companies[i]));
    OthersExact(companies, companies[i]);
    RatingSectionIs(u, domain, companies[i], others);
    var reply := u.detail(companies[i].guid);
    if reply.Answered? {
      RatingExact(reply.value);
      RatingBlank(reply.value);
      RatingRestored(reply.value, domain, others);
    }
    hide RatingOf, RatingSection, Repeats, Other, FilterMap, NamesOthers;
  }

  lemma RatingSectionIs(u: Upstream, domain: string, company: Company, alternatives: seq<string>)
    ensures var reply, section := u.detail(company.guid), RatingSection(u, domain, company, alternatives);
      if !reply.Answered? || RatingOf(reply.value).None? then section.status == Failed && section.data.NoData?
      else
        var full := RatingOf(reply.value).value.(queriedDomain := domain, alternatives := alternatives);
        && section.status == OK && section.data == BitSightData(full)
        && (if full.reportUrl == "" then section.citations == []
            else |section.citations| == 1 && section.citations[0].url == full.reportUrl)
  {
    hide RatingOf;
  }

  lemma RatingRestored(d: Detail, domain: string, alternatives: seq<string>)
    ensures RatingOf(d).Some? ==>
      var r := RatingOf(d).value;
      r.(queriedDomain := domain, alternatives := alternatives).(queriedDomain := "", alternatives := []) == r
  {
    RatingBlank(d);
    hide RatingOf;
  }

  lemma RatingBlank(d: Detail)
    ensures RatingOf(d).Some? ==> RatingOf(d).value.queriedDomain == "" && RatingOf(d).value.alternatives == []
  {}

  lemma OthersExact(companies: seq<Company>, chosen: Company)
    ensures NamesOthers(FilterMap(companies, Other(chosen)), companies, chosen.guid)
  {
    var at := FilterMapExact(companies, Other(chosen));
  }
}
