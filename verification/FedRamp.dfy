/** FedRAMP: the marketplace listing's field assignments, grouped into records and matched by vendor name. */
module FedRamp {
  import opened Sequences
  import opened Domain
  import opened Service
  import opened Vendor
  import Fingerprint

  const PRODUCT_URL := "https://www.fedramp.gov/marketplace/products/"

  datatype Field = Id | Csp | Cso | Status | Phase | AuthType | AuthCategory | ImpactLevel

  /** One `name.field="value"` of the page, as the lexer finds it. */
  datatype Assignment = Assignment(name: string, field: Field, value: string)

  /** The listing's reply, and the floor below which its parse is taken to be broken. */
  datatype Upstream = Upstream(listing: Reply<seq<Assignment>>, minRecords: nat, url: string)

  const BLANK := Offering("", "", "", "", "", "", "", "", "", "")

  function Set(o: Offering, field: Field, value: string): Offering {
    match field
    case Id => o.(id := value)
    case Csp => o.(provider := value)
    case Cso => o.(offering := value)
    case Status => o.(status := value)
    case Phase => o.(phase := value)
    case AuthType => o.(authType := value)
    case AuthCategory => o.(authCategory := value)
    case ImpactLevel => o.(impactLevel := value)
  }

  function Get(o: Offering, field: Field): string {
    match field
    case Id => o.id
    case Csp => o.provider
    case Cso => o.offering
    case Status => o.status
    case Phase => o.phase
    case AuthType => o.authType
    case AuthCategory => o.authCategory
    case ImpactLevel => o.impactLevel
  }

  // --- Grouping -------------------------------------------------------------------------------

  function Names(assignments: seq<Assignment>): seq<string> {
    seq(|assignments|, i requires 0 <= i < |assignments| => assignments[i].name)
  }

  /** The record variables, in the order the page first mentions them. */
  function Order(assignments: seq<Assignment>): seq<string> {
    FirstByKey(Names(assignments), Itself)
  }

  function Itself(name: string): string { name }

  /** The record one variable accumulates. */
  function RecordOf(assignments: seq<Assignment>, name: string): Offering {
    if assignments == [] then BLANK else
    var last := assignments[|assignments| - 1];
    var before := RecordOf(assignments[..|assignments| - 1], name);
    if last.name == name then Set(before, last.field, last.value) else before
  }

  function ProductUrl(id: string): string {
    if id == "" then "" else PRODUCT_URL + id + "/"
  }

  /** A record with its own page's address; None unless it has both a provider and an offering. */
  function Accepted(r: Offering): Option<Offering> {
    if r.provider == "" || r.offering == "" then None else Some(r.(url := ProductUrl(r.id)))
  }

  function Listed(assignments: seq<Assignment>): string -> Option<Offering> {
    name => Accepted(RecordOf(assignments, name))
  }

  /** The listing's records; None when there are too few to be the whole marketplace. */
  function Records(assignments: seq<Assignment>, minRecords: nat): Option<seq<Offering>> {
    var records := FilterMap(Order(assignments), Listed(assignments));
    if |records| < minRecords then None else Some(records)
  }

  lemma OneMoreAssignment(assignments: seq<Assignment>, i: nat)
    requires i < |assignments|
    ensures var name := assignments[i].name;
            var before := Order(assignments[..i]);
            Order(assignments[..i + 1]) == if name in before then before else before + [name]
    ensures forall name :: RecordOf(assignments[..i + 1], name) ==
              if name == assignments[i].name
              then Set(RecordOf(assignments[..i], name), assignments[i].field, assignments[i].value)
              else RecordOf(assignments[..i], name)
  {
    var name, before := assignments[i].name, Order(assignments[..i]);
    assert assignments[..i + 1][..i] == assignments[..i];
    assert Names(assignments[..i + 1]) == Names(assignments[..i]) + [name];
    FirstByKeySnoc(Names(assignments[..i]), name, Itself);
    assert HasKey(before, Itself, name) <==> name in before by {
      if name in before {
        var j :| 0 <= j < |before| && before[j] == name;
        assert Itself(before[j]) == name;
      }
    }
  }

  lemma {:induction false} Unmentioned(assignments: seq<Assignment>, name: string)
    requires name !in Order(assignments)
    ensures RecordOf(assignments, name) == BLANK
  {
    if assignments != [] {
      var n := |assignments| - 1;
      OneMoreAssignment(assignments, n);
      assert assignments[..n + 1] == assignments;
      Unmentioned(assignments[..n], name);
    }
  }

  method ParseRecords(assignments: seq<Assignment>, minRecords: nat) returns (records: Option<seq<Offering>>)
    ensures records == Records(assignments, minRecords)
  {
    hide Order, RecordOf, Accepted;
    var byVar, order := Accumulate(assignments);
    assert FilterMap(order[..0], Listed(assignments)) == [];
    hide FilterMap;
    var kept: seq<Offering> := [];
    for i := 0 to |order|
      invariant kept == FilterMap(order[..i], Listed(assignments))
    {
      assert order[..i + 1] == order[..i] + [order[i]];
      FilterMapSnoc(order[..i], order[i], Listed(assignments));
      assert order[i] in order;
      var rec := Accepted(byVar[order[i]]);
      if rec.Some? {
        kept := kept + [rec.value];
      }
    }
    assert order[..|order|] == order;
    records := if |kept| < minRecords then None else Some(kept);
  }

  /** The grouping loop: a map from variable to record, and the variables in first-mention order. */
  method Accumulate(assignments: seq<Assignment>) returns (byVar: map<string, Offering>, order: seq<string>)
    ensures order == Order(assignments)
    ensures forall name <- order :: name in byVar && byVar[name] == RecordOf(assignments, name)
  {
    byVar, order := map[], [];
    assert Order(assignments[..0]) == [];
    hide Set, Order, RecordOf;
    for i := 0 to |assignments|
      invariant order == Order(assignments[..i])
      invariant forall name :: name in byVar <==> name in order
      invariant forall name <- order :: byVar[name] == RecordOf(assignments[..i], name)
    {
      var a := assignments[i];
      OneMoreAssignment(assignments, i);
      if a.name !in byVar {
        Unmentioned(assignments[..i], a.name);
        byVar := byVar[a.name := BLANK];
        order := order + [a.name];
      }
      byVar := byVar[a.name := Set(byVar[a.name], a.field, a.value)];
    }
    assert assignments[..|assignments|] == assignments;
  }

  /** The value last assigned to a field of a variable; "" when none was. */
  function LastValue(assignments: seq<Assignment>, name: string, field: Field): string {
    if assignments == [] then "" else
    var last := assignments[|assignments| - 1];
    if last.name == name && last.field == field then last.value
    else LastValue(assignments[..|assignments| - 1], name, field)
  }

  /** However the groups interleave, every field of a record holds the value last assigned to it. */
  lemma {:induction false} LastAssignmentWins(assignments: seq<Assignment>, name: string, field: Field)
    ensures Get(RecordOf(assignments, name), field) == LastValue(assignments, name, field)
  {
    if assignments != [] {
      LastAssignmentWins(assignments[..|assignments| - 1], name, field);
    }
  }

  // --- Matching -------------------------------------------------------------------------------

  /** The position of the first name that means the provider. */
  function MatchAt(names: seq<string>, provider: string): Option<nat> {
    if names == [] then None
    else if NormalizeVendorName(names[0]) == provider then Some(0)
    else match MatchAt(names[1..], provider) case None => None case Some(i) => Some(i + 1)
  }

  /** The record as matched: it names the alias that found it, unless the canonical name did. */
  function Matched(names: seq<string>): Offering -> Option<Offering> {
    (r: Offering) =>
      var provider := NormalizeVendorName(r.provider);
      if provider == "" then None else
      match MatchAt(names, provider)
      case None => None
      case Some(i) => if 0 < i < |names| then Some(r.(matchedAlias := names[i])) else Some(r)
  }

  lemma {:induction false} MatchAtFirst(names: seq<string>, provider: string)
    ensures match MatchAt(names, provider)
            case None => forall n <- names :: NormalizeVendorName(n) != provider
            case Some(i) =>
              && i < |names| && NormalizeVendorName(names[i]) == provider
              && forall j :: 0 <= j < i ==> NormalizeVendorName(names[j]) != provider
  {
    hide NormalizeVendorName;
    if names != [] {
      MatchAtFirst(names[1..], provider);
      assert names == [names[0]] + names[1..];
    }
  }

  method MatchOne(names: seq<string>, r: Offering) returns (matched: Option<Offering>)
    ensures matched == Matched(names)(r)
  {
    hide NormalizeVendorName;
    var provider := NormalizeVendorName(r.provider);
    if provider == "" {
      return None;
    }
    var i := 0;
    while i < |names| && NormalizeVendorName(names[i]) != provider
      invariant i <= |names|
      invariant forall j :: 0 <= j < i ==> NormalizeVendorName(names[j]) != provider
    {
      i := i + 1;
    }
    MatchAtFirst(names, provider);
    if i == |names| {
      return None;
    }
    assert names[i] in names;
    matched := Some(if i > 0 then r.(matchedAlias := names[i]) else r);
  }

  method MatchOfferings(records: seq<Offering>, names: seq<string>) returns (matched: seq<Offering>)
    ensures matched == FilterMap(records, Matched(names))
  {
    hide Matched;
    matched := [];
    for i := 0 to |records|
      invariant matched == FilterMap(records[..i], Matched(names))
    {
      assert records[..i + 1] == records[..i] + [records[i]];
      FilterMapSnoc(records[..i], records[i], Matched(names));
      var m := MatchOne(names, records[i]);
      if m.Some? {
        matched := matched + [m.value];
      }
    }
    assert records[..|records|] == records;
  }

  /** A record is reported exactly when its provider is one of the names, and says which name when not the first. */
  lemma MatchedExactly(names: seq<string>, r: Offering)
    requires DistinctKeys(names, NormalizeVendorName) && r.matchedAlias == ""
    ensures var provider := NormalizeVendorName(r.provider);
      && (Matched(names)(r).Some? <==> provider != "" && HasKey(names, NormalizeVendorName, provider))
      && (Matched(names)(r).Some? ==>
            var m := Matched(names)(r).value;
            && m.(matchedAlias := "") == r
            && forall i :: 0 <= i < |names| && NormalizeVendorName(names[i]) == provider ==>
                 m.matchedAlias == if i == 0 then "" else names[i])
  {
    var provider := NormalizeVendorName(r.provider);
    MatchAtFirst(names, provider);
    hide NormalizeVendorName;
    if HasKey(names, NormalizeVendorName, provider) {
      var i :| 0 <= i < |names| && NormalizeVendorName(names[i]) == provider;
      assert names[i] in names;
    }
  }

  // --- The section ----------------------------------------------------------------------------

  function SectionFor(u: Upstream, names: seq<string>): Section {
    match u.listing
    case Answered(assignments) =>
      (match Records(assignments, u.minRecords)
       case None => FailedSection(Fingerprint.FEDRAMP, "the listing page layout has changed")
       case Some(records) =>
         OkSection(Fingerprint.FEDRAMP,
                   FedRampData(FedRampResult(FilterMap(records, Matched(names)), names, |records|)),
                   [Citation("FedRAMP Marketplace", u.url)]))
    case error => FailedSection(Fingerprint.FEDRAMP, Reason(error))
  }

  /** FedRAMP's Fetch: one request whatever the vendor, and a section that depends on its names. */
  function FedRampFetch(u: Upstream, q: Query, ent: Entity): Fetched {
    Fetched([Marketplace], SectionFor(u, VendorNames(q, ent)))
  }

  method Fetch(u: Upstream, q: Query, ent: Entity) returns (section: Section, calls: seq<Call>)
    ensures Fetched(calls, section) == FedRampFetch(u, q, ent)
  {
    hide Records, Matched;
    calls := [Marketplace];
    if !u.listing.Answered? {
      return FailedSection(Fingerprint.FEDRAMP, Reason(u.listing)), calls;
    }
    var records := ParseRecords(u.listing.value, u.minRecords);
    if records.None? {
      return FailedSection(Fingerprint.FEDRAMP, "the listing page layout has changed"), calls;
    }
    var names := CollectVendorNames(q, ent);
    var offerings := MatchOfferings(records.value, names);
    section := OkSection(Fingerprint.FEDRAMP, FedRampData(FedRampResult(offerings, names, |records.value|)),
                         [Citation("FedRAMP Marketplace", u.url)]);
  }

  /** The section of a readable listing holds exactly the offerings of the vendor's names. */
  lemma SectionExact(u: Upstream, q: Query, ent: Entity, r: Offering)
    requires u.listing.Answered? && Records(u.listing.value, u.minRecords).Some?
    requires r in Records(u.listing.value, u.minRecords).value
    ensures var section := FedRampFetch(u, q, ent).section;
      && section.status == OK && section.data.FedRampData?
      && section.data.fedramp.searched == VendorNames(q, ent)
      && (Offered(section.data.fedramp.offerings, r) <==>
            NormalizeVendorName(r.provider) != "" &&
            HasKey(VendorNames(q, ent), NormalizeVendorName, NormalizeVendorName(r.provider)))
  {
    VendorNamesCover(q, ent);
    NamedSectionExact(u, VendorNames(q, ent), r);
    hide *;
    FetchedSection(u, q, ent);
  }

  lemma FetchedSection(u: Upstream, q: Query, ent: Entity)
    ensures FedRampFetch(u, q, ent).section == SectionFor(u, VendorNames(q, ent))
  {}

  lemma NamedSectionExact(u: Upstream, names: seq<string>, r: Offering)
    requires DistinctKeys(names, NormalizeVendorName)
    requires u.listing.Answered? && Records(u.listing.value, u.minRecords).Some?
    requires r in Records(u.listing.value, u.minRecords).value
    ensures var section := SectionFor(u, names);
      && section.status == OK && section.data.FedRampData?
      && section.data.fedramp.searched == names
      && (Offered(section.data.fedramp.offerings, r) <==>
            NormalizeVendorName(r.provider) != "" &&
            HasKey(names, NormalizeVendorName, NormalizeVendorName(r.provider)))
  {
    hide *;
    var records := Records(u.listing.value, u.minRecords).value;
    forall other <- records ensures other.matchedAlias == "" {
      RecordsUnmatched(u.listing.value, u.minRecords, other);
    }
    OfferedExactly(names, records, r);
    SectionReadable(u, names);
  }

  lemma SectionReadable(u: Upstream, names: seq<string>)
    requires u.listing.Answered? && Records(u.listing.value, u.minRecords).Some?
    ensures var section, records := SectionFor(u, names), Records(u.listing.value, u.minRecords).value;
      && section.status == OK
      && section.data == FedRampData(FedRampResult(FilterMap(records, Matched(names)), names, |records|))
  {
    hide Records, Matched;
  }

  /** The record is among the offerings, whatever alias found it. */
  ghost predicate Offered(offerings: seq<Offering>, r: Offering) {
    exists m <- offerings :: m.(matchedAlias := "") == r
  }

  lemma OfferedExactly(names: seq<string>, records: seq<Offering>, r: Offering)
    requires DistinctKeys(names, NormalizeVendorName)
    requires r in records && forall other <- records :: other.matchedAlias == ""
    ensures Offered(FilterMap(records, Matched(names)), r) <==>
            NormalizeVendorName(r.provider) != "" &&
            HasKey(names, NormalizeVendorName, NormalizeVendorName(r.provider))
  {
    FilterMapMembers(records, Matched(names));
    MatchedExactly(names, r);
    hide Matched, NormalizeVendorName;
    var i :| 0 <= i < |records| && records[i] == r;
    if Offered(FilterMap(records, Matched(names)), r) {
      var m :| m in FilterMap(records, Matched(names)) && m.(matchedAlias := "") == r;
      var j :| 0 <= j < |records| && Matched(names)(records[j]) == Some(m);
      assert records[j] in records;
      MatchedExactly(names, records[j]);
    }
  }

  lemma RecordsUnmatched(assignments: seq<Assignment>, minRecords: nat, r: Offering)
    requires Records(assignments, minRecords).Some? && r in Records(assignments, minRecords).value
    ensures r.matchedAlias == ""
  {
    FilterMapMembers(Order(assignments), Listed(assignments));
    hide Order, RecordOf, Accepted;
    var i :| 0 <= i < |Order(assignments)| && Listed(assignments)(Order(assignments)[i]) == Some(r);
    NeverMatched(assignments, Order(assignments)[i]);
    AcceptedKeeps(RecordOf(assignments, Order(assignments)[i]));
  }

  lemma AcceptedKeeps(r: Offering)
    ensures Accepted(r).Some? ==> Accepted(r).value.matchedAlias == r.matchedAlias
  {}

  lemma {:induction false} NeverMatched(assignments: seq<Assignment>, name: string)
    ensures RecordOf(assignments, name).matchedAlias == ""
  {
    if assignments != [] {
      NeverMatched(assignments[..|assignments| - 1], name);
    }
  }

  // --- What the section says ------------------------------------------------------------------

  /** The variable's last values make a record: it has a provider and an offering. */
  ghost predicate Describes(assignments: seq<Assignment>, name: string) {
    && (exists a <- assignments :: a.name == name)
    && LastValue(assignments, name, Csp) != "" && LastValue(assignments, name, Cso) != ""
  }

  /** The record holds the variable's last values, the address of its own page, and no alias yet. */
  ghost predicate Holds(assignments: seq<Assignment>, name: string, r: Offering) {
    && r.id == LastValue(assignments, name, Id)
    && r.provider == LastValue(assignments, name, Csp)
    && r.offering == LastValue(assignments, name, Cso)
    && r.status == LastValue(assignments, name, Status)
    && r.phase == LastValue(assignments, name, Phase)
    && r.authType == LastValue(assignments, name, AuthType)
    && r.authCategory == LastValue(assignments, name, AuthCategory)
    && r.impactLevel == LastValue(assignments, name, ImpactLevel)
    && r.url == (if r.id == "" then "" else PRODUCT_URL + r.id + "/")
    && r.matchedAlias == ""
  }

  lemma OrderExact(assignments: seq<Assignment>)
    ensures Distinct(Order(assignments))
    ensures forall name :: name in Order(assignments) <==> exists a :: a in assignments && a.name == name
  {
    var names := Names(assignments);
    FirstByKeyKeys(names, Itself);
    var order := Order(assignments);
    forall i, j | 0 <= i < j < |order| ensures order[i] != order[j] {
      assert Itself(order[i]) != Itself(order[j]);
    }
    forall name ensures name in order <==> exists a :: a in assignments && a.name == name {
      if name in order {
        var i :| 0 <= i < |names| && names[i] == name;
        assert assignments[i] in assignments;
      }
      if a :| a in assignments && a.name == name {
        var i :| 0 <= i < |assignments| && assignments[i] == a;
        assert names[i] == name;
        FirstByKeyCovers(names, Itself, name);
        assert name in order by {
          var j :| 0 <= j < |order| && Itself(order[j]) == name;
        }
      }
    }
  }

  lemma ListedExact(assignments: seq<Assignment>, name: string)
    ensures Listed(assignments)(name).Some? <==>
              LastValue(assignments, name, Csp) != "" && LastValue(assignments, name, Cso) != ""
    ensures Listed(assignments)(name).Some? ==> Holds(assignments, name, Listed(assignments)(name).value)
  {
    LastAssignmentWins(assignments, name, Id);
    LastAssignmentWins(assignments, name, Csp);
    LastAssignmentWins(assignments, name, Cso);
    LastAssignmentWins(assignments, name, Status);
    LastAssignmentWins(assignments, name, Phase);
    LastAssignmentWins(assignments, name, AuthType);
    LastAssignmentWins(assignments, name, AuthCategory);
    LastAssignmentWins(assignments, name, ImpactLevel);
    NeverMatched(assignments, name);
    hide RecordOf, LastValue;
  }

  /**
   The listing's records are those of the variables that name a provider and an offering, one each, and the
   page is refused when they are fewer than expected.
   */
  lemma RecordsExact(assignments: seq<Assignment>, minRecords: nat) returns (names: seq<string>)
    ensures Distinct(names) && forall name :: name in names <==> Describes(assignments, name)
    ensures Records(assignments, minRecords).Some? <==> |names| >= minRecords
    ensures Records(assignments, minRecords).Some? ==>
      var records := Records(assignments, minRecords).value;
      |records| == |names| && forall i :: 0 <= i < |names| ==> Holds(assignments, names[i], records[i])
  {
    var order := Order(assignments);
    OrderExact(assignments);
    var at := FilterMapExact(order, Listed(assignments));
    names := seq(|at|, i requires 0 <= i < |at| => order[at[i]]);
    DescribedAt(assignments, order, at, names);
    hide Listed, Order, LastValue, Holds, Describes, FilterMap;
    forall i | 0 <= i < |names| ensures Holds(assignments, names[i], FilterMap(order, Listed(assignments))[i]) {
      ListedExact(assignments, names[i]);
    }
  }

  lemma DescribedAt(assignments: seq<Assignment>, order: seq<string>, at: seq<int>, names: seq<string>)
    requires Distinct(order) && forall name :: name in order <==> exists a :: a in assignments && a.name == name
    requires KeptAt(at, order, Listed(assignments)) && |names| == |at|
    requires forall i :: 0 <= i < |at| ==> 0 <= at[i] < |order| && names[i] == order[at[i]]
    ensures Distinct(names) && forall name :: name in names <==> Describes(assignments, name)
  {
    forall name ensures Listed(assignments)(name).Some? <==>
      LastValue(assignments, name, Csp) != "" && LastValue(assignments, name, Cso) != ""
    {
      ListedExact(assignments, name);
    }
    hide Listed, LastValue;
    forall name ensures name in names <==> Describes(assignments, name) {
      if name in order && Listed(assignments)(name).Some? {
        var j :| 0 <= j < |order| && order[j] == name;
        var i :| 0 <= i < |at| && at[i] == j;
        assert names[i] == name;
      }
    }
  }

  /** The section fails without a readable listing of the expected size, and is otherwise OK, whatever it matches. */
  lemma FetchExact(u: Upstream, q: Query, ent: Entity)
    ensures var f := FedRampFetch(u, q, ent);
      var readable := u.listing.Answered? && Records(u.listing.value, u.minRecords).Some?;
      && f.calls == [Marketplace] && f.section.source == Fingerprint.FEDRAMP
      && (f.section.status == OK <==> readable)
      && (f.section.status != OK ==> f.section.status == Failed && f.section.data.NoData?)
      && (readable ==>
            && f.section.data.FedRampData? && f.section.data.fedramp.searched == VendorNames(q, ent)
            && |f.section.citations| == 1 && f.section.citations[0].url == u.url
            && f.section.data.fedramp.totalRecords == |Records(u.listing.value, u.minRecords).value|)
  {
    hide Records, Matched, VendorNames;
  }

  /** The name that matched: the first that means the provider, named as an alias unless it is the first of all. */
  ghost predicate MatchedBy(names: seq<string>, r: Offering, m: Offering, k: int) {
    && 0 <= k < |names| && NormalizeVendorName(names[k]) == NormalizeVendorName(r.provider)
    && (forall j :: 0 <= j < k ==> NormalizeVendorName(names[j]) != NormalizeVendorName(r.provider))
    && m == if k == 0 then r else r.(matchedAlias := names[k])
  }

  /** The offerings are the matching records, in order, each with the name that matched it, and nothing else. */
  lemma OfferingsExact(names: seq<string>, records: seq<Offering>) returns (at: seq<int>)
    ensures var offerings := FilterMap(records, Matched(names));
      && Increasing(at) && |at| == |offerings|
      && (forall j :: 0 <= j < |records| ==>
            (j in at <==> NormalizeVendorName(records[j].provider) != "" &&
                          HasKey(names, NormalizeVendorName, NormalizeVendorName(records[j].provider))))
      && forall i :: 0 <= i < |at| ==>
           0 <= at[i] < |records| && exists k :: MatchedBy(names, records[at[i]], offerings[i], k)
  {
    at := FilterMapExact(records, Matched(names));
    forall j | 0 <= j < |records|
      ensures Matched(names)(records[j]).Some? <==>
                NormalizeVendorName(records[j].provider) != "" &&
                HasKey(names, NormalizeVendorName, NormalizeVendorName(records[j].provider))
      ensures Matched(names)(records[j]).Some? ==>
                exists k :: MatchedBy(names, records[j], Matched(names)(records[j]).value, k)
    {
      OneMatch(names, records[j]);
    }
    hide Matched, NormalizeVendorName, MatchedBy, HasKey;
    var offerings := FilterMap(records, Matched(names));
    forall i | 0 <= i < |at|
      ensures 0 <= at[i] < |records| && exists k :: MatchedBy(names, records[at[i]], offerings[i], k)
    {
      assert Matched(names)(records[at[i]]) == Some(offerings[i]);
    }
  }

  lemma OneMatch(names: seq<string>, r: Offering)
    ensures Matched(names)(r).Some? <==>
              NormalizeVendorName(r.provider) != "" &&
              HasKey(names, NormalizeVendorName, NormalizeVendorName(r.provider))
    ensures Matched(names)(r).Some? ==> exists k :: MatchedBy(names, r, Matched(names)(r).value, k)
  {
    var provider := NormalizeVendorName(r.provider);
    MatchAtFirst(names, provider);
    hide NormalizeVendorName, MatchAt;
    if HasKey(names, NormalizeVendorName, provider) {
      var i :| 0 <= i < |names| && NormalizeVendorName(names[i]) == provider;
      assert names[i] in names;
    }
    if provider != "" && MatchAt(names, provider).Some? {
      assert MatchedBy(names, r, Matched(names)(r).value, MatchAt(names, provider).value);
    }
  }
}
