/** CA AG, a state's list of reported breaches: one search per name, each breach once. */
module CaAg {
  import opened Sequences
  import opened Domain
  import opened Service
  import opened Vendor
  import Fingerprint

  const MAX_NAMES := 4

  /** One table row, as read off the page. */
  datatype Row = Row(organization: string, dates: seq<string>, reported: string, url: string)

  /** One results page: its rows, and whether it said that nothing matched. */
  datatype Page = Page(rows: seq<Row>, emptyMarker: bool)

  datatype Upstream = Upstream(search: string -> Reply<Page>, url: string)

  function BreachOf(name: string): Row -> Option<Breach> {
    (r: Row) =>
      if r.organization == "" then None else Some(Breach(r.organization, r.dates, r.reported, r.url, name))
  }

  /** The breaches of one page; None for a page that shows none and does not say so. */
  function Parsed(page: Page, name: string): Option<seq<Breach>> {
    var breaches := FilterMap(page.rows, BreachOf(name));
    if breaches == [] && !page.emptyMarker then None else Some(breaches)
  }

  function Searched(u: Upstream, name: string): Reply<seq<Breach>> {
    match u.search(name)
    case TimedOut => TimedOut
    case Broken(reason) => Broken(reason)
    case Answered(page) =>
      match Parsed(page, name)
      case None => Broken("CA AG breach list for " + name + ": the page layout has changed")
      case Some(breaches) => Answered(breaches)
  }

  // --- Each breach once -----------------------------------------------------------------------

  function ReportUrl(b: Breach): string { b.reportUrl }

  /** Keeps a breach whose report is new; one without a report cannot be told from another and is kept. */
  function Unrepeated(breaches: seq<Breach>): seq<Breach> {
    if breaches == [] then [] else
    var kept, last := Unrepeated(breaches[..|breaches| - 1]), breaches[|breaches| - 1];
    if last.reportUrl != "" && HasKey(kept, ReportUrl, last.reportUrl) then kept else kept + [last]
  }

  lemma UnrepeatedSnoc(breaches: seq<Breach>, b: Breach)
    ensures var kept := Unrepeated(breaches);
      Unrepeated(breaches + [b]) ==
        if b.reportUrl != "" && HasKey(kept, ReportUrl, b.reportUrl) then kept else kept + [b]
  {
    assert (breaches + [b])[..|breaches|] == breaches;
  }

  /** Position `j` has no report, or is the first with its report. */
  ghost predicate New(breaches: seq<Breach>, j: int) {
    0 <= j < |breaches| && (breaches[j].reportUrl == "" || FirstAt(breaches, ReportUrl, j))
  }

  lemma {:induction false} UnrepeatedKeys(breaches: seq<Breach>, url: string)
    ensures HasKey(Unrepeated(breaches), ReportUrl, url) <==> HasKey(breaches, ReportUrl, url)
  {
    if breaches != [] {
      var init, last := breaches[..|breaches| - 1], breaches[|breaches| - 1];
      UnrepeatedKeys(init, url);
      UnrepeatedSnoc(init, last);
      assert init + [last] == breaches;
      SnocHasKey(init, last, ReportUrl, url);
      SnocHasKey(Unrepeated(init), last, ReportUrl, url);
    }
  }

  /** The list keeps exactly the new breaches, in order: nothing repeated, and nothing without a report lost. */
  lemma {:induction false} UnrepeatedExact(breaches: seq<Breach>) returns (at: seq<int>)
    ensures Increasing(at) && forall j :: New(breaches, j) <==> j in at
    ensures |at| == |Unrepeated(breaches)|
    ensures forall i :: 0 <= i < |at| ==> 0 <= at[i] < |breaches| && Unrepeated(breaches)[i] == breaches[at[i]]
  {
    if breaches == [] {
      at := [];
    } else {
      var n := |breaches| - 1;
      var init, last := breaches[..n], breaches[n];
      var before := UnrepeatedExact(init);
      UnrepeatedKeys(init, last.reportUrl);
      forall j ensures New(breaches, j) <==>
        New(init, j) || (j == n && (last.reportUrl == "" || !HasKey(Unrepeated(init), ReportUrl, last.reportUrl)))
      {
        NewOneMore(breaches, j);
      }
      forall i | 0 <= i < |before| ensures 0 <= before[i] < n {
        assert before[i] in before;
        assert New(init, before[i]);
      }
      var repeated := last.reportUrl != "" && HasKey(Unrepeated(init), ReportUrl, last.reportUrl);
      at := if repeated then before else before + [n];
    }
  }

  lemma NewOneMore(breaches: seq<Breach>, j: int)
    requires breaches != []
    ensures var n := |breaches| - 1;
      New(breaches, j) <==>
        New(breaches[..n], j) ||
        (j == n && (breaches[n].reportUrl == "" || !HasKey(breaches[..n], ReportUrl, breaches[n].reportUrl)))
  {
    var n := |breaches| - 1;
    assert forall i :: 0 <= i < n ==> breaches[..n][i] == breaches[i];
  }

  // --- The section ----------------------------------------------------------------------------

  /** Everything the first `n` searches returned, or the error that ended them. */
  function Gather(u: Upstream, names: seq<string>, n: nat): Reply<seq<Breach>>
    requires n <= |names|
  {
    if n == 0 then Answered([]) else
    match Gather(u, names, n - 1)
    case TimedOut => TimedOut
    case Broken(reason) => Broken(reason)
    case Answered(before) =>
      match Searched(u, names[n - 1])
      case TimedOut => TimedOut
      case Broken(reason) => Broken(reason)
      case Answered(breaches) => Answered(before + breaches)
  }

  /** One search per name, up to and including the one that failed. */
  function GatherCalls(u: Upstream, names: seq<string>, n: nat): seq<Call>
    requires n <= |names|
  {
    if n == 0 then [] else
    var before := GatherCalls(u, names, n - 1);
    if Gather(u, names, n - 1).Answered? then before + [BreachSearch(names[n - 1])] else before
  }

  function SectionFor(u: Upstream, names: seq<string>): Section {
    match Gather(u, names, |names|)
    case Answered(breaches) =>
      OkSection(Fingerprint.CAAG, CaagData(CaagResult(Unrepeated(breaches), names)),
                [Citation("California Attorney General - Data Security Breach Reports", u.url)])
    case error => FailedSection(Fingerprint.CAAG, Reason(error))
  }

  /** The CA AG source's Fetch: the first four names, one after the other. */
  function CaAgFetch(u: Upstream, q: Query, ent: Entity): Fetched {
    var names := Take(VendorNames(q, ent), MAX_NAMES);
    Fetched(GatherCalls(u, names, |names|), SectionFor(u, names))
  }

  lemma {:induction false} GatherStopped(u: Upstream, names: seq<string>, i: nat, n: nat)
    requires i <= n <= |names| && !Gather(u, names, i).Answered?
    ensures Gather(u, names, n) == Gather(u, names, i)
    ensures GatherCalls(u, names, n) == GatherCalls(u, names, i)
    decreases n
  {
    hide Searched;
    if i < n {
      GatherStopped(u, names, i, n - 1);
    }
  }

  method Fetch(u: Upstream, q: Query, ent: Entity) returns (section: Section, calls: seq<Call>)
    ensures Fetched(calls, section) == CaAgFetch(u, q, ent)
  {
    hide Searched, VendorNames;
    var names := CollectVendorNames(q, ent);
    if |names| > MAX_NAMES {
      names := names[..MAX_NAMES];
    }
    assert names == Take(VendorNames(q, ent), MAX_NAMES);
    var entries: seq<Breach> := [];
    calls := [];
    for i := 0 to |names|
      invariant calls == GatherCalls(u, names, i) && Gather(u, names, i).Answered?
      invariant entries == Unrepeated(Gather(u, names, i).value)
    {
      calls := calls + [BreachSearch(names[i])];
      match Searched(u, names[i]) {
        case Answered(breaches) =>
          entries := AddNew(Gather(u, names, i).value, entries, breaches);
        case error =>
          assert Gather(u, names, i + 1) == error;
          GatherStopped(u, names, i + 1, |names|);
          return FailedSection(Fingerprint.CAAG, Reason(error)), calls;
      }
    }
    section := OkSection(Fingerprint.CAAG, CaagData(CaagResult(entries, names)),
                         [Citation("California Attorney General - Data Security Breach Reports", u.url)]);
  }

  /** One more page: what is kept stays the unrepeated part of everything that arrived. */
  method AddNew(ghost before: seq<Breach>, kept: seq<Breach>, breaches: seq<Breach>) returns (entries: seq<Breach>)
    requires kept == Unrepeated(before)
    ensures entries == Unrepeated(before + breaches)
  {
    entries := kept;
    assert before + breaches[..0] == before;
    for i := 0 to |breaches|
      invariant entries == Unrepeated(before + breaches[..i])
    {
      assert before + breaches[..i + 1] == (before + breaches[..i]) + [breaches[i]];
      UnrepeatedSnoc(before + breaches[..i], breaches[i]);
      if breaches[i].reportUrl != "" && HasKey(entries, ReportUrl, breaches[i].reportUrl) {
        continue;
      }
      entries := entries + [breaches[i]];
    }
    assert breaches[..|breaches|] == breaches;
  }

  // --- What the section says ------------------------------------------------------------------

  /** The page of a search lists something, or says that there is nothing. */
  ghost predicate Legible(reply: Reply<Page>) {
    reply.Answered? && (reply.value.emptyMarker || exists r <- reply.value.rows :: r.organization != "")
  }

  /** The row, as found by searching for this name. */
  function Found(r: Row, name: string): Breach {
    Breach(r.organization, r.dates, r.reported, r.url, name)
  }

  lemma SearchedExact(u: Upstream, name: string)
    ensures Searched(u, name).Answered? <==> Legible(u.search(name))
    ensures Searched(u, name).Answered? ==>
      forall b :: b in Searched(u, name).value <==>
        exists r :: r in u.search(name).value.rows && r.organization != "" && b == Found(r, name)
  {
    var reply := u.search(name);
    if reply.Answered? {
      var rows := reply.value.rows;
      var breaches := FilterMap(rows, BreachOf(name));
      FilterMapMembers(rows, BreachOf(name));
      if r :| r in rows && r.organization != "" {
        var i :| 0 <= i < |rows| && rows[i] == r;
        assert BreachOf(name)(rows[i]) == Some(Found(r, name));
      }
      if breaches != [] {
        assert breaches[0] in breaches;
        var i :| 0 <= i < |rows| && BreachOf(name)(rows[i]) == Some(breaches[0]);
        assert rows[i] in rows;
      }
      forall b ensures b in breaches <==> exists r :: r in rows && r.organization != "" && b == Found(r, name) {
        if b in breaches {
          var i :| 0 <= i < |rows| && BreachOf(name)(rows[i]) == Some(b);
          assert rows[i] in rows && b == Found(rows[i], name);
        }
        if r :| r in rows && r.organization != "" && b == Found(r, name) {
          var i :| 0 <= i < |rows| && rows[i] == r;
          assert BreachOf(name)(rows[i]) == Some(b);
        }
      }
    }
  }

  /** One of the first `n` searches turned this breach up. */
  ghost predicate TurnedUp(u: Upstream, names: seq<string>, n: nat, b: Breach)
    requires n <= |names|
  {
    exists i, r ::
      0 <= i < n && u.search(names[i]).Answered? && r in u.search(names[i]).value.rows
      && r.organization != "" && b == Found(r, names[i])
  }

  lemma {:induction false} GatherExact(u: Upstream, names: seq<string>, n: nat)
    requires n <= |names|
    ensures Gather(u, names, n).Answered? <==> forall i :: 0 <= i < n ==> Legible(u.search(names[i]))
    ensures Gather(u, names, n).Answered? ==>
      && (forall b :: b in Gather(u, names, n).value <==> TurnedUp(u, names, n, b))
      && GatherCalls(u, names, n) == Asked(names, n)
  {
    hide Searched, Legible;
    if n > 0 {
      GatherExact(u, names, n - 1);
      SearchedExact(u, names[n - 1]);
      if Gather(u, names, n).Answered? {
        assert Asked(names, n) == Asked(names, n - 1) + [BreachSearch(names[n - 1])];
        var before, last := Gather(u, names, n - 1).value, Searched(u, names[n - 1]).value;
        assert u.search(names[n - 1]).Answered? by { hide *; SearchedAnswered(u, names[n - 1]); }
        forall b ensures b in Gather(u, names, n).value <==> TurnedUp(u, names, n, b) {
          assert b in before + last <==> b in before || b in last;
        }
      }
    }
  }

  lemma SearchedAnswered(u: Upstream, name: string)
    requires Searched(u, name).Answered?
    ensures u.search(name).Answered?
  {}

  function Asked(names: seq<string>, n: nat): seq<Call>
    requires n <= |names|
  {
    seq(n, i requires 0 <= i < n => BreachSearch(names[i]))
  }

  /**
   The first four names are searched; the section is OK exactly when every page was legible, and fails
   otherwise. It lists what was turned up: every breach without a report, and one for each report.
   */
  lemma SectionExact(u: Upstream, q: Query, ent: Entity)
    ensures var names, f := Take(VendorNames(q, ent), 4), CaAgFetch(u, q, ent);
      var n := |names|;
      && f.section.source == Fingerprint.CAAG
      && (f.section.status == OK <==> forall i :: 0 <= i < n ==> Legible(u.search(names[i])))
      && (f.section.status != OK ==> f.section.status == Failed && f.section.data.NoData?)
      && (f.section.status != OK ==>
            exists k :: 0 <= k < n && !Legible(u.search(names[k])) && f.calls == Asked(names, k + 1))
      && (f.section.status == OK ==>
            && f.calls == Asked(names, n)
            && f.section.data.CaagData? && f.section.data.caag.searched == names
            && |f.section.citations| == 1 && f.section.citations[0].url == u.url
            && Lists(u, names, f.section.data.caag.entries))
  {
    var names := Take(VendorNames(q, ent), 4);
    GatherExact(u, names, |names|);
    if !Gather(u, names, |names|).Answered? {
      var k := FirstFailure(u, names, |names|);
    }
    if Gather(u, names, |names|).Answered? {
      KeptExact(u, names, Gather(u, names, |names|).value);
    }
    hide Gather, GatherCalls, VendorNames, Lists, Legible, Unrepeated, Take;
  }

  lemma {:induction false} FirstFailure(u: Upstream, names: seq<string>, n: nat) returns (k: nat)
    requires n <= |names| && !Gather(u, names, n).Answered?
    ensures k < n && !Legible(u.search(names[k])) && (forall i :: 0 <= i < k ==> Legible(u.search(names[i])))
    ensures GatherCalls(u, names, n) == Asked(names, k + 1)
  {
    hide Searched, Legible;
    GatherExact(u, names, n - 1);
    if Gather(u, names, n - 1).Answered? {
      k := n - 1;
      SearchedExact(u, names[k]);
      assert Asked(names, n) == Asked(names, n - 1) + [BreachSearch(names[n - 1])];
    } else {
      k := FirstFailure(u, names, n - 1);
    }
  }

  ghost predicate Lists(u: Upstream, names: seq<string>, entries: seq<Breach>) {
    var n := |names|;
    && (forall b <- entries :: TurnedUp(u, names, n, b))
    && (forall b :: TurnedUp(u, names, n, b) ==>
          if b.reportUrl == "" then b in entries else exists e <- entries :: e.reportUrl == b.reportUrl)
    && forall i, j :: 0 <= i < j < |entries| && entries[i].reportUrl != "" ==>
         entries[i].reportUrl != entries[j].reportUrl
  }

  lemma KeptExact(u: Upstream, names: seq<string>, all: seq<Breach>)
    requires forall b :: b in all <==> TurnedUp(u, names, |names|, b)
    ensures Lists(u, names, Unrepeated(all))
  {
    hide TurnedUp;
    var at := UnrepeatedExact(all);
    var entries := Unrepeated(all);
    forall b | b in all
      ensures if b.reportUrl == "" then b in entries else exists e <- entries :: e.reportUrl == b.reportUrl
    {
      var j :| 0 <= j < |all| && all[j] == b;
      if b.reportUrl == "" {
        assert New(all, j);
        var i :| 0 <= i < |at| && at[i] == j;
        assert entries[i] == b;
      } else {
        UnrepeatedKeys(all, b.reportUrl);
        assert ReportUrl(all[j]) == b.reportUrl;
        var i :| 0 <= i < |entries| && ReportUrl(entries[i]) == b.reportUrl;
        assert entries[i] in entries;
      }
    }
    forall i, j | 0 <= i < j < |entries| && entries[i].reportUrl != ""
      ensures entries[i].reportUrl != entries[j].reportUrl
    {
      assert at[j] in at && New(all, at[j]);
      assert ReportUrl(all[at[i]]) == entries[i].reportUrl;
    }
  }
}
