/**
 The pipeline: resolve, override, fan out, and pin the mapping once NVD has judged it. `Runner` is one
 run as written; `Machine` is any interleaving of any number of runs over the one store.
 */
module Pipeline {
  import opened Text
  import opened Sequences
  import opened Domain
  import opened Fingerprint
  import opened Store
  import Cache
  import Nvd
  import Sources
  import FanOut
  import Assess

  datatype Request = Request(query: Query, domain: string, cpes: seq<string>, noCache: bool)

  /** One assessment under way: what the model said, the mapping in use, and the sections so far. */
  datatype Running = Running(
    req: Request, said: Option<Resolution>, resolution: Resolution, cached: bool, sections: seq<Section>)
  {
    /** What the sources are given: the mapping after the analyst's overrides. */
    function Entity(): Entity {
      var e := resolution.entity;
      var domains := if Blank(req.domain) then e.domains else [TrimSpace(req.domain)];
      var cpes := if req.cpes == [] then e.cpes else req.cpes;
      e.(domains := domains, cpes := cpes)
    }
  }

  // --- The verdict ----------------------------------------------------------------------------

  /** What the first NVD section concludes about its queries: None when it has none to conclude from. */
  function Verdict(sections: seq<Section>): Option<bool> {
    if sections == [] then None
    else if sections[0].source != NVD then Verdict(sections[1..])
    else if !sections[0].data.NvdData? || sections[0].data.nvd.queries == [] then None
    else Some(Nvd.AnyVerified(sections[0].data.nvd))
  }

  /** The i-th section is the first of NVD's. */
  ghost predicate FirstNvd(sections: seq<Section>, i: int) {
    0 <= i < |sections| && sections[i].source == NVD && forall j :: 0 <= j < i ==> sections[j].source != NVD
  }

  /** The section put queries to NVD, and one of them was verified, or none was. */
  ghost predicate JudgedBy(section: Section, verified: bool) {
    && section.data.NvdData? && section.data.nvd.queries != []
    && (verified <==> exists q <- section.data.nvd.queries :: q.verification != Unverified)
  }

  ghost predicate Judged(sections: seq<Section>, verified: bool) {
    exists i :: FirstNvd(sections, i) && JudgedBy(sections[i], verified)
  }

  method CpesVerified(sections: seq<Section>) returns (verified: bool, known: bool)
    ensures known <==> Judged(sections, true) || Judged(sections, false)
    ensures verified <==> Judged(sections, true)
    ensures Verdict(sections) == if known then Some(verified) else None
  {
    VerdictExact(sections);
    hide Judged;
    for i := 0 to |sections|
      invariant Verdict(sections) == Verdict(sections[i..])
    {
      assert sections[i..][1..] == sections[i + 1..];
      if sections[i].source != NVD {
        continue;
      }
      if !sections[i].data.NvdData? || sections[i].data.nvd.queries == [] {
        return false, false;
      }
      return Nvd.AnyVerified(sections[i].data.nvd), true;
    }
    return false, false;
  }

  /** The verdict is the first NVD section's, and there is none exactly when it has no queries to judge by. */
  lemma {:induction false} VerdictExact(sections: seq<Section>)
    ensures Verdict(sections) == Some(true) <==> Judged(sections, true)
    ensures Verdict(sections) == Some(false) <==> Judged(sections, false)
  {
    if sections != [] {
      var rest := sections[1..];
      VerdictExact(rest);
      if sections[0].source == NVD {
        assert FirstNvd(sections, 0);
        assert forall i :: FirstNvd(sections, i) ==> i == 0;
      } else {
        forall v: bool ensures Judged(sections, v) <==> Judged(rest, v) {
          JudgedLater(sections, v);
        }
      }
    }
  }

  lemma JudgedLater(sections: seq<Section>, v: bool)
    requires sections != [] && sections[0].source != NVD
    ensures Judged(sections, v) <==> Judged(sections[1..], v)
  {
    hide JudgedBy;
    var rest := sections[1..];
    if i :| FirstNvd(sections, i) && JudgedBy(sections[i], v) {
      assert forall j :: 0 <= j < i - 1 ==> rest[j] == sections[j + 1];
      assert FirstNvd(rest, i - 1) && rest[i - 1] == sections[i];
    }
    if i :| FirstNvd(rest, i) && JudgedBy(rest[i], v) {
      assert forall j :: 0 < j <= i ==> sections[j] == rest[j - 1];
      assert FirstNvd(sections, i + 1) && sections[i + 1] == rest[i];
    }
  }

  /** A known verdict is read off an NVD section: positive exactly when one of its queries was verified. */
  lemma {:induction false} VerdictOf(sections: seq<Section>) returns (s: Section)
    requires Verdict(sections).Some?
    ensures s in sections && s.source == NVD && s.data.NvdData? && s.data.nvd.queries != []
    ensures Verdict(sections) == Some(exists q <- s.data.nvd.queries :: q.verification != Unverified)
  {
    if sections[0].source == NVD {
      s := sections[0];
    } else {
      s := VerdictOf(sections[1..]);
    }
  }

  lemma {:induction false} VerdictOfOnly(sections: seq<Section>, s: Section)
    requires s in sections && s.source == NVD
    requires forall t <- sections :: t.source == NVD ==> t == s
    ensures Verdict(sections) == Verdict([s])
  {
    if sections[0].source != NVD {
      assert s in sections[1..];
      VerdictOfOnly(sections[1..], s);
    } else {
      assert sections[0] == s;
    }
  }

  lemma {:induction false} NoVerdictWithoutNvd(sections: seq<Section>)
    requires forall t <- sections :: t.source != NVD
    ensures Verdict(sections) == None
  {
    if sections != [] {
      NoVerdictWithoutNvd(sections[1..]);
    }
  }

  /** With one NVD section in the report, where it stands makes no difference. */
  lemma VerdictIgnoresOrder(a: seq<Section>, b: seq<Section>)
    requires forall s :: s in a <==> s in b
    requires forall s <- a, t <- a :: s.source == NVD && t.source == NVD ==> s == t
    ensures Verdict(a) == Verdict(b)
  {
    if s :| s in a && s.source == NVD {
      VerdictOfOnly(a, s);
      VerdictOfOnly(b, s);
    } else {
      NoVerdictWithoutNvd(a);
      NoVerdictWithoutNvd(b);
    }
  }

  // --- One run --------------------------------------------------------------------------------

  /** The mapping a run starts from: a stored one it may read, or what the model says. */
  function Begun(
    rows: Table, now: int, ttl: Option<int>, req: Request, said: Option<Resolution>, readOk: bool): Option<Running>
  {
    var found :=
      if ttl.None? || req.noCache || !readOk then Miss
      else ReadResolution(rows, now, KeyOf(req.query.company, req.query.service, RESOLUTION), ttl.value);
    match found
    case Hit(res) => Some(Running(req, said, res, true, []))
    case _ => if said.None? then None else Some(Running(req, said, said.value, false, []))
  }

  /** The table holds this mapping, and the run may read it. */
  ghost predicate Readable(
    rows: Table, now: int, ttl: Option<int>, req: Request, readOk: bool, res: Resolution)
  {
    && ttl.Some? && !req.noCache && readOk
    && MappingHeld(rows, now, KeyOf(req.query.company, req.query.service, RESOLUTION), ttl.value, res)
  }

  /** A readable mapping is what the run starts from; without one it is the model's answer, or nothing. */
  ghost predicate StartsFrom(
    rows: Table, now: int, ttl: Option<int>, req: Request, said: Option<Resolution>, readOk: bool,
    run: Option<Running>)
  {
    && (forall res :: Readable(rows, now, ttl, req, readOk, res) ==> run == Some(Running(req, said, res, true, [])))
    && ((forall res :: !Readable(rows, now, ttl, req, readOk, res)) ==>
          run == if said.None? then None else Some(Running(req, said, said.value, false, [])))
  }

  lemma NoCacheAsks(
    rows: Table, now: int, ttl: Option<int>, req: Request, said: Option<Resolution>, readOk: bool,
    run: Option<Running>)
    requires StartsFrom(rows, now, ttl, req, said, readOk, run)
    ensures req.noCache && run.Some? ==> !run.value.cached && said == Some(run.value.resolution)
  {}

  lemma BegunMeans(
    rows: Table, now: int, ttl: Option<int>, req: Request, said: Option<Resolution>, readOk: bool)
    ensures StartsFrom(rows, now, ttl, req, said, readOk, Begun(rows, now, ttl, req, said, readOk))
  {
    var key := KeyOf(req.query.company, req.query.service, RESOLUTION);
    if ttl.Some? {
      forall res
        ensures ReadResolution(rows, now, key, ttl.value) == Hit(res) <==> MappingHeld(rows, now, key, ttl.value, res)
      {
        MappingIsHeld(rows, now, key, ttl.value, res);
      }
      hide MappingHeld, ReadResolution, KeyOf;
      var found := ReadResolution(rows, now, key, ttl.value);
      if found.Hit? && !req.noCache && readOk {
        assert Readable(rows, now, ttl, req, readOk, found.value);
      }
    }
  }

  /** Whether the finished run may pin its mapping. */
  predicate Pins(ttl: Option<int>, r: Running) {
    && !r.cached && ttl.Some?
    && r.req.cpes == [] && r.resolution.Cacheable()
    && Verdict(r.sections) != Some(false)
  }

  function MappingRecorded(rows: Table, now: int, ttl: Option<int>, r: Running, fault: Fault): Table {
    if Pins(ttl, r)
    then ResolutionWritten(rows, now, r.req.query.company, r.req.query.service, r.resolution, fault)
    else rows
  }

  /** The run earned its mapping a row: it asked the model, overrode no CPE, and NVD did not refute it. */
  ghost predicate Earns(ttl: Option<int>, r: Running) {
    && ttl.Some? && !r.cached && r.req.cpes == []
    && r.resolution.entity.canonicalName != "" && r.resolution.entity.cpes != []
    && !Judged(r.sections, false)
  }

  /** The mapping's row after a run: written when it was earned, and left alone otherwise. */
  ghost predicate MappingSettled(rows: Table, after: Table, now: int, ttl: Option<int>, r: Running, fault: Fault) {
    var key := KeyOf(r.req.query.company, r.req.query.service, RESOLUTION);
    if Earns(ttl, r) && fault != Lost && !HeldByAnalyst(rows, key)
    then key in after && after[key] == Row(ResolutionPayload(r.resolution), now, false)
    else Cache.SameRow(after, rows, key)
  }

  lemma RecordedMeans(rows: Table, now: int, ttl: Option<int>, r: Running, fault: Fault)
    ensures var after := MappingRecorded(rows, now, ttl, r, fault);
      && MappingSettled(rows, after, now, ttl, r, fault)
      && forall key | key != KeyOf(r.req.query.company, r.req.query.service, RESOLUTION) ::
           Cache.SameRow(after, rows, key)
  {
    VerdictExact(r.sections);
    hide KeyOf, Judged, Verdict;
  }

  /** What happens around one run: the model, NVD and the other sources, and how each statement goes. */
  datatype Surroundings = Surroundings(
    said: Option<Resolution>, nvd: Nvd.Upstream, others: Entity -> seq<Section>,
    resolutionRead: bool, sectionRead: bool, sectionWrite: Fault, resolutionWrite: Fault)

  function NvdFetched(
    hash: string -> string, rows: Table, now: int, c: Cache.Wrapped, r: Running, w: Surroundings): Cache.Fetched
  {
    var live := Nvd.NvdFetch(w.nvd, r.Entity()).section;
    if c.Wraps()
    then Cache.FetchThrough(hash, rows, now, c, r.req.query, r.Entity(), live, w.sectionRead, w.sectionWrite)
    else Cache.Fetched(rows, live, false)
  }

  /** The run and the table it leaves, given the run it began as. */
  function Completed(
    hash: string -> string, ttl: Option<int>, nvd: Option<Cache.Wrapped>, rows: Table, now: int,
    r: Running, w: Surroundings)
    : (Running, Table)
  {
    match nvd
    case None =>
      var done := r.(sections := r.sections + w.others(r.Entity()));
      (done, MappingRecorded(rows, now, ttl, done, w.resolutionWrite))
    case Some(c) =>
      var f := NvdFetched(hash, rows, now, c.(bypass := r.req.noCache), r, w);
      var done := r.(sections := r.sections + [f.section] + w.others(r.Entity()));
      (done, MappingRecorded(f.rows, now, ttl, done, w.resolutionWrite))
  }

  /**
   What a finished run leaves: NVD's section, served or fetched as its cache settles it, then the other
   sources'; and the mapping's row, once more as it was or as the run earned it.
   */
  ghost predicate RunSettled(
    hash: string -> string, ttl: Option<int>, nvd: Option<Cache.Wrapped>, rows: Table, after: Table, now: int,
    begun: Running, done: Running, w: Surroundings)
  {
    exists between: Table ::
      && NvdSettled(hash, nvd, rows, between, now, begun, done, w)
      && MappingSettled(between, after, now, ttl, done, w.resolutionWrite)
      && forall key | key != KeyOf(done.req.query.company, done.req.query.service, RESOLUTION) ::
           Cache.SameRow(after, between, key)
  }

  ghost predicate NvdSettled(
    hash: string -> string, nvd: Option<Cache.Wrapped>, rows: Table, after: Table, now: int,
    begun: Running, done: Running, w: Surroundings)
  {
    var q, e := begun.req.query, begun.Entity();
    match nvd
    case None => after == rows && done == begun.(sections := begun.sections + w.others(e))
    case Some(c) =>
      exists section ::
        && done == begun.(sections := begun.sections + [section] + w.others(e))
        && NvdSectionSettled(hash, c.(bypass := begun.req.noCache), rows, after, now, q, e, w, section)
  }

  ghost predicate NvdSectionSettled(
    hash: string -> string, c: Cache.Wrapped, rows: Table, after: Table, now: int, q: Query, e: Entity,
    w: Surroundings, section: Section)
  {
    var live := Nvd.NvdFetch(w.nvd, e).section;
    if c.Wraps() then Cache.Settled(hash, rows, after, now, c, q, e, live, w.sectionRead, w.sectionWrite, section)
    else after == rows && section == live
  }

  lemma CompletedMeans(
    hash: string -> string, ttl: Option<int>, nvd: Option<Cache.Wrapped>, rows: Table, now: int,
    r: Running, w: Surroundings)
    ensures var (done, after) := Completed(hash, ttl, nvd, rows, now, r, w);
            RunSettled(hash, ttl, nvd, rows, after, now, r, done, w)
  {
    var (done, after) := Completed(hash, ttl, nvd, rows, now, r, w);
    var between :=
      if nvd.None? then rows else NvdFetched(hash, rows, now, nvd.value.(bypass := r.req.noCache), r, w).rows;
    RecordedMeans(between, now, ttl, done, w.resolutionWrite);
    if nvd.Some? {
      NvdFetchedMeans(hash, rows, now, nvd.value.(bypass := r.req.noCache), r, w);
    }
    hide NvdFetched, MappingRecorded, MappingSettled, Cache.SameRow, NvdSectionSettled, KeyOf;
    assert NvdSettled(hash, nvd, rows, between, now, r, done, w);
  }

  lemma NvdFetchedMeans(
    hash: string -> string, rows: Table, now: int, c: Cache.Wrapped, r: Running, w: Surroundings)
    ensures var f := NvdFetched(hash, rows, now, c, r, w);
            NvdSectionSettled(hash, c, rows, f.rows, now, r.req.query, r.Entity(), w, f.section)
  {
    var live := Nvd.NvdFetch(w.nvd, r.Entity()).section;
    Cache.FetchMeans(hash, rows, now, c, r.req.query, r.Entity(), live, w.sectionRead, w.sectionWrite);
    hide Nvd.NvdFetch, Cache.FetchThrough, Cache.Settled;
  }

  class Runner {
    const hash: string -> string
    const ttl: Option<int>             // the lifetime of a stored resolution, where one is configured
    const nvd: Option<Cache.Wrapped>   // NVD and its cache lifetime, unless switched off
    const store: Store

    constructor (hash: string -> string, ttl: Option<int>, nvd: Option<Cache.Wrapped>, store: Store)
      ensures this.hash == hash && this.ttl == ttl && this.nvd == nvd && this.store == store
    {
      this.hash, this.ttl, this.nvd, this.store := hash, ttl, nvd, store;
    }

    /** Starts from a stored mapping that may be read, else from what the model said; a failed read is a miss. */
    method Resolve(req: Request, said: Option<Resolution>, readOk: bool) returns (run: Option<Running>)
      ensures run == Begun(store.rows, store.now, ttl, req, said, readOk)
      ensures StartsFrom(store.rows, store.now, ttl, req, said, readOk, run)
    {
      BegunMeans(store.rows, store.now, ttl, req, said, readOk);
      hide StartsFrom;
      if ttl.Some? && !req.noCache && readOk {
        var found := store.CachedResolution(req.query.company, req.query.service, ttl.value);
        if found.Hit? {
          return Some(Running(req, said, found.value, true, []));
        }
      }
      if said.None? {
        return None;
      }
      return Some(Running(req, said, said.value, false, []));
    }

    method FetchNvd(c: Cache.Wrapped, r: Running, w: Surroundings) returns (section: Section)
      modifies store`rows
      ensures var f := NvdFetched(hash, old(store.rows), store.now, c, r, w);
              section == f.section && store.rows == f.rows
    {
      hide Nvd.NvdFetch;
      var live, _ := Nvd.Fetch(w.nvd, r.Entity());
      if c.Wraps() {
        var source := new Cache.CachedSource(c, hash, store);
        var fetched, _ := source.Fetch(r.req.query, r.Entity(), live, w.sectionRead, w.sectionWrite);
        section := fetched;
      } else {
        section := live;
      }
    }

    /** Writes the mapping exactly when `Pins` holds of the finished run, and touches nothing otherwise. */
    method RecordResolution(r: Running, fault: Fault)
      modifies store`rows
      ensures store.rows == MappingRecorded(old(store.rows), store.now, ttl, r, fault)
      ensures MappingSettled(old(store.rows), store.rows, store.now, ttl, r, fault)
      ensures forall key | key != KeyOf(r.req.query.company, r.req.query.service, RESOLUTION) ::
                Cache.SameRow(store.rows, old(store.rows), key)
    {
      RecordedMeans(store.rows, store.now, ttl, r, fault);
      hide MappingSettled, Cache.SameRow, Judged;
      if r.cached || ttl.None? {
        return;
      }
      if |r.req.cpes| > 0 || !r.resolution.Cacheable() {
        return;
      }
      var verified, known := CpesVerified(r.sections);
      if known && !verified {
        return;
      }
      var _ := store.PutResolution(r.req.query.company, r.req.query.service, r.resolution, fault);
    }

    /** One complete assessment; None is an error return, which leaves the table as it was. */
    method Run(req: Request, w: Surroundings) returns (result: Option<Running>)
      modifies store`rows
      ensures Blank(req.query.company) || Blank(req.query.service) ==> result.None?
      ensures result.None? ==> store.rows == old(store.rows)
      ensures req.noCache && result.Some? ==> !result.value.cached && w.said == Some(result.value.resolution)
      ensures !Blank(req.query.company) && !Blank(req.query.service) ==>
        exists begun ::
          && StartsFrom(old(store.rows), store.now, ttl, req, w.said, w.resolutionRead, begun)
          && (begun.None? <==> result.None?)
          && (begun.Some? ==>
                RunSettled(hash, ttl, nvd, old(store.rows), store.rows, store.now, begun.value, result.value, w))
      ensures var begun := Begun(old(store.rows), store.now, ttl, req, w.said, w.resolutionRead);
        !Blank(req.query.company) && !Blank(req.query.service) ==>
          if begun.None? then result.None?
          else Some(Completed(hash, ttl, nvd, old(store.rows), store.now, begun.value, w)) ==
               (if result.Some? then Some((result.value, store.rows)) else None)
    {
      if Blank(req.query.company) {
        return None;
      }
      if Blank(req.query.service) {
        return None;
      }
      var begun := Resolve(req, w.said, w.resolutionRead);
      NoCacheAsks(store.rows, store.now, ttl, req, w.said, w.resolutionRead, begun);
      if begun.None? {
        return None;
      }
      var r := begun.value;
      CompletedMeans(hash, ttl, nvd, store.rows, store.now, r, w);
      hide RunSettled, StartsFrom, MappingSettled, Cache.SameRow, NvdFetched, MappingRecorded, Begun;
      var entity := r.Entity();
      if nvd.Some? {
        var section := FetchNvd(nvd.value.(bypass := req.noCache), r, w);
        r := r.(sections := r.sections + [section]);
      }
      r := r.(sections := r.sections + w.others(entity));
      RecordResolution(r, w.resolutionWrite);
      return Some(r);
    }
  }

  // --- Any interleaving of runs ---------------------------------------------------------------

  datatype Machine = Machine(history: Cache.History, runs: seq<Running>, pinned: seq<Running>)

  /** `Caching` is one step of some fetch through the table, or of an analyst or the clock. */
  datatype Action =
    | Begin(req: Request, said: Option<Resolution>, readOk: bool)
    | Caching(e: Cache.Event)
    | Deliver(run: nat, flight: nat)
    | Report(run: nat, sections: seq<Section>)
    | Record(run: nat, fault: Fault)

  /** The sections speak about the CPEs the run was given, as NVD's own Fetch ensures. */
  ghost predicate OnTopic(r: Running, sections: seq<Section>) {
    forall s <- sections :: s.source == NVD ==> Nvd.About(s, r.Entity().cpes)
  }

  /** What the source said to this fetch is its own, and NVD's is about the CPEs it was asked for. */
  ghost predicate Answers(f: Cache.Flight, live: Section) {
    live.source == f.c.name && (f.c.name == NVD ==> Nvd.About(live, f.ent.cpes))
  }

  ghost predicate Possible(m: Machine, a: Action) {
    match a
    case Begin(_, _, _) => true
    case Caching(e) =>
      (match e
       case Look(c, _, _, _) => c.Wraps()
       case Receive(k, live) => k < |m.history.flights| && Answers(m.history.flights[k], live)
       case Write(_, _) => true
       case Other(op) => op.SetManual? || op.Tick?)
    case Deliver(i, k) =>
      && i < |m.runs| && k < |m.history.flights|
      && var r, f := m.runs[i], m.history.flights[k];
      f.stage.Over? && f.q == r.req.query && f.ent == r.Entity() && f.c.bypass == r.req.noCache
    case Report(i, sections) => i < |m.runs| && OnTopic(m.runs[i], sections)
    case Record(i, _) => i < |m.runs|
  }

  function Extended(runs: seq<Running>, i: nat, sections: seq<Section>): seq<Running>
    requires i < |runs|
  {
    runs[i := runs[i].(sections := runs[i].sections + sections)]
  }

  ghost function Act(hash: string -> string, ttl: Option<int>, m: Machine, a: Action): Machine
    requires Possible(m, a)
  {
    var w := m.history.world;
    match a
    case Begin(req, said, readOk) =>
      var begun := Begun(w.rows, w.now, ttl, req, said, readOk);
      if begun.None? then m else m.(runs := m.runs + [begun.value])
    case Caching(e) => m.(history := Cache.Happen(hash, m.history, e))
    case Deliver(i, k) => m.(runs := Extended(m.runs, i, [m.history.flights[k].stage.section]))
    case Report(i, sections) => m.(runs := Extended(m.runs, i, sections))
    case Record(i, fault) =>
      var r := m.runs[i];
      m.(history := m.history.(world := w.(rows := MappingRecorded(w.rows, w.now, ttl, r, fault))),
         pinned := if Pins(ttl, r) then m.pinned + [r] else m.pinned)
  }

  const IDLE := Machine(Cache.History(EMPTY, [], []), [], [])

  ghost predicate Actions(hash: string -> string, ttl: Option<int>, actions: seq<Action>)
    decreases |actions|, 0
  {
    actions == [] ||
    var before := actions[..|actions| - 1];
    Actions(hash, ttl, before) && Possible(After(hash, ttl, before), actions[|actions| - 1])
  }

  ghost function After(hash: string -> string, ttl: Option<int>, actions: seq<Action>): Machine
    requires Actions(hash, ttl, actions)
    decreases |actions|, 1
  {
    if actions == [] then IDLE
    else Act(hash, ttl, After(hash, ttl, actions[..|actions| - 1]), actions[|actions| - 1])
  }

  // --- What every action keeps ----------------------------------------------------------------

  /** Every recorded answer, and every section a fetch holds or returned, is about the CPEs asked for. */
  ghost predicate AllOnTopic(h: Cache.History) {
    && (forall a <- h.answers :: a.source == NVD ==> Nvd.About(a.section, a.ent.cpes))
    && (forall f <- h.flights :: FlightOnTopic(f))
  }

  ghost predicate FlightOnTopic(f: Cache.Flight) {
    match f.stage
    case Asking => true
    case InHand(section) => Answers(f, section)
    case Over(section, _) => Answers(f, section)
  }

  /** A run that did not read its mapping from the store is using what the model said. */
  ghost predicate Honest(r: Running) {
    && OnTopic(r, r.sections)
    && (!r.cached ==> r.said == Some(r.resolution))
  }

  /** Run `p` earned the row: it pinned this resolution under this key. */
  ghost predicate Earned(p: Running, key: Key, res: Resolution) {
    p.resolution == res && key == KeyOf(p.req.query.company, p.req.query.service, RESOLUTION)
  }

  ghost predicate RowsEarned(m: Machine) {
    forall key <- m.history.world.rows :: m.history.world.rows[key].payload.ResolutionPayload? ==>
      exists p :: p in m.pinned && Earned(p, key, m.history.world.rows[key].payload.resolution)
  }

  ghost predicate Inv(hash: string -> string, ttl: Option<int>, m: Machine) {
    && Cache.RowsTraced(hash, m.history)
    && AllOnTopic(m.history)
    && (forall r <- m.runs :: Honest(r))
    && (forall p <- m.pinned :: Honest(p) && Pins(ttl, p))
    && RowsEarned(m)
  }

  lemma BeginInv(hash: string -> string, ttl: Option<int>, m: Machine, a: Action)
    requires Inv(hash, ttl, m) && a.Begin?
    ensures Inv(hash, ttl, Act(hash, ttl, m, a))
  {}

  lemma ReportInv(hash: string -> string, ttl: Option<int>, m: Machine, a: Action)
    requires Inv(hash, ttl, m) && a.Report? && Possible(m, a)
    ensures Inv(hash, ttl, Act(hash, ttl, m, a))
  {
    ExtendedHonest(m.runs, a.run, a.sections);
  }

  lemma ExtendedHonest(runs: seq<Running>, i: nat, sections: seq<Section>)
    requires i < |runs| && (forall r <- runs :: Honest(r)) && OnTopic(runs[i], sections)
    ensures forall r <- Extended(runs, i, sections) :: Honest(r)
  {
    var more := runs[i].(sections := runs[i].sections + sections);
    assert runs[i] in runs;
    assert more.Entity() == runs[i].Entity();
    assert Honest(more);
  }

  /** What a look serves is about the CPEs it was given, even when another fetch recorded it. */
  lemma LookedOnTopic(hash: string -> string, h: Cache.History, c: Cache.Wrapped, q: Query, ent: Entity, readOk: bool)
    requires IdealHash(hash) && Cache.RowsTraced(hash, h) && AllOnTopic(h) && c.Wraps()
    ensures FlightOnTopic(Cache.Looked(hash, h.world, c, q, ent, readOk))
  {
    var usable := Cache.Usable(hash, h.world.rows, h.world.now, c, q, ent, readOk);
    if usable.Some? {
      var a := Cache.ServedCopies(hash, h, c, q, ent, readOk);
      FingerprintExact(hash, c.name, a.q, a.ent, q, ent);
      assert a.source == c.name;
      assert Cache.Looked(hash, h.world, c, q, ent, readOk).stage.section == usable.value.(cached := true);
    }
  }

  lemma StepOnTopic(hash: string -> string, m: Machine, a: Action)
    requires IdealHash(hash) && Cache.RowsTraced(hash, m.history) && AllOnTopic(m.history)
    requires a.Caching? && Possible(m, a)
    ensures AllOnTopic(Cache.Happen(hash, m.history, a.e))
  {
    var h, t := m.history, Cache.Happen(hash, m.history, a.e);
    if a.e.Look? {
      LookedOnTopic(hash, h, a.e.c, a.e.q, a.e.ent, a.e.readOk);
    }
    hide Cache.Looked, Cache.AfterWrite, Nvd.About;
    forall f <- t.flights ensures FlightOnTopic(f) {
      var k :| 0 <= k < |t.flights| && t.flights[k] == f;
      assert k < |h.flights| ==> h.flights[k] in h.flights;
    }
    forall x <- t.answers | x.source == NVD ensures Nvd.About(x.section, x.ent.cpes) {
      if x !in h.answers {
        assert h.flights[a.e.flight] in h.flights;
      }
    }
  }

  lemma CachingInv(hash: string -> string, ttl: Option<int>, m: Machine, a: Action)
    requires IdealHash(hash) && Inv(hash, ttl, m) && a.Caching? && Possible(m, a)
    ensures Inv(hash, ttl, Act(hash, ttl, m, a))
  {
    Cache.HappenIsTraced(hash, m.history, a.e);
    StepOnTopic(hash, m, a);
    CachingKeepsMappings(hash, m, a);
    hide Cache.RowsTraced, AllOnTopic, RowsEarned, Honest, Pins, Cache.Happen;
  }

  lemma CachingKeepsMappings(hash: string -> string, m: Machine, a: Action)
    requires RowsEarned(m) && a.Caching? && Possible(m, a)
    ensures RowsEarned(m.(history := Cache.Happen(hash, m.history, a.e)))
  {
    hide Earned;
    var t := Cache.Happen(hash, m.history, a.e).world.rows;
    forall key <- t | t[key].payload.ResolutionPayload?
      ensures key in m.history.world.rows && t[key] == m.history.world.rows[key]
    {}
  }

  lemma DeliverInv(hash: string -> string, ttl: Option<int>, m: Machine, a: Action)
    requires Inv(hash, ttl, m) && a.Deliver? && Possible(m, a)
    ensures Inv(hash, ttl, Act(hash, ttl, m, a))
  {
    var f := m.history.flights[a.flight];
    assert f in m.history.flights && FlightOnTopic(f);
    ExtendedHonest(m.runs, a.run, [f.stage.section]);
  }

  lemma RecordInv(hash: string -> string, ttl: Option<int>, m: Machine, a: Action)
    requires Inv(hash, ttl, m) && a.Record? && Possible(m, a)
    ensures Inv(hash, ttl, Act(hash, ttl, m, a))
  {
    var t := Act(hash, ttl, m, a);
    var r, w := m.runs[a.run], m.history.world;
    assert r in m.runs;
    var key := KeyOf(r.req.query.company, r.req.query.service, RESOLUTION);
    forall k <- t.history.world.rows | t.history.world.rows[k].payload.ResolutionPayload?
      ensures exists p :: p in t.pinned && Earned(p, k, t.history.world.rows[k].payload.resolution)
    {
      if k in w.rows && t.history.world.rows[k] == w.rows[k] {
        var p :| p in m.pinned && Earned(p, k, w.rows[k].payload.resolution);
        assert p in t.pinned;
      } else {
        assert r in t.pinned && Earned(r, k, t.history.world.rows[k].payload.resolution);
      }
    }
    RecordKeepsTraces(hash, ttl, m, r, a.fault);
  }

  lemma RecordKeepsTraces(hash: string -> string, ttl: Option<int>, m: Machine, r: Running, fault: Fault)
    requires Cache.RowsTraced(hash, m.history)
    ensures var w := m.history.world;
      Cache.RowsTraced(hash, m.history.(world := w.(rows := MappingRecorded(w.rows, w.now, ttl, r, fault))))
  {
    var w := m.history.world;
    var rows := MappingRecorded(w.rows, w.now, ttl, r, fault);
    forall key <- rows | rows[key].payload.SectionPayload?
      ensures key in w.rows && rows[key] == w.rows[key]
    {}
  }

  lemma {:induction false} AlwaysInv(hash: string -> string, ttl: Option<int>, actions: seq<Action>)
    requires IdealHash(hash) && Actions(hash, ttl, actions)
    ensures Inv(hash, ttl, After(hash, ttl, actions))
  {
    if actions != [] {
      var before, a := actions[..|actions| - 1], actions[|actions| - 1];
      AlwaysInv(hash, ttl, before);
      var m := After(hash, ttl, before);
      match a
      case Begin(_, _, _) => BeginInv(hash, ttl, m, a);
      case Caching(_) => CachingInv(hash, ttl, m, a);
      case Deliver(_, _) => DeliverInv(hash, ttl, m, a);
      case Report(_, _) => ReportInv(hash, ttl, m, a);
      case Record(_, _) => RecordInv(hash, ttl, m, a);
    }
  }

  /** After any interleaving, whatever a fetch of NVD returned is about the CPEs it was given, whoever recorded it. */
  lemma FetchedOnTopic(hash: string -> string, ttl: Option<int>, actions: seq<Action>, k: nat)
    requires IdealHash(hash) && Actions(hash, ttl, actions)
    requires var flights := After(hash, ttl, actions).history.flights;
             k < |flights| && flights[k].c.name == NVD && flights[k].stage.Over?
    ensures var f := After(hash, ttl, actions).history.flights[k]; Nvd.About(f.stage.section, f.ent.cpes)
  {
    AlwaysInv(hash, ttl, actions);
    var f := After(hash, ttl, actions).history.flights[k];
    assert f in After(hash, ttl, actions).history.flights && FlightOnTopic(f);
  }

  /**
   Whatever ran before, a stored mapping was earned: a run that resolved it afresh and did not override
   its CPEs stored the model's own answer, and NVD, if it judged at all, judged exactly those CPEs and
   did not find them all invented.
   */
  lemma StoredMappingsAreEarned(hash: string -> string, ttl: Option<int>, actions: seq<Action>, key: Key)
    returns (p: Running)
    requires IdealHash(hash) && Actions(hash, ttl, actions)
    requires var rows := After(hash, ttl, actions).history.world.rows;
             key in rows && rows[key].payload.ResolutionPayload?
    ensures p in After(hash, ttl, actions).pinned
    ensures var res := After(hash, ttl, actions).history.world.rows[key].payload.resolution;
      && Earned(p, key, res)
      && res.Cacheable()
      && p.said == Some(res) && !p.cached && p.req.cpes == []
      && Verdict(p.sections) != Some(false)
      && forall s <- p.sections :: s.source == NVD ==> Nvd.About(s, res.entity.cpes)
  {
    AlwaysInv(hash, ttl, actions);
    var m := After(hash, ttl, actions);
    p :| p in m.pinned && Earned(p, key, m.history.world.rows[key].payload.resolution);
    assert Honest(p) && Pins(ttl, p);
  }

  /** A pinned mapping is what the next run starts from, however the names are spelled, while it is fresh. */
  lemma PinnedIsReused(
    rows: Table, now: int, ttl: int, r: Running, later: nat, req: Request, said: Option<Resolution>)
    requires Pins(Some(ttl), r) && later < ttl && !req.noCache
    requires !HeldByAnalyst(rows, KeyOf(r.req.query.company, r.req.query.service, RESOLUTION))
    requires KeyOf(req.query.company, req.query.service, RESOLUTION) ==
             KeyOf(r.req.query.company, r.req.query.service, RESOLUTION)
    ensures Begun(MappingRecorded(rows, now, Some(ttl), r, Healthy), now + later, Some(ttl), req, said, true) ==
            Some(Running(req, said, r.resolution, true, []))
  {}

  /**
   An override reaches the source it corrects and no other. Whatever the services reply, NVD is asked what it
   would be asked about the analyst's CPEs, BitSight about the analyst's domain, and every other source makes
   the requests and the section it makes for the mapping.
   */
  lemma OverridesReachTheirSource(r: Running, source: string, s: Sources.Services)
    requires source != RESEARCH && CacheableSource(source) && Resolved(r.resolution.entity)
    ensures var q, mapped := r.req.query, r.resolution.entity;
      Sources.Fetch(source, q, r.Entity(), s) ==
        if source == NVD && r.req.cpes != [] then Sources.Fetch(NVD, q, mapped.(cpes := r.req.cpes), s)
        else if source == BITSIGHT && !Blank(r.req.domain)
        then Sources.Fetch(BITSIGHT, q, mapped.(domains := [TrimSpace(r.req.domain)]), s)
        else Sources.Fetch(source, q, mapped, s)
  {
    var q, mapped := r.req.query, r.resolution.entity;
    var overridden :=
      if source == NVD && r.req.cpes != [] then mapped.(cpes := r.req.cpes)
      else if source == BITSIGHT && !Blank(r.req.domain) then mapped.(domains := [TrimSpace(r.req.domain)])
      else mapped;
    OverrideInputs(r, source, overridden);
    hide *;
    Sources.EqualInputsSameFetch(source, q, r.Entity(), q, overridden, s);
  }

  lemma OverrideInputs(r: Running, source: string, overridden: Entity)
    requires source != RESEARCH && CacheableSource(source) && Resolved(r.resolution.entity)
    requires overridden ==
      if source == NVD && r.req.cpes != [] then r.resolution.entity.(cpes := r.req.cpes)
      else if source == BITSIGHT && !Blank(r.req.domain)
      then r.resolution.entity.(domains := [TrimSpace(r.req.domain)])
      else r.resolution.entity
    ensures Inputs(source, r.req.query, r.Entity()) == Inputs(source, r.req.query, overridden)
    ensures Resolved(r.Entity()) && Resolved(overridden) && Sources.Deterministic(source)
  {
    assert Vendor.VendorNames(r.req.query, r.Entity()) == Vendor.VendorNames(r.req.query, overridden);
  }

  // --- The fan-out decides --------------------------------------------------------------------

  /**
   Of everything a fan-out reports, in whatever order it arrived, only NVD's own section decides whether the
   mapping is pinned: the section it sent in time, or the expiry notice, which is no verdict.
   */
  lemma FanOutDecidesPinning(
    ttl: Option<int>, r: Running, names: seq<string>, dead: bool, moves: seq<FanOut.Move>, i: nat)
    requires FanOut.Interleaving(FanOut.Start(names, dead), moves)
    requires FanOut.After(FanOut.Start(names, dead), moves).phase.Done?
    requires var s := FanOut.After(FanOut.Start(names, dead), moves);
      && i < |s.names| && FanOut.Owed(s, i).source == NVD
      && forall k: nat :: k < |s.names| && k != i ==> FanOut.Owed(s, k).source != NVD
    ensures var s := FanOut.After(FanOut.Start(names, dead), moves);
      && (Pins(ttl, r.(sections := FanOut.Sections(Assess.Ordered(s.results)))) <==>
            Pins(ttl, r.(sections := [FanOut.Owed(s, i)])))
      && (i !in s.sent || i in s.late ==>
            (Pins(ttl, r.(sections := FanOut.Sections(Assess.Ordered(s.results)))) <==> Pins(ttl, r.(sections := []))))
  {
    var s := FanOut.After(FanOut.Start(names, dead), moves);
    FanOut.ReturnedIsComplete(names, dead, moves);
    Assess.CompleteMembers(s);
    Assess.OrderedSorts(s.results);
    hide FanOut.After, FanOut.Interleaving, Assess.Ordered, FanOut.Complete, FanOut.Expired;
    ReportHolds(s.results, Assess.Ordered(s.results));
    var report := FanOut.Sections(Assess.Ordered(s.results));
    assert FanOut.Result(i, FanOut.Owed(s, i)) in s.results;
    assert FanOut.Owed(s, i) in report;
    forall t <- report | t.source == NVD ensures t == FanOut.Owed(s, i) {
      var x :| x in s.results && x.section == t;
      assert x.index == i;
    }
    VerdictOfOnly(report, FanOut.Owed(s, i));
    NoticeIsNoVerdict(s.names[i]);
  }

  /** The report's sections are the results' sections. */
  lemma ReportHolds(results: seq<FanOut.Result>, ordered: seq<FanOut.Result>)
    requires multiset(ordered) == multiset(results)
    ensures forall t :: t in FanOut.Sections(ordered) <==> exists x :: x in results && x.section == t
  {
    forall t | t in FanOut.Sections(ordered) ensures exists x :: x in results && x.section == t {
      var k :| 0 <= k < |ordered| && FanOut.Sections(ordered)[k] == t;
      assert ordered[k] in multiset(ordered) && ordered[k] in multiset(results);
    }
    forall x <- results ensures x.section in FanOut.Sections(ordered) {
      assert x in multiset(results) && x in multiset(ordered);
      var k :| 0 <= k < |ordered| && ordered[k] == x;
      assert FanOut.Sections(ordered)[k] == x.section;
    }
  }

  lemma NoticeIsNoVerdict(name: string)
    ensures Verdict([FanOut.Expired(name)]) == None
  {
    assert [FanOut.Expired(name)][1..] == [];
  }

  // --- A run as written is one of the machine's runs ------------------------------------------

  /** NVD's own Fetch is always about the CPEs it was given. */
  lemma LiveIsOnTopic(r: Running, nvd: Nvd.Upstream)
    ensures OnTopic(r, [Nvd.NvdFetch(nvd, r.Entity()).section])
    ensures Nvd.NvdFetch(nvd, r.Entity()).section.source == NVD
  {
    var _ := Nvd.SectionReports(nvd, r.Entity());
    Sources.NvdBuilds(nvd, r.Entity());
    hide Nvd.NvdFetch, Nvd.About;
  }

  /** How NVD's section reaches run `i`: through a fetch of its own, the k-th, or directly. */
  function NvdSteps(i: nat, k: nat, c: Cache.Wrapped, r: Running, w: Surroundings): seq<Action> {
    var live := Nvd.NvdFetch(w.nvd, r.Entity()).section;
    if c.Wraps() then
      [Caching(Cache.Look(c, r.req.query, r.Entity(), w.sectionRead)), Caching(Cache.Receive(k, live)),
       Caching(Cache.Write(k, w.sectionWrite)), Deliver(i, k)]
    else [Report(i, [live])]
  }

  /** The steps of run `i` once it has begun as `r`. */
  function StepsOf(i: nat, k: nat, nvd: Option<Cache.Wrapped>, r: Running, w: Surroundings): seq<Action> {
    (if nvd.None? then [] else NvdSteps(i, k, nvd.value.(bypass := r.req.noCache), r, w)) +
    [Report(i, w.others(r.Entity())), Record(i, w.resolutionWrite)]
  }

  ghost predicate Follows(hash: string -> string, ttl: Option<int>, m: Machine, actions: seq<Action>)
    decreases |actions|
  {
    actions == [] || (Possible(m, actions[0]) && Follows(hash, ttl, Act(hash, ttl, m, actions[0]), actions[1..]))
  }

  ghost function End(hash: string -> string, ttl: Option<int>, m: Machine, actions: seq<Action>): Machine
    requires Follows(hash, ttl, m, actions)
    decreases |actions|
  {
    if actions == [] then m else End(hash, ttl, Act(hash, ttl, m, actions[0]), actions[1..])
  }

  /** Taking more steps after some. */
  lemma {:induction false} Onward(hash: string -> string, ttl: Option<int>, m: Machine, a: seq<Action>, b: seq<Action>)
    requires Follows(hash, ttl, m, a) && Follows(hash, ttl, End(hash, ttl, m, a), b)
    ensures Follows(hash, ttl, m, a + b)
    ensures End(hash, ttl, m, a + b) == End(hash, ttl, End(hash, ttl, m, a), b)
    decreases |a|
  {
    hide Act, Possible;
    if a == [] {
      assert a + b == b;
    } else {
      assert (a + b)[1..] == a[1..] + b;
      Onward(hash, ttl, Act(hash, ttl, m, a[0]), a[1..], b);
    }
  }

  /** The steps of a fetch that nothing interrupts, and the delivery of what it returned. */
  lemma FourSteps(
    hash: string -> string, ttl: Option<int>, m: Machine, i: nat, c: Cache.Wrapped, live: Section,
    readOk: bool, fault: Fault)
    requires i < |m.runs| && c.bypass == m.runs[i].req.noCache && c.Wraps()
    requires live.source == c.name && OnTopic(m.runs[i], [live])
    ensures var r, k := m.runs[i], |m.history.flights|;
      var f := Cache.FetchThrough(
        hash, m.history.world.rows, m.history.world.now, c, r.req.query, r.Entity(), live, readOk, fault);
      var looked := Caching(Cache.Look(c, r.req.query, r.Entity(), readOk));
      var steps := [looked, Caching(Cache.Receive(k, live)), Caching(Cache.Write(k, fault)), Deliver(i, k)];
      && Follows(hash, ttl, m, steps)
      && End(hash, ttl, m, steps).runs == m.runs[i := r.(sections := r.sections + [f.section])]
      && End(hash, ttl, m, steps).history.world == m.history.world.(rows := f.rows)
  {
    var r, k, h := m.runs[i], |m.history.flights|, m.history;
    var looked, received, written, delivered :=
      Caching(Cache.Look(c, r.req.query, r.Entity(), readOk)), Caching(Cache.Receive(k, live)),
      Caching(Cache.Write(k, fault)), Deliver(i, k);
    Cache.FetchIsSteps(hash, h, c, r.req.query, r.Entity(), live, readOk, fault);
    var m1 := Act(hash, ttl, m, looked);
    LookAdds(hash, h, c, r.req.query, r.Entity(), readOk);
    hide Cache.FetchThrough, Cache.Happen, Nvd.About, Follows, End;
    assert Possible(m1, received);
    var m2 := Act(hash, ttl, m1, received);
    var m3 := Act(hash, ttl, m2, written);
    assert m3.history.flights[k] in m3.history.flights;
    assert Possible(m3, delivered);
    OneStep(hash, ttl, m, looked);
    OneStep(hash, ttl, m1, received);
    OneStep(hash, ttl, m2, written);
    OneStep(hash, ttl, m3, delivered);
    Onward(hash, ttl, m, [looked], [received]);
    Onward(hash, ttl, m, [looked] + [received], [written]);
    Onward(hash, ttl, m, [looked] + [received] + [written], [delivered]);
    assert [looked] + [received] + [written] + [delivered] == [looked, received, written, delivered];
  }

  lemma LookAdds(hash: string -> string, h: Cache.History, c: Cache.Wrapped, q: Query, ent: Entity, readOk: bool)
    ensures var t := Cache.Happen(hash, h, Cache.Look(c, q, ent, readOk));
      && |t.flights| == |h.flights| + 1
      && t.flights[|h.flights|].c == c && t.flights[|h.flights|].q == q && t.flights[|h.flights|].ent == ent
  {
    hide Cache.Usable;
  }

  lemma ReportStep(hash: string -> string, ttl: Option<int>, m: Machine, i: nat, live: Section)
    requires i < |m.runs| && OnTopic(m.runs[i], [live])
    ensures Follows(hash, ttl, m, [Report(i, [live])])
    ensures var end := End(hash, ttl, m, [Report(i, [live])]);
      end.history == m.history && end.runs == m.runs[i := m.runs[i].(sections := m.runs[i].sections + [live])]
  {
    hide OnTopic;
    OneStep(hash, ttl, m, Report(i, [live]));
  }

  lemma Uncached(
    hash: string -> string, rows: Table, now: int, i: nat, k: nat, c: Cache.Wrapped, r: Running, w: Surroundings)
    requires !c.Wraps()
    ensures var live := Nvd.NvdFetch(w.nvd, r.Entity()).section;
      && NvdFetched(hash, rows, now, c, r, w) == Cache.Fetched(rows, live, false)
      && NvdSteps(i, k, c, r, w) == [Report(i, [live])]
  {
    hide Nvd.NvdFetch, Cache.FetchThrough;
  }

  lemma NvdStepsAreFetch(
    hash: string -> string, ttl: Option<int>, m: Machine, i: nat, c: Cache.Wrapped, w: Surroundings)
    requires i < |m.runs| && c.bypass == m.runs[i].req.noCache && c.name == NVD
    ensures var r, steps := m.runs[i], NvdSteps(i, |m.history.flights|, c, m.runs[i], w);
      var f := NvdFetched(hash, m.history.world.rows, m.history.world.now, c, r, w);
      && Follows(hash, ttl, m, steps)
      && End(hash, ttl, m, steps).runs == m.runs[i := r.(sections := r.sections + [f.section])]
      && End(hash, ttl, m, steps).history.world == m.history.world.(rows := f.rows)
  {
    var r := m.runs[i];
    var live := Nvd.NvdFetch(w.nvd, r.Entity()).section;
    LiveIsOnTopic(r, w.nvd);
    if c.Wraps() {
      hide Nvd.NvdFetch, OnTopic, Act, Possible, Follows, End, Cache.FetchThrough;
      FourSteps(hash, ttl, m, i, c, live, w.sectionRead, w.sectionWrite);
    } else {
      ReportStep(hash, ttl, m, i, live);
      hide *;
      Uncached(hash, m.history.world.rows, m.history.world.now, i, |m.history.flights|, c, r, w);
    }
  }

  lemma OneStep(hash: string -> string, ttl: Option<int>, m: Machine, a: Action)
    requires Possible(m, a)
    ensures Follows(hash, ttl, m, [a]) && End(hash, ttl, m, [a]) == Act(hash, ttl, m, a)
  {
    hide Act;
    assert [a][1..] == [];
    assert Follows(hash, ttl, Act(hash, ttl, m, a), []);
  }

  /** Reporting the other sources and recording, the two steps every run ends with. */
  lemma ClosingSteps(
    hash: string -> string, ttl: Option<int>, m: Machine, i: nat, w: Surroundings, others: seq<Section>)
    requires i < |m.runs| && forall s <- others :: s.source != NVD
    ensures Follows(hash, ttl, m, [Report(i, others), Record(i, w.resolutionWrite)])
    ensures var r, end := m.runs[i], End(hash, ttl, m, [Report(i, others), Record(i, w.resolutionWrite)]);
      var done := r.(sections := r.sections + others);
      && end.runs == m.runs[i := done]
      && end.history.world.rows ==
           MappingRecorded(m.history.world.rows, m.history.world.now, ttl, done, w.resolutionWrite)
  {
    hide MappingRecorded, Pins;
    var report, record := Report(i, others), Record(i, w.resolutionWrite);
    var reported := Act(hash, ttl, m, report);
    OneStep(hash, ttl, reported, record);
    assert [report, record][1..] == [record];
  }

  lemma StepsComplete(
    hash: string -> string, ttl: Option<int>, nvd: Option<Cache.Wrapped>, m: Machine, i: nat, w: Surroundings)
    requires i < |m.runs| && (nvd.Some? ==> nvd.value.name == NVD)
    requires forall s <- w.others(m.runs[i].Entity()) :: s.source != NVD
    ensures Follows(hash, ttl, m, StepsOf(i, |m.history.flights|, nvd, m.runs[i], w))
    ensures var end := End(hash, ttl, m, StepsOf(i, |m.history.flights|, nvd, m.runs[i], w));
      var (done, rows) := Completed(hash, ttl, nvd, m.history.world.rows, m.history.world.now, m.runs[i], w);
      end.runs == m.runs[i := done] && end.history.world.rows == rows
  {
    hide NvdSteps, NvdFetched, Act, MappingRecorded, Possible, Follows, End;
    var r, k := m.runs[i], |m.history.flights|;
    var closing := [Report(i, w.others(r.Entity())), Record(i, w.resolutionWrite)];
    if nvd.None? {
      assert StepsOf(i, k, nvd, r, w) == closing;
      ClosingSteps(hash, ttl, m, i, w, w.others(r.Entity()));
    } else {
      var c := nvd.value.(bypass := r.req.noCache);
      var steps := NvdSteps(i, k, c, r, w);
      NvdStepsAreFetch(hash, ttl, m, i, c, w);
      var fetched := End(hash, ttl, m, steps);
      assert fetched.runs[i].Entity() == r.Entity();
      ClosingSteps(hash, ttl, fetched, i, w, w.others(r.Entity()));
      assert StepsOf(i, k, nvd, r, w) == steps + closing;
      Onward(hash, ttl, m, steps, closing);
    }
  }

  /** Whether NVD is configured or switched off, what Runner.Run leaves behind is what its steps leave behind. */
  lemma RunIsActions(
    hash: string -> string, ttl: Option<int>, nvd: Option<Cache.Wrapped>, m: Machine, req: Request, w: Surroundings)
    returns (r: Running)
    requires nvd.Some? ==> nvd.value.name == NVD
    requires Begun(m.history.world.rows, m.history.world.now, ttl, req, w.said, w.resolutionRead).Some?
    requires forall e :: forall s <- w.others(e) :: s.source != NVD
    ensures Begun(m.history.world.rows, m.history.world.now, ttl, req, w.said, w.resolutionRead) == Some(r)
    ensures var begun := Act(hash, ttl, m, Begin(req, w.said, w.resolutionRead));
      && Follows(hash, ttl, begun, StepsOf(|m.runs|, |m.history.flights|, nvd, r, w))
      && var end := End(hash, ttl, begun, StepsOf(|m.runs|, |m.history.flights|, nvd, r, w));
      var (done, rows) := Completed(hash, ttl, nvd, m.history.world.rows, m.history.world.now, r, w);
      end.runs == m.runs + [done] && end.history.world.rows == rows
  {
    r := Begun(m.history.world.rows, m.history.world.now, ttl, req, w.said, w.resolutionRead).value;
    var begun := Act(hash, ttl, m, Begin(req, w.said, w.resolutionRead));
    assert begun.runs == m.runs + [r] && begun.runs[|m.runs|] == r && begun.history == m.history;
    hide *;
    StepsComplete(hash, ttl, nvd, begun, |m.runs|, w);
    var done := End(hash, ttl, begun, StepsOf(|m.runs|, |m.history.flights|, nvd, r, w)).runs[|m.runs|];
    assert (m.runs + [r])[|m.runs| := done] == m.runs + [done];
  }
}
