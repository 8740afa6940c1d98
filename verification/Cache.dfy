/** A source behind the table: what it serves, what it records, and what any history of fetches can serve. */
module Cache {
  import opened Domain
  import opened Sequences
  import opened Store
  import opened Fingerprint

  /** One wrapped source: its name, its lifetime, and whether this run skips the read. */
  datatype Wrapped = Wrapped(name: string, ttl: int, bypass: bool) {
    /** Only a registered source with a positive lifetime is wrapped at all. */
    predicate Wraps() {
      ttl > 0 && CacheableSource(name)
    }
  }

  datatype Fetched = Fetched(rows: Table, section: Section, hit: bool)

  /** A stored answer this fetch may serve: read without error, fresh, for these inputs, and OK. */
  function Usable(
    hash: string -> string, rows: Table, now: int, c: Wrapped, q: Query, ent: Entity, readOk: bool): Option<Section>
  {
    var inputs := SectionInputs(hash, c.name, q, ent);
    var found := ReadSection(rows, now, KeyOf(q.company, q.service, c.name), c.ttl, inputs);
    if c.bypass || !readOk || !found.Hit? || found.value.status != OK then None else Some(found.value)
  }

  /** The row is the cache's own, fresh, recorded for these identifiers, and this section is what it says. */
  ghost predicate Holds(rows: Table, now: int, key: Key, ttl: int, inputs: string, s: Section) {
    && ttl > 0 && CacheableSource(key.source)
    && key in rows && !rows[key].manual && rows[key].fetchedAt > now - ttl
    && rows[key].payload == SectionPayload(s, inputs) && s.source == key.source
  }

  ghost predicate SameRow(a: Table, b: Table, key: Key) {
    (key in a <==> key in b) && (key in a ==> a[key] == b[key])
  }

  lemma HitIsHeld(rows: Table, now: int, key: Key, ttl: int, inputs: string, s: Section)
    ensures ReadSection(rows, now, key, ttl, inputs) == Hit(s) <==> Holds(rows, now, key, ttl, inputs, s)
  {
    hide CacheableSource;
  }

  function FetchThrough(
    hash: string -> string, rows: Table, now: int, c: Wrapped, q: Query, ent: Entity,
    live: Section, readOk: bool, fault: Fault): Fetched
  {
    match Usable(hash, rows, now, c, q, ent, readOk)
    case Some(stored) => Fetched(rows, stored.(cached := true), true)
    case None =>
      if live.status != OK then Fetched(rows, live, false) else
      Fetched(
        SectionWritten(rows, now, KeyOf(q.company, q.service, c.name), live,
                       SectionInputs(hash, c.name, q, ent), fault),
        live, false)
  }

  /** A section that a fetch may serve instead of asking: the read is not bypassed, and the table holds it. */
  ghost predicate Servable(
    hash: string -> string, rows: Table, now: int, c: Wrapped, q: Query, ent: Entity, readOk: bool, s: Section)
  {
    && !c.bypass && readOk && s.status == OK
    && Holds(rows, now, KeyOf(q.company, q.service, c.name), c.ttl, SectionInputs(hash, c.name, q, ent), s)
  }

  /** An OK answer that may be written: it is this wrapped source's own, and no analyst holds the row. */
  ghost predicate Recordable(
    hash: string -> string, rows: Table, c: Wrapped, q: Query, ent: Entity, live: Section)
  {
    && c.Wraps() && SectionInputs(hash, c.name, q, ent) != ""
    && live.status == OK && live.source == c.name && CodecAccepts(c.name, live.data)
    && !HeldByAnalyst(rows, KeyOf(q.company, q.service, c.name))
  }

  /**
   What a fetch is to its caller and to the table: it serves exactly what may be served; otherwise,
   bypassed or not, it returns the source's answer and records it if it can be; and it changes nothing else.
   */
  ghost predicate Settled(
    hash: string -> string, rows: Table, after: Table, now: int, c: Wrapped, q: Query, ent: Entity,
    live: Section, readOk: bool, fault: Fault, section: Section)
  {
    var key, inputs := KeyOf(q.company, q.service, c.name), SectionInputs(hash, c.name, q, ent);
    && (forall s :: Servable(hash, rows, now, c, q, ent, readOk, s) ==> section == s.(cached := true) && after == rows)
    && ((forall s :: !Servable(hash, rows, now, c, q, ent, readOk, s)) ==>
          && section == live
          && (Recordable(hash, rows, c, q, ent, live) && fault != Lost ==>
                Holds(after, now, key, c.ttl, inputs, live.(cached := false))))
    && (live.status != OK || fault == Lost || HeldByAnalyst(rows, key) ==> after == rows)
    && forall k | k != key :: SameRow(after, rows, k)
  }

  lemma UsableMeans(
    hash: string -> string, rows: Table, now: int, c: Wrapped, q: Query, ent: Entity, readOk: bool)
    ensures forall s :: Usable(hash, rows, now, c, q, ent, readOk) == Some(s) <==>
              Servable(hash, rows, now, c, q, ent, readOk, s)
  {
    var key, inputs := KeyOf(q.company, q.service, c.name), SectionInputs(hash, c.name, q, ent);
    forall s ensures ReadSection(rows, now, key, c.ttl, inputs) == Hit(s) <==> Holds(rows, now, key, c.ttl, inputs, s) {
      HitIsHeld(rows, now, key, c.ttl, inputs, s);
    }
    hide Holds, ReadSection, KeyOf, SectionInputs;
  }

  lemma WrittenMeans(
    hash: string -> string, rows: Table, now: int, c: Wrapped, q: Query, ent: Entity, live: Section, fault: Fault)
    ensures var key, inputs := KeyOf(q.company, q.service, c.name), SectionInputs(hash, c.name, q, ent);
      var after := SectionWritten(rows, now, key, live, inputs, fault);
      && (Recordable(hash, rows, c, q, ent, live) && fault != Lost ==>
            Holds(after, now, key, c.ttl, inputs, live.(cached := false)))
      && (fault == Lost || HeldByAnalyst(rows, key) ==> after == rows)
      && forall k | k != key :: SameRow(after, rows, k)
  {
    hide NormalizeKey, SectionInputs, CodecAccepts;
  }

  lemma FetchMeans(
    hash: string -> string, rows: Table, now: int, c: Wrapped, q: Query, ent: Entity,
    live: Section, readOk: bool, fault: Fault)
    ensures var f := FetchThrough(hash, rows, now, c, q, ent, live, readOk, fault);
      && Settled(hash, rows, f.rows, now, c, q, ent, live, readOk, fault, f.section)
      && (f.hit <==> exists s :: Servable(hash, rows, now, c, q, ent, readOk, s))
  {
    var usable := Usable(hash, rows, now, c, q, ent, readOk);
    UsableMeans(hash, rows, now, c, q, ent, readOk);
    WrittenMeans(hash, rows, now, c, q, ent, live, fault);
    hide Usable, Servable, Recordable, Holds, KeyOf, SectionInputs, SectionWritten, HeldByAnalyst;
    if usable.Some? {
      assert usable == Some(usable.value);
    }
    NotOkNotRecorded(hash, rows, c, q, ent, live);
  }

  lemma NotOkNotRecorded(hash: string -> string, rows: Table, c: Wrapped, q: Query, ent: Entity, live: Section)
    ensures live.status != OK ==> !Recordable(hash, rows, c, q, ent, live)
  {}

  class CachedSource {
    const c: Wrapped
    const hash: string -> string
    const cache: Store

    constructor (c: Wrapped, hash: string -> string, cache: Store)
      ensures this.c == c && this.hash == hash && this.cache == cache
    {
      this.c, this.hash, this.cache := c, hash, cache;
    }

    /**
     Serves a usable row, or asks the source and records what it said. `live` is what the source would
     answer, `readOk` whether the cache read reaches the database, `fault` how the write goes.
     */
    method Fetch(q: Query, ent: Entity, live: Section, readOk: bool, fault: Fault)
      returns (section: Section, hit: bool)
      modifies cache`rows
      ensures var f := FetchThrough(hash, old(cache.rows), cache.now, c, q, ent, live, readOk, fault);
              cache.rows == f.rows && section == f.section && hit == f.hit
      ensures c.bypass || !readOk ==> !hit
      ensures !hit ==> section == live
      ensures hit ==> section.cached && section.status == OK && cache.rows == old(cache.rows)
      ensures hit <==> exists s :: Servable(hash, old(cache.rows), cache.now, c, q, ent, readOk, s)
      ensures Settled(hash, old(cache.rows), cache.rows, cache.now, c, q, ent, live, readOk, fault, section)
    {
      FetchMeans(hash, cache.rows, cache.now, c, q, ent, live, readOk, fault);
      hide Holds, Servable, Settled, KeyOf, SectionInputs, HeldByAnalyst, Usable;
      var inputs := SectionInputs(hash, c.name, q, ent);
      if !c.bypass {
        var stored := Lookup(q, inputs, readOk);
        LookedUp(q, ent, stored, readOk);
        if stored.Some? {
          return stored.value.(cached := true), true;
        }
      }
      if live.status == OK {
        var _ := cache.PutSection(q.company, q.service, c.name, live, inputs, fault);
      }
      return live, false;
    }

    lemma LookedUp(q: Query, ent: Entity, stored: Option<Section>, readOk: bool)
      requires !c.bypass
      requires forall s :: stored == Some(s) <==> (
        && readOk && s.status == OK
        && Holds(cache.rows, cache.now, KeyOf(q.company, q.service, c.name), c.ttl,
                 SectionInputs(hash, c.name, q, ent), s))
      ensures stored == Usable(hash, cache.rows, cache.now, c, q, ent, readOk)
    {
      var usable := Usable(hash, cache.rows, cache.now, c, q, ent, readOk);
      UsableMeans(hash, cache.rows, cache.now, c, q, ent, readOk);
      hide Usable, Holds, KeyOf, SectionInputs;
      if usable.Some? {
        assert usable == Some(usable.value);
      }
      if stored.Some? {
        assert stored == Some(stored.value);
      }
    }

    /** Reports exactly the OK section the table holds for this question, and nothing when it holds none. */
    method Lookup(q: Query, inputs: string, readOk: bool) returns (stored: Option<Section>)
      ensures forall s :: stored == Some(s) <==>
        readOk && s.status == OK && Holds(cache.rows, cache.now, KeyOf(q.company, q.service, c.name), c.ttl, inputs, s)
    {
      if !readOk {
        return None;
      }
      var found := cache.CachedSection(q.company, q.service, c.name, c.ttl, inputs);
      forall s ensures
        found == Hit(s) <==> Holds(cache.rows, cache.now, KeyOf(q.company, q.service, c.name), c.ttl, inputs, s)
      {
        HitIsHeld(cache.rows, cache.now, KeyOf(q.company, q.service, c.name), c.ttl, inputs, s);
      }
      hide Holds, ReadSection, KeyOf;
      if !found.Hit? {
        return None;
      }
      if found.value.status != OK {
        return None;
      }
      return Some(found.value);
    }
  }

  // --- Any interleaving of fetches ------------------------------------------------------------

  /** Where a fetch is: its source is being asked, an OK answer is in hand, or it has returned. */
  datatype Stage = Asking | InHand(section: Section) | Over(section: Section, hit: bool)

  /** One fetch, with the table's clock when it read the table. */
  datatype Flight = Flight(c: Wrapped, q: Query, ent: Entity, begun: int, stage: Stage)

  /** One successful answer of an inner source, with the table's clock when it was handed to the cache. */
  datatype Answer = Answer(source: string, q: Query, ent: Entity, section: Section, at: int)

  /** A fetch reads, hears from its source and writes, one at a time; anything may happen in between. */
  datatype Event =
    | Look(c: Wrapped, q: Query, ent: Entity, readOk: bool)
    | Receive(flight: nat, live: Section)
    | Write(flight: nat, fault: Fault)
    | Other(op: Op)

  /** Sections are written by wrapped sources only. */
  predicate Allowed(e: Event) {
    match e
    case Look(c, _, _, _) => c.Wraps()
    case Other(op) => !op.PutSection?
    case _ => true
  }

  datatype History = History(world: World, flights: seq<Flight>, answers: seq<Answer>)

  function Looked(hash: string -> string, w: World, c: Wrapped, q: Query, ent: Entity, readOk: bool): Flight {
    match Usable(hash, w.rows, w.now, c, q, ent, readOk)
    case Some(stored) => Flight(c, q, ent, w.now, Over(stored.(cached := true), true))
    case None => Flight(c, q, ent, w.now, Asking)
  }

  function Received(f: Flight, live: Section): Flight {
    f.(stage := if live.status == OK then InHand(live) else Over(live, false))
  }

  function Returned(f: Flight): Flight
    requires f.stage.InHand?
  {
    f.(stage := Over(f.stage.section, false))
  }

  /** The table once the answer in hand has been written, as the table stands then. */
  function AfterWrite(hash: string -> string, w: World, f: Flight, fault: Fault): World
    requires f.stage.InHand?
  {
    w.(rows := SectionWritten(w.rows, w.now, KeyOf(f.q.company, f.q.service, f.c.name), f.stage.section,
                              SectionInputs(hash, f.c.name, f.q, f.ent), fault))
  }

  /** An event that does not apply to its flight changes nothing. */
  function Happen(hash: string -> string, h: History, e: Event): History {
    match e
    case Look(c, q, ent, readOk) => h.(flights := h.flights + [Looked(hash, h.world, c, q, ent, readOk)])
    case Receive(k, live) =>
      if k < |h.flights| && h.flights[k].stage.Asking?
      then h.(flights := h.flights[k := Received(h.flights[k], live)])
      else h
    case Write(k, fault) =>
      if k < |h.flights| && h.flights[k].stage.InHand? then
        var f := h.flights[k];
        History(AfterWrite(hash, h.world, f, fault), h.flights[k := Returned(f)],
                h.answers + [Answer(f.c.name, f.q, f.ent, f.stage.section, h.world.now)])
      else h
    case Other(op) => h.(world := Step(h.world, op))
  }

  function Play(hash: string -> string, events: seq<Event>): History {
    if events == [] then History(EMPTY, [], []) else
    Happen(hash, Play(hash, events[..|events| - 1]), events[|events| - 1])
  }

  /** When nothing comes between its three steps, a fetch is what `CachedSource.Fetch` computes. */
  lemma FetchIsSteps(
    hash: string -> string, h: History, c: Wrapped, q: Query, ent: Entity, live: Section, readOk: bool, fault: Fault)
    ensures var f := FetchThrough(hash, h.world.rows, h.world.now, c, q, ent, live, readOk, fault);
      var looked := Happen(hash, h, Look(c, q, ent, readOk));
      var end := Happen(hash, Happen(hash, looked, Receive(|h.flights|, live)), Write(|h.flights|, fault));
      && end.world == h.world.(rows := f.rows)
      && end.flights == h.flights + [Flight(c, q, ent, h.world.now, Over(f.section, f.hit))]
  {
    hide Usable, SectionWritten, SectionInputs, KeyOf;
  }

  // --- What every history keeps ---------------------------------------------------------------

  /** The row is a faithful copy of answer `a`. */
  ghost predicate Copies(hash: string -> string, a: Answer, key: Key, row: Row) {
    && row.payload == SectionPayload(a.section.(cached := false), SectionInputs(hash, a.source, a.q, a.ent))
    && key == KeyOf(a.q.company, a.q.service, a.source)
    && row.fetchedAt == a.at
    && a.section.status == OK
  }

  /** Every stored section copies an answer, and only OK answers are in hand. */
  ghost predicate RowsTraced(hash: string -> string, h: History) {
    && (forall key <- h.world.rows :: h.world.rows[key].payload.SectionPayload? ==>
          exists a :: a in h.answers && Copies(hash, a, key, h.world.rows[key]))
    && (forall f <- h.flights :: f.stage.InHand? ==> f.stage.section.status == OK)
    && (forall a <- h.answers :: a.at <= h.world.now)
  }

  lemma LookIsTraced(hash: string -> string, h: History, e: Event)
    requires RowsTraced(hash, h) && (e.Look? || e.Receive?)
    ensures RowsTraced(hash, Happen(hash, h, e))
  {
    hide Usable, Copies;
    var t := Happen(hash, h, e);
    forall f <- t.flights | f.stage.InHand? ensures f.stage.section.status == OK {
      if e.Receive? && f !in h.flights {
        assert f == Received(h.flights[e.flight], e.live);
      }
    }
  }

  lemma WrittenIsTraced(hash: string -> string, h: History, e: Event)
    requires RowsTraced(hash, h) && e.Write?
    ensures RowsTraced(hash, Happen(hash, h, e))
  {
    var t := Happen(hash, h, e);
    if e.flight < |h.flights| && h.flights[e.flight].stage.InHand? {
      var f := h.flights[e.flight];
      var a := Answer(f.c.name, f.q, f.ent, f.stage.section, h.world.now);
      assert f in h.flights;
      assert t.answers == h.answers + [a] && a in t.answers;
      NewRowCopies(hash, h.world, f, e.fault);
      hide Copies, AfterWrite;
      forall key <- t.world.rows | t.world.rows[key].payload.SectionPayload?
        ensures exists a :: a in t.answers && Copies(hash, a, key, t.world.rows[key])
      {
        if key in h.world.rows && t.world.rows[key] == h.world.rows[key] {
          var b :| b in h.answers && Copies(hash, b, key, h.world.rows[key]);
          assert b in t.answers;
        }
      }
    }
  }

  lemma NewRowCopies(hash: string -> string, w: World, f: Flight, fault: Fault)
    requires f.stage.InHand? && f.stage.section.status == OK
    ensures var t := AfterWrite(hash, w, f, fault);
      && t.now == w.now
      && forall key <- t.rows :: (key in w.rows && t.rows[key] == w.rows[key]) ||
           Copies(hash, Answer(f.c.name, f.q, f.ent, f.stage.section, w.now), key, t.rows[key])
  {}

  lemma OtherIsTraced(hash: string -> string, h: History, e: Event)
    requires RowsTraced(hash, h) && e.Other? && Allowed(e)
    ensures RowsTraced(hash, Happen(hash, h, e))
  {
    var t := Happen(hash, h, e);
    hide Copies;
    forall key <- t.world.rows | t.world.rows[key].payload.SectionPayload?
      ensures exists a :: a in t.answers && Copies(hash, a, key, t.world.rows[key])
    {
      assert key in h.world.rows && t.world.rows[key] == h.world.rows[key];
    }
  }

  lemma HappenIsTraced(hash: string -> string, h: History, e: Event)
    requires RowsTraced(hash, h) && Allowed(e)
    ensures RowsTraced(hash, Happen(hash, h, e))
  {
    hide RowsTraced, Happen;
    match e
    case Write(_, _) => WrittenIsTraced(hash, h, e);
    case Other(_) => OtherIsTraced(hash, h, e);
    case _ => LookIsTraced(hash, h, e);
  }

  lemma {:induction false} AlwaysTraced(hash: string -> string, events: seq<Event>)
    requires forall e <- events :: Allowed(e)
    ensures RowsTraced(hash, Play(hash, events))
  {
    if events != [] {
      var before, e := events[..|events| - 1], events[|events| - 1];
      assert e in events && forall earlier <- before :: earlier in events;
      AlwaysTraced(hash, before);
      HappenIsTraced(hash, Play(hash, before), e);
    }
  }

  /** `a` is an answer to the question this fetch asks: same source, same names, same identifiers. */
  ghost predicate AnswersSame(a: Answer, c: Wrapped, q: Query, ent: Entity) {
    && a.source == c.name
    && KeyOf(a.q.company, a.q.service, a.source) == KeyOf(q.company, q.service, c.name)
    && Inputs(a.source, a.q, a.ent) == Inputs(c.name, q, ent)
  }

  /** What a hit delivered: an answer to the fetch's own question, recorded within the lifetime. */
  ghost predicate Justified(f: Flight, a: Answer) {
    && f.stage.Over? && f.stage.hit
    && !f.c.bypass && AnswersSame(a, f.c, f.q, f.ent)
    && a.section.status == OK && f.stage.section == a.section.(cached := true)
    && f.begun - f.c.ttl < a.at <= f.begun
  }

  /**
   However fetches, writes and analysts interleave, every section that was served from the table is one the
   source returned successfully for the same company, service and identifiers, recorded within the lifetime.
   */
  lemma {:induction false} ServedIsAnAnswer(hash: string -> string, events: seq<Event>, k: nat) returns (a: Answer)
    requires IdealHash(hash) && forall e <- events :: Allowed(e)
    requires k < |Play(hash, events).flights|
    requires var stage := Play(hash, events).flights[k].stage; stage.Over? && stage.hit
    ensures a in Play(hash, events).answers && Justified(Play(hash, events).flights[k], a)
  {
    hide Justified, Looked, Received, AfterWrite, RowsTraced;
    var before, e := events[..|events| - 1], events[|events| - 1];
    assert e in events && forall earlier <- before :: earlier in events;
    var h := Play(hash, before);
    if k < |h.flights| && h.flights[k] == Play(hash, events).flights[k] {
      a := ServedIsAnAnswer(hash, before, k);
    } else {
      AlwaysTraced(hash, before);
      HitLooked(hash, h, e, k);
      a := LookedJustified(hash, h, e.c, e.q, e.ent, e.readOk);
    }
  }

  /** Only a look can turn out to be a hit. */
  lemma HitLooked(hash: string -> string, h: History, e: Event, k: nat)
    requires k < |Happen(hash, h, e).flights|
    requires var stage := Happen(hash, h, e).flights[k].stage; stage.Over? && stage.hit
    requires k >= |h.flights| || h.flights[k] != Happen(hash, h, e).flights[k]
    ensures e.Look? && k == |h.flights|
    ensures Happen(hash, h, e).flights[k] == Looked(hash, h.world, e.c, e.q, e.ent, e.readOk)
    ensures Happen(hash, h, e).answers == h.answers
  {
    hide Looked, AfterWrite;
  }

  lemma LookedJustified(hash: string -> string, h: History, c: Wrapped, q: Query, ent: Entity, readOk: bool)
    returns (a: Answer)
    requires IdealHash(hash) && RowsTraced(hash, h) && c.Wraps()
    requires Looked(hash, h.world, c, q, ent, readOk).stage.Over?
    ensures a in h.answers && Justified(Looked(hash, h.world, c, q, ent, readOk), a)
  {
    a := ServedCopies(hash, h, c, q, ent, readOk);
    FingerprintExact(hash, c.name, a.q, a.ent, q, ent);
  }

  lemma ServedCopies(hash: string -> string, h: History, c: Wrapped, q: Query, ent: Entity, readOk: bool)
    returns (a: Answer)
    requires RowsTraced(hash, h)
    requires Usable(hash, h.world.rows, h.world.now, c, q, ent, readOk).Some?
    ensures !c.bypass
    ensures a in h.answers && Copies(hash, a, KeyOf(q.company, q.service, c.name),
                                     h.world.rows[KeyOf(q.company, q.service, c.name)])
    ensures h.world.now - c.ttl < a.at <= h.world.now
    ensures SectionInputs(hash, a.source, a.q, a.ent) == SectionInputs(hash, c.name, q, ent)
    ensures Usable(hash, h.world.rows, h.world.now, c, q, ent, readOk).value == a.section.(cached := false)
  {
    var key := KeyOf(q.company, q.service, c.name);
    a :| a in h.answers && Copies(hash, a, key, h.world.rows[key]);
  }

  /** The fetch got this section from its own source, and has it in hand or has returned it. */
  ghost predicate Live(f: Flight, section: Section) {
    f.stage == InHand(section) || f.stage == Over(section, false)
  }

  /** A fetch that was not a hit delivers, and hands to the cache, exactly what its source said to it. */
  lemma {:induction false} LiveWasReceived(hash: string -> string, events: seq<Event>, k: nat, section: Section)
    returns (i: nat)
    requires k < |Play(hash, events).flights| && Live(Play(hash, events).flights[k], section)
    ensures i < |events| && events[i] == Receive(k, section)
    ensures k < |Play(hash, events[..i]).flights|
    ensures Play(hash, events[..i]).flights[k] == Play(hash, events).flights[k].(stage := Asking)
  {
    hide Looked, AfterWrite, Live;
    var n := |events| - 1;
    var before, e := events[..n], events[n];
    var h := Play(hash, before);
    LiveStep(hash, h, e, k, section);
    if k < |h.flights| && Live(h.flights[k], section) {
      i := LiveWasReceived(hash, before, k, section);
      assert before[..i] == events[..i];
    } else {
      i := n;
    }
  }

  lemma LiveStep(hash: string -> string, h: History, e: Event, k: nat, section: Section)
    requires k < |Happen(hash, h, e).flights| && Live(Happen(hash, h, e).flights[k], section)
    ensures k < |h.flights|
    ensures h.flights[k].(stage := Asking) == Happen(hash, h, e).flights[k].(stage := Asking)
    ensures Live(h.flights[k], section) || (h.flights[k].stage.Asking? && e == Receive(k, section))
  {
    hide AfterWrite, Usable;
  }

  /** What is handed to the cache was in the hands of a fetch, at that very moment. */
  lemma {:induction false} AnswerWasWritten(hash: string -> string, events: seq<Event>, a: Answer)
    returns (j: nat, k: nat)
    requires a in Play(hash, events).answers
    ensures j < |events| && a.at == Play(hash, events[..j]).world.now
    ensures k < |Play(hash, events[..j]).flights|
    ensures var f := Play(hash, events[..j]).flights[k];
      Live(f, a.section) && a.source == f.c.name && a.q == f.q && a.ent == f.ent
  {
    hide Looked, Received, AfterWrite;
    var n := |events| - 1;
    var before, e := events[..n], events[n];
    var h := Play(hash, before);
    if a in h.answers {
      j, k := AnswerWasWritten(hash, before, a);
      assert before[..j] == events[..j];
    } else {
      j, k := n, e.flight;
    }
  }

  /**
   An analyst's row is safe from every fetch, also from one that had read the table before the analyst wrote:
   it stays the analyst's, and stays as it was until an analyst writes again.
   */
  lemma {:induction false} AnalystKeepsTheRow(hash: string -> string, events: seq<Event>, n: nat, key: Key)
    requires n <= |events| && HeldByAnalyst(Play(hash, events[..n]).world.rows, key)
    ensures HeldByAnalyst(Play(hash, events).world.rows, key)
    ensures (forall e <- events[n..] :: e.Other? ==> !e.op.SetManual?) ==>
              Play(hash, events).world.rows[key] == Play(hash, events[..n]).world.rows[key]
    decreases |events|
  {
    if n == |events| {
      assert events[..n] == events;
    } else {
      var before, e := events[..|events| - 1], events[|events| - 1];
      assert before[..n] == events[..n];
      AnalystKeepsTheRow(hash, before, n, key);
      assert e in events[n..] && forall earlier <- before[n..] :: earlier in events[n..];
      OneEventKeeps(hash, Play(hash, before), e, key);
      hide Happen;
    }
  }

  lemma OneEventKeeps(hash: string -> string, h: History, e: Event, key: Key)
    requires HeldByAnalyst(h.world.rows, key)
    ensures HeldByAnalyst(Happen(hash, h, e).world.rows, key)
    ensures (e.Other? ==> !e.op.SetManual?) ==> Happen(hash, h, e).world.rows[key] == h.world.rows[key]
  {
    hide KeyOf, Looked, Received, Returned;
  }

  /**
   The cache does its job: an answer that was written, also one that a bypassed fetch went out for, is what the
   next fetch of the same question serves, however the names are spelled, until its lifetime has passed.
   */
  lemma RecordedIsServed(
    hash: string -> string, rows: Table, now: int, c: Wrapped, q: Query, ent: Entity, live: Section,
    readOk: bool, fault: Fault, later: nat, q2: Query, ent2: Entity, live2: Section, fault2: Fault)
    requires IdealHash(hash) && c.Wraps() && later < c.ttl && fault != Lost
    requires live.status == OK && live.source == c.name && CodecAccepts(c.name, live.data)
    requires KeyOf(q2.company, q2.service, c.name) == KeyOf(q.company, q.service, c.name)
    requires Inputs(c.name, q2, ent2) == Inputs(c.name, q, ent)
    requires !HeldByAnalyst(rows, KeyOf(q.company, q.service, c.name))
    requires Usable(hash, rows, now, c, q, ent, readOk).None?
    ensures var first := FetchThrough(hash, rows, now, c, q, ent, live, readOk, fault);
            FetchThrough(hash, first.rows, now + later, c.(bypass := false), q2, ent2, live2, true, fault2) ==
              Fetched(first.rows, live.(cached := true), true)
  {
    FingerprintExact(hash, c.name, q, ent, q2, ent2);
    var key, inputs := KeyOf(q.company, q.service, c.name), SectionInputs(hash, c.name, q, ent);
    var first := FetchThrough(hash, rows, now, c, q, ent, live, readOk, fault);
    assert Holds(first.rows, now + later, key, c.ttl, inputs, live.(cached := false));
    HitIsHeld(first.rows, now + later, key, c.ttl, inputs, live.(cached := false));
    hide Holds, KeyOf, SectionInputs, ReadSection, SectionWritten, CacheableSource, Inputs, IdealHash;
  }
}
