/** The cache agrees with the sources it speeds up: what it serves is what a fetch would have built. */
module Agreement {
  import opened Domain
  import opened Sequences
  import opened Fingerprint
  import opened Store
  import opened Cache
  import opened Sources
  import Service

  /** Every source that answers says what its Fetch builds from the replies of that moment. */
  ghost predicate Truthful(hash: string -> string, events: seq<Event>, services: nat -> Services) {
    forall i: nat, k: nat, live: Section ::
      i < |events| && events[i] == Receive(k, live) && k < |Play(hash, events[..i]).flights| ==>
        live == Built(Play(hash, events[..i]).flights[k], services(i)).section
  }

  /** What the source of this fetch makes of the replies. */
  function Built(f: Flight, s: Services): Service.Fetched {
    Sources.Fetch(f.c.name, f.q, f.ent, s)
  }

  /** Only wrapped sources write sections, and they are given entities that resolution validated. */
  ghost predicate Permitted(e: Event) {
    Allowed(e) && (e.Look? ==> Resolved(e.ent))
  }

  lemma {:induction false} FlightsPermitted(hash: string -> string, events: seq<Event>)
    requires forall e <- events :: Permitted(e)
    ensures forall f <- Play(hash, events).flights :: f.c.Wraps() && Resolved(f.ent)
  {
    hide Resolved, AfterWrite, Usable;
    if events != [] {
      var before, e := events[..|events| - 1], events[|events| - 1];
      assert e in events && forall earlier <- before :: earlier in events;
      FlightsPermitted(hash, before);
      FlightOneMore(hash, Play(hash, before), e);
    }
  }

  lemma FlightOneMore(hash: string -> string, h: History, e: Event)
    requires Permitted(e) && forall f <- h.flights :: f.c.Wraps() && Resolved(f.ent)
    ensures forall f <- Happen(hash, h, e).flights :: f.c.Wraps() && Resolved(f.ent)
  {
    hide Resolved, AfterWrite, Usable;
    forall k: nat | k < |Happen(hash, h, e).flights|
      ensures Happen(hash, h, e).flights[k].c.Wraps() && Resolved(Happen(hash, h, e).flights[k].ent)
    {
      assert k < |h.flights| ==> h.flights[k] in h.flights;
    }
  }

  /** A recorded answer is what its source built, from the replies of event `i`, for the fetch at `k`. */
  lemma AnswerIsBuilt(hash: string -> string, events: seq<Event>, services: nat -> Services, a: Answer)
    returns (i: nat, j: nat, k: nat)
    requires Truthful(hash, events, services) && a in Play(hash, events).answers
    ensures i < j < |events| && a.at == Play(hash, events[..j]).world.now
    ensures k < |Play(hash, events[..i]).flights|
    ensures var f := Play(hash, events[..i]).flights[k];
      && a.source == f.c.name && a.q == f.q && a.ent == f.ent
      && a.section == Built(f, services(i)).section
  {
    hide Built, Happen, Play;
    j, k := AnswerWasWritten(hash, events, a);
    i := LiveWasReceived(hash, events[..j], k, a.section);
    assert events[..j][..i] == events[..i];
    assert events[i] == Receive(k, a.section);
  }

  /**
   However fetches interleave, a section of a deterministic source that was served from the table is the one a
   live fetch for this query and entity would build from the replies of the fetch that recorded it, within
   its lifetime, apart from the mark that it was cached; and that fetch made the same requests.
   */
  lemma ServedIsWhatAFetchBuilds(
    hash: string -> string, events: seq<Event>, services: nat -> Services, k: nat)
    returns (i: nat, j: nat, first: nat)
    requires IdealHash(hash) && Truthful(hash, events, services)
    requires forall e <- events :: Permitted(e)
    requires k < |Play(hash, events).flights| && Deterministic(Play(hash, events).flights[k].c.name)
    requires var stage := Play(hash, events).flights[k].stage; stage.Over? && stage.hit
    ensures i < j < |events| && first < |Play(hash, events[..i]).flights|
    ensures var f, g := Play(hash, events).flights[k], Play(hash, events[..i]).flights[first];
      && f.stage.section == Built(f, services(i)).section.(cached := true)
      && Built(f, services(i)) == Built(g, services(i))
      && Built(f, services(i)).section.status == OK
      && f.begun - f.c.ttl < Play(hash, events[..j]).world.now <= f.begun
  {
    hide Play, Inputs, Resolved, KeyOf, Sources.Fetch;
    var f := Play(hash, events).flights[k];
    var a := ServedIsAnAnswer(hash, events, k);
    i, j, first := AnswerIsBuilt(hash, events, services, a);
    FlightsPermitted(hash, events);
    FlightsPermitted(hash, events[..i]);
    assert f in Play(hash, events).flights;
    assert Play(hash, events[..i]).flights[first] in Play(hash, events[..i]).flights;
    EqualInputsSameFetch(f.c.name, a.q, a.ent, f.q, f.ent, services(i));
  }

  /**
   And it does serve: once a fetch that built an OK section has been written, bypassed or not, the next fetch of
   the same question is answered from the table, with that section, until its lifetime has passed.
   */
  lemma BuiltIsServed(
    hash: string -> string, rows: Table, now: int, c: Wrapped, q: Query, ent: Entity, s: Services,
    readOk: bool, fault: Fault, later: nat, q2: Query, ent2: Entity, s2: Services, fault2: Fault)
    requires IdealHash(hash) && c.Wraps() && Deterministic(c.name) && later < c.ttl && fault != Lost
    requires Sources.Fetch(c.name, q, ent, s).section.status == OK
    requires KeyOf(q2.company, q2.service, c.name) == KeyOf(q.company, q.service, c.name)
    requires Inputs(c.name, q2, ent2) == Inputs(c.name, q, ent)
    requires !HeldByAnalyst(rows, KeyOf(q.company, q.service, c.name))
    requires Usable(hash, rows, now, c, q, ent, readOk).None?
    ensures var built := Sources.Fetch(c.name, q, ent, s).section;
      var first := FetchThrough(hash, rows, now, c, q, ent, built, readOk, fault);
      var live := Sources.Fetch(c.name, q2, ent2, s2).section;
      first.section == built &&
      FetchThrough(hash, first.rows, now + later, c.(bypass := false), q2, ent2, live, true, fault2) ==
        Fetched(first.rows, built.(cached := true), true)
  {
    FetchIsStorable(c.name, q, ent, s);
    hide Sources.Fetch, Inputs, Usable, KeyOf, HeldByAnalyst;
    RecordedIsServed(hash, rows, now, c, q, ent, Sources.Fetch(c.name, q, ent, s).section, readOk, fault,
                     later, q2, ent2, Sources.Fetch(c.name, q2, ent2, s2).section, fault2);
  }
}
