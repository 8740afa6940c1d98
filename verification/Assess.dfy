/** The collector as the program writes it, and the order sections take in a report. */
module Assess {
  import opened Domain
  import opened Sequences
  import opened FanOut

  // --- Ordering -----------------------------------------------------------------------------

  const SECTION_ORDER: seq<string> :=
    ["bitsight", "nvd", "osv", "cvedetails", "fedramp", "caag", "ssllabs", "openbugbounty", "llm_research"]

  /** A source's place in an order of names; every unlisted source ties at the end. */
  function Rank(order: seq<string>, source: string): (rank: nat)
    ensures rank <= |order|
    ensures rank < |order| ==> order[rank] == source
    ensures rank == |order| ==> source !in order
  {
    if order == [] || order[0] == source then 0 else 1 + Rank(order[1..], source)
  }

  predicate ByIndex(a: Result, b: Result) {
    a.index <= b.index
  }

  /** Documented position first, registration order within it. */
  predicate ReportLeq(a: Result, b: Result) {
    Place(SECTION_ORDER, a) < Place(SECTION_ORDER, b) ||
    (Place(SECTION_ORDER, a) == Place(SECTION_ORDER, b) && a.index <= b.index)
  }

  function Place(order: seq<string>, r: Result): nat {
    Rank(order, r.section.source)
  }

  function OfRank(rs: seq<Result>, order: seq<string>, rank: nat): seq<Result> {
    if rs == [] then [] else
    OfRank(rs[..|rs| - 1], order, rank) + if Place(order, rs[|rs| - 1]) == rank then [rs[|rs| - 1]] else []
  }

  function Buckets(rs: seq<Result>, order: seq<string>): seq<seq<Result>> {
    seq(|order| + 1, k requires 0 <= k <= |order| => OfRank(rs, order, k))
  }

  /** The results in report order. */
  function Ordered(rs: seq<Result>): seq<Result> {
    Concat(Buckets(StableSort(rs, ByIndex), SECTION_ORDER))
  }

  lemma SectionsConcat(a: seq<Result>, b: seq<Result>)
    ensures Sections(a + b) == Sections(a) + Sections(b)
  {}

  lemma SectionOrderDistinct()
    ensures Distinct(SECTION_ORDER)
  {}

  lemma RankIs(order: seq<string>, source: string, k: nat)
    requires Distinct(order) && k < |order|
    ensures Rank(order, source) == k <==> source == order[k]
  {}

  lemma OfRankOneMore(rs: seq<Result>, r: Result, order: seq<string>, rank: nat)
    ensures OfRank(rs + [r], order, rank) == OfRank(rs, order, rank) + if Place(order, r) == rank then [r] else []
  {
    assert (rs + [r])[..|rs|] == rs;
  }

  /** One pass over the results, appending the sections of one rank. */
  lemma OfRankSnoc(rs: seq<Result>, r: Result, order: seq<string>, rank: nat)
    ensures Sections(OfRank(rs + [r], order, rank)) ==
            Sections(OfRank(rs, order, rank)) + if Place(order, r) == rank then [r.section] else []
  {
    OfRankOneMore(rs, r, order, rank);
    SectionsConcat(OfRank(rs, order, rank), [r]);
  }

  method OrderSections(results: seq<Result>) returns (ordered: seq<Section>)
    ensures ordered == Sections(Ordered(results))
  {
    var byIndex := StableSort(results, ByIndex);
    SectionOrderDistinct();
    var named := ListNamed(byIndex, SECTION_ORDER);
    ordered := AppendUnlisted(byIndex, SECTION_ORDER, named);
  }

  /** Every other source follows, in registration order. */
  method AppendUnlisted(byIndex: seq<Result>, order: seq<string>, named: seq<Section>)
    returns (ordered: seq<Section>)
    requires named == Sections(Concat(Buckets(byIndex, order)[..|order|]))
    ensures ordered == Sections(Concat(Buckets(byIndex, order)))
  {
    ordered := named;
    for i := 0 to |byIndex|
      invariant ordered == named + Sections(OfRank(byIndex[..i], order, |order|))
    {
      assert byIndex[..i + 1] == byIndex[..i] + [byIndex[i]];
      OfRankSnoc(byIndex[..i], byIndex[i], order, |order|);
      if byIndex[i].section.source !in order {
        ordered := ordered + [byIndex[i].section];
      }
    }
    assert byIndex[..|byIndex|] == byIndex;
    ghost var buckets := Buckets(byIndex, order);
    SectionsConcat(Concat(buckets[..|order|]), buckets[|order|]);
  }

  /** The documented names in reading order, each with its sections in registration order. */
  method ListNamed(byIndex: seq<Result>, order: seq<string>) returns (ordered: seq<Section>)
    requires Distinct(order)
    ensures ordered == Sections(Concat(Buckets(byIndex, order)[..|order|]))
  {
    ordered := [];
    ghost var buckets := Buckets(byIndex, order);
    for k := 0 to |order|
      invariant ordered == Sections(Concat(buckets[..k]))
    {
      ordered := AppendNamed(byIndex, order, k, ordered);
      assert buckets[..k + 1][..k] == buckets[..k];
      SectionsConcat(Concat(buckets[..k]), buckets[k]);
    }
  }

  method AppendNamed(byIndex: seq<Result>, order: seq<string>, k: nat, before: seq<Section>)
    returns (ordered: seq<Section>)
    requires Distinct(order) && k < |order|
    ensures ordered == before + Sections(OfRank(byIndex, order, k))
  {
    ordered := before;
    for i := 0 to |byIndex|
      invariant ordered == before + Sections(OfRank(byIndex[..i], order, k))
    {
      assert byIndex[..i + 1] == byIndex[..i] + [byIndex[i]];
      OfRankSnoc(byIndex[..i], byIndex[i], order, k);
      RankIs(order, byIndex[i].section.source, k);
      if byIndex[i].section.source == order[k] {
        ordered := ordered + [byIndex[i].section];
      }
    }
    assert byIndex[..|byIndex|] == byIndex;
  }

  lemma ReportOrdering()
    ensures Ordering(ByIndex) && Ordering(ReportLeq)
  {}

  ghost predicate StrictlyByIndex(rs: seq<Result>) {
    forall i, j :: 0 <= i < j < |rs| ==> rs[i].index < rs[j].index
  }

  ghost predicate StrictlyByPlace(rs: seq<Result>, order: seq<string>) {
    forall i, j :: 0 <= i < j < |rs| ==>
      Place(order, rs[i]) < Place(order, rs[j]) ||
      (Place(order, rs[i]) == Place(order, rs[j]) && rs[i].index < rs[j].index)
  }

  lemma {:induction false} OfRankShape(rs: seq<Result>, order: seq<string>, rank: nat)
    requires StrictlyByIndex(rs)
    ensures StrictlyByIndex(OfRank(rs, order, rank))
    ensures forall r :: r in OfRank(rs, order, rank) <==> r in rs && Place(order, r) == rank
  {
    if rs != [] {
      var init, last := rs[..|rs| - 1], rs[|rs| - 1];
      OfRankShape(init, order, rank);
      assert rs == init + [last];
      forall r <- OfRank(init, order, rank) ensures r.index < last.index {
        assert r in init;
      }
    }
  }

  ghost predicate BucketOf(bucket: seq<Result>, order: seq<string>, rank: nat) {
    StrictlyByIndex(bucket) && forall r <- bucket :: Place(order, r) == rank
  }

  lemma AppendBucket(a: seq<Result>, b: seq<Result>, order: seq<string>, rank: nat)
    requires StrictlyByPlace(a, order) && forall r <- a :: Place(order, r) < rank
    requires BucketOf(b, order, rank)
    ensures StrictlyByPlace(a + b, order)
    ensures forall r <- a + b :: Place(order, r) <= rank
  {}

  lemma {:induction false} BucketsInOrder(buckets: seq<seq<Result>>, order: seq<string>)
    requires forall k :: 0 <= k < |buckets| ==> BucketOf(buckets[k], order, k)
    ensures StrictlyByPlace(Concat(buckets), order)
    ensures forall r <- Concat(buckets) :: Place(order, r) < |buckets|
    ensures forall r :: r in Concat(buckets) <==> exists k :: 0 <= k < |buckets| && r in buckets[k]
  {
    if buckets != [] {
      var init := buckets[..|buckets| - 1];
      BucketsInOrder(init, order);
      AppendBucket(Concat(init), buckets[|buckets| - 1], order, |buckets| - 1);
    }
  }

  lemma SetPlusOne<T>(x: T, s: set<T>)
    requires x !in s
    ensures multiset({x} + s) == multiset{x} + multiset(s)
  {}

  lemma {:induction false} NoRepeats(rs: seq<Result>)
    requires DistinctIndices(rs)
    ensures multiset(rs) == multiset(set r <- rs)
  {
    if rs != [] {
      NoRepeats(rs[1..]);
      Uncons(rs);
      var rest := set r <- rs[1..];
      assert rs[0] !in rest;
      assert (set r <- rs) == {rs[0]} + rest by {
        assert rs == [rs[0]] + rs[1..];
      }
      SetPlusOne(rs[0], rest);
    }
  }

  lemma StableSortByIndex(rs: seq<Result>)
    requires DistinctIndices(rs)
    ensures StrictlyByIndex(StableSort(rs, ByIndex))
    ensures forall r :: r in StableSort(rs, ByIndex) <==> r in rs
  {
    ReportOrdering();
    StableSortSorts(rs, ByIndex);
    var sorted := StableSort(rs, ByIndex);
    NoRepeats(rs);
    forall r ensures r in sorted <==> r in rs {
      assert r in multiset(sorted) <==> r in multiset(rs);
    }
    forall i, j | 0 <= i < j < |sorted| ensures sorted[i].index < sorted[j].index {
      assert ByIndex(sorted[i], sorted[j]);
      assert sorted[i] in rs && sorted[j] in rs;
      assert multiset(sorted)[sorted[i]] <= 1;
      if sorted[i].index == sorted[j].index {
        TwoCopies(sorted, i, j);
      }
    }
  }

  lemma DistinctMembers(rs: seq<Result>, ordered: seq<Result>, order: seq<string>)
    requires DistinctIndices(rs) && StrictlyByPlace(ordered, order)
    requires forall r :: r in ordered <==> r in rs
    ensures multiset(ordered) == multiset(rs)
  {
    forall i, j | 0 <= i < j < |ordered| ensures ordered[i].index != ordered[j].index {
      assert ordered[i] in rs && ordered[j] in rs;
    }
    NoRepeats(ordered);
    NoRepeats(rs);
    assert (set r <- ordered) == set r <- rs;
  }

  /** The report holds the same results, sorted by documented position and then by registration. */
  lemma OrderedSorts(rs: seq<Result>)
    requires DistinctIndices(rs)
    ensures multiset(Ordered(rs)) == multiset(rs)
    ensures Sorted(Ordered(rs), ReportLeq)
  {
    StableSortByIndex(rs);
    var byIndex := StableSort(rs, ByIndex);
    var buckets := Buckets(byIndex, SECTION_ORDER);
    forall k | 0 <= k < |buckets| ensures BucketOf(buckets[k], SECTION_ORDER, k) {
      OfRankShape(byIndex, SECTION_ORDER, k);
    }
    BucketsInOrder(buckets, SECTION_ORDER);
    forall r ensures r in Ordered(rs) <==> r in rs {
      OfRankShape(byIndex, SECTION_ORDER, Place(SECTION_ORDER, r));
      assert buckets[Place(SECTION_ORDER, r)] == OfRank(byIndex, SECTION_ORDER, Place(SECTION_ORDER, r));
    }
    DistinctMembers(rs, Ordered(rs), SECTION_ORDER);
  }

  lemma TiesShareIndex(x: Result, y: Result)
    requires ReportLeq(x, y) && ReportLeq(y, x)
    ensures x.index == y.index
  {}

  lemma NoTies(a: seq<Result>, ordered: seq<Result>)
    requires DistinctIndices(a) && multiset(ordered) == multiset(a)
    ensures Antisymmetric(ordered, ReportLeq)
  {
    hide ReportLeq;
    forall x, y | x in ordered && y in ordered && ReportLeq(x, y) && ReportLeq(y, x) ensures x == y {
      assert x in multiset(ordered) && y in multiset(ordered);
      assert x in multiset(a) && y in multiset(a);
      TiesShareIndex(x, y);
    }
  }

  /** Arrival order is undone: the same results give the same report, whatever order they came in. */
  lemma OrderedIgnoresArrival(a: seq<Result>, b: seq<Result>)
    requires DistinctIndices(a) && DistinctIndices(b)
    requires forall r :: r in a <==> r in b
    ensures Ordered(a) == Ordered(b)
  {
    NoRepeats(a);
    NoRepeats(b);
    assert (set r <- a) == (set r <- b);
    OrderedSorts(a);
    OrderedSorts(b);
    ReportOrdering();
    NoTies(a, Ordered(a));
    hide Ordered, ReportLeq;
    SortedUnique(Ordered(a), Ordered(b), ReportLeq);
  }

  /** Two schedules under which every source is owed the same section end in the same report. */
  lemma ReportIgnoresSchedule(s: State, t: State)
    requires Complete(s) && Complete(t) && s.names == t.names
    requires forall i: nat :: i < |s.names| ==> Owed(s, i) == Owed(t, i)
    ensures Sections(Ordered(s.results)) == Sections(Ordered(t.results))
  {
    CompleteMembers(s);
    CompleteMembers(t);
    forall r ensures r in s.results <==> r in t.results {
      assert r.index < |s.names| ==> Owed(s, r.index) == Owed(t, r.index);
    }
    OrderedIgnoresArrival(s.results, t.results);
  }

  lemma CompleteMembers(s: State)
    requires Complete(s)
    ensures forall r :: r in s.results <==> r.index < |s.names| && r.section == Owed(s, r.index)
  {
    hide Owed;
    var n := |s.names|;
    IndicesSize(s.results);
    forall i <- Below(n) ensures i in Indices(s.results) {
      assert Result(i, Owed(s, i)) in s.results;
    }
    SubsetSize(Below(n), Indices(s.results));
    forall r | r in s.results ensures r.index < n && r.section == Owed(s, r.index) {
      assert r.index in Indices(s.results);
      var own := Result(r.index, Owed(s, r.index));
      var i :| 0 <= i < |s.results| && s.results[i] == r;
      var j :| 0 <= j < |s.results| && s.results[j] == own;
      assert i == j;
    }
  }

  // --- The collector ------------------------------------------------------------------------

  /** What the world does while the collector is between two of its own steps. */
  datatype Turn = Completes(index: nat, outcome: Outcome) | Deadline | Yield

  class Assessment {
    const names: seq<string>
    var schedule: seq<Turn>       // everything the sources and the clock will do, in order
    var dead: bool
    var spawned: nat
    var sent: map<nat, Section>
    var pending: seq<Result>      // the buffered channel
    var results: seq<Result>
    var reported: set<nat>
    var observed: seq<Section>

    ghost const startedDead: bool
    ghost var phase: Phase
    ghost var late: set<nat>
    ghost var moves: seq<Move>    // the moves made so far

    ghost function View(): State
      reads this
    {
      State(names, dead, phase, spawned, sent, pending, results, reported, observed, late)
    }

    /** The fields are the state the protocol reaches by the recorded moves. */
    ghost predicate Valid()
      reads this
    {
      Interleaving(Start(names, startedDead), moves) && View() == After(Start(names, startedDead), moves)
    }

    constructor (names: seq<string>, dead: bool, schedule: seq<Turn>)
      ensures Valid() && moves == []
      ensures this.names == names && this.schedule == schedule && startedDead == dead
    {
      this.names, this.schedule, this.dead, this.startedDead := names, schedule, dead, dead;
      spawned, sent, pending := 0, map[], [];
      results, reported, observed := [], {}, [];
      phase, late, moves := if dead then Expiring(0) else Spawning, {}, [];
    }

    ghost method Log(m: Move, before: State)
      requires Interleaving(Start(names, startedDead), moves) && before == After(Start(names, startedDead), moves)
      requires Enabled(before, m) && View() == Apply(before, m)
      modifies this`moves
      ensures Valid()
    {
      AfterOneMore(Start(names, startedDead), moves, m);
      moves := moves + [m];
    }

    /** A goroutine finishes: its send finds room on the channel, whatever the collector is doing. */
    method Deliver(i: nat, outcome: Outcome)
      requires Valid() && i < spawned && i !in sent
      modifies this`sent, this`pending, this`late, this`moves
      ensures Valid() && old(pending) <= pending
      ensures i < |names| && sent == old(sent)[i := RunOne(names[i], outcome)]
    {
      hide RunOne, Expired, Interleaving, After;
      SendNeverBlocks(names, startedDead, moves, i, outcome);
      ghost var before := View();
      var section := RunOne(names[i], outcome);
      sent := sent[i := section];
      pending := pending + [Result(i, section)];
      late := if PastDrain(before) then late + {i} else late;
      Log(Send(i, outcome), before);
    }

    /** Lets the world run until the schedule hands control back. */
    method Interfere()
      requires Valid()
      modifies this`schedule, this`dead, this`sent, this`pending, this`late, this`moves
      ensures Valid() && old(pending) <= pending
      ensures old(dead) ==> dead
      ensures old(schedule) != [] ==> |schedule| < |old(schedule)|
      ensures old(schedule) == [] ==> schedule == []
    {
      while schedule != [] && !schedule[0].Yield?
        invariant Valid() && old(pending) <= pending && (old(dead) ==> dead)
        invariant |schedule| <= |old(schedule)|
        decreases |schedule|
      {
        match schedule[0] {
          case Completes(i, outcome) =>
            if i < spawned && i !in sent {
              Deliver(i, outcome);
            }
          case Deadline =>
            if !dead {
              ghost var before := View();
              dead := true;
              Log(BudgetExpires, before);
            }
          case Yield =>
        }
        schedule := schedule[1..];
      }
      if schedule != [] {
        schedule := schedule[1..];
      }
    }

    /** Takes the next result off the channel and shows it to the observer. */
    method Take(ghost m: Move)
      requires Valid() && pending != []
      requires (m == Receive && phase.Collecting? && |results| < |names|) || (m == DrainOne && phase.Draining?)
      modifies this`pending, this`results, this`reported, this`observed, this`moves
      ensures Valid() && pending == old(pending)[1..]
      ensures results == old(results) + [old(pending)[0]]
    {
      hide RunOne, Expired, Interleaving, After;
      ghost var before := View();
      var r := pending[0];
      pending := pending[1..];
      reported := reported + {r.index};
      results := results + [r];
      observed := observed + [r.section];
      Log(m, before);
    }

    method ExpireOutstanding()
      requires Valid() && phase == Expiring(0)
      modifies this
      ensures Valid() && phase == Done
    {
      for i := 0 to |names|
        invariant Valid() && phase == Expiring(i)
      {
        Interfere();
        ExpireNext(i);
      }
      ghost var before := View();
      phase := Done;
      Log(Return, before);
    }

    method ExpireNext(i: nat)
      requires Valid() && phase == Expiring(i) && i < |names|
      modifies this`results, this`observed, this`phase, this`moves
      ensures Valid() && phase == Expiring(i + 1)
    {
      hide RunOne, Expired, Interleaving, After;
      ghost var before := View();
      if i !in reported {
        var section := Expired(names[i]);
        results := results + [Result(i, section)];
        observed := observed + [section];
      }
      phase := Expiring(i + 1);
      Log(ExpireOne, before);
    }

    /** Runs every source. Whatever the schedule, every source is reported once, by what it is owed. */
    method FanOut()
      requires Valid() && moves == []
      modifies this
      ensures Valid() && phase == Done && Complete(View())
      ensures startedDead ==> spawned == 0 && sent == map[]
    {
      if dead {
        ExpireOutstanding();
        DeadOnEntryStartsNothing(names, moves);
      } else {
        Launch();
        CollectAll();
      }
      ReturnedIsComplete(names, startedDead, moves);
    }

    method Launch()
      requires Valid() && phase == Spawning && spawned == 0 && results == []
      modifies this
      ensures Valid() && phase == Collecting && results == []
    {
      hide RunOne, Expired, Interleaving, After;
      for i := 0 to |names|
        invariant Valid() && phase == Spawning && spawned == i && results == []
      {
        ghost var before := View();
        spawned := i + 1;
        Log(Spawn, before);
        Interfere();
      }
      ghost var before := View();
      phase := Collecting;
      Log(StartCollecting, before);
    }

    method CollectAll()
      requires Valid() && phase == Collecting && results == []
      modifies this
      ensures Valid() && phase == Done
    {
      for received := 0 to |names|
        invariant Valid() && phase == Collecting && |results| == received
      {
        Interfere();
        Await();
        if {
          case pending != [] =>
            Take(Receive);
          case dead =>
            WriteOff();
            return;
        }
      }
      ghost var before := View();
      phase := Done;
      Log(Finish, before);
    }

    /** Blocks until a result or the deadline is there; a schedule that runs out leaves only the deadline. */
    method Await()
      requires Valid()
      modifies this`schedule, this`dead, this`sent, this`pending, this`late, this`moves
      ensures Valid() && (pending != [] || dead)
    {
      while pending == [] && !dead
        invariant Valid()
        decreases |schedule|, !dead
      {
        if schedule != [] {
          Interfere();
        } else {
          ghost var before := View();
          dead := true;
          Log(BudgetExpires, before);
        }
      }
    }

    /** The budget is gone: keep what was already delivered, write the rest off. */
    method WriteOff()
      requires Valid() && phase == Collecting && dead && |results| < |names|
      modifies this
      ensures Valid() && phase == Done
    {
      ghost var before := View();
      phase := Draining;
      Log(WalkAway, before);
      Drain();
      before := View();
      phase := Expiring(0);
      Log(DrainEnd, before);
      ExpireOutstanding();
    }

    method Drain()
      requires Valid() && phase == Draining
      modifies this
      ensures Valid() && phase == Draining && pending == []
    {
      while pending != []
        invariant Valid() && phase == Draining
        decreases Remaining(View())
      {
        AlwaysInv(names, startedDead, moves);
        RemainingNonNegative(View());
        Take(DrainOne);
        Interfere();
      }
    }
  }

  /** The sources whose sections came from the cache. */
  method FoldCached(sections: seq<Section>) returns (cached: set<string>)
    ensures forall source :: source in cached <==> exists s <- sections :: s.cached && s.source == source
  {
    cached := {};
    for i := 0 to |sections|
      invariant forall source :: source in cached <==> exists s <- sections[..i] :: s.cached && s.source == source
    {
      assert sections[..i + 1] == sections[..i] + [sections[i]];
      if sections[i].cached {
        cached := cached + {sections[i].source};
      }
    }
    assert sections[..|sections|] == sections;
  }

  /**
   The sections report on every source once, faithfully to the moves, by the documented position of their
   source and then by registration; `order` says which source each one is about.
   */
  ghost predicate Report(names: seq<string>, dead: bool, moves: seq<Move>, order: seq<nat>, sections: seq<Section>) {
    && |order| == |sections| == |names| && Distinct(order)
    && (forall k :: 0 <= k < |order| ==> order[k] < |names| && Faithful(names, dead, moves, order[k], sections[k]))
    && forall j, k :: 0 <= j < k < |order| ==>
         var a, b := Rank(SECTION_ORDER, sections[j].source), Rank(SECTION_ORDER, sections[k].source);
         a < b || (a == b && order[j] < order[k])
  }

  /** A returned fan-out, put in order, is such a report. */
  lemma OrderedReports(names: seq<string>, dead: bool, moves: seq<Move>) returns (order: seq<nat>)
    requires Interleaving(Start(names, dead), moves)
    requires After(Start(names, dead), moves).phase.Done?
    ensures Report(names, dead, moves, order, Sections(Ordered(After(Start(names, dead), moves).results)))
  {
    var results := After(Start(names, dead), moves).results;
    ReturnedIsFaithful(names, dead, moves);
    OrderedStrictly(results);
    OrderedLength(results);
    hide *;
    order := ReportOf(names, dead, moves, results, Ordered(results));
  }

  lemma ReportOf(names: seq<string>, dead: bool, moves: seq<Move>, results: seq<Result>, ordered: seq<Result>)
    returns (order: seq<nat>)
    requires |results| == |names| == |ordered| && multiset(ordered) == multiset(results)
    requires forall r <- results :: r.index < |names| && Faithful(names, dead, moves, r.index, r.section)
    requires DistinctIndices(ordered) && Strictly(ordered)
    ensures Report(names, dead, moves, order, Sections(ordered))
  {
    order := seq(|ordered|, k requires 0 <= k < |ordered| => ordered[k].index);
    hide Faithful, Rank, Interleaving, After;
    forall k | 0 <= k < |order|
      ensures order[k] < |names| && Faithful(names, dead, moves, order[k], Sections(ordered)[k])
    {
      assert ordered[k] in multiset(ordered) && ordered[k] in multiset(results);
    }
  }

  ghost predicate Strictly(ordered: seq<Result>) {
    forall i, j :: 0 <= i < j < |ordered| ==>
      var a, b := Rank(SECTION_ORDER, ordered[i].section.source), Rank(SECTION_ORDER, ordered[j].section.source);
      a < b || (a == b && ordered[i].index < ordered[j].index)
  }

  /** Strictly: no two results share both a position and an index. */
  lemma OrderedStrictly(rs: seq<Result>)
    requires DistinctIndices(rs)
    ensures multiset(Ordered(rs)) == multiset(rs)
    ensures DistinctIndices(Ordered(rs))
    ensures Strictly(Ordered(rs))
  {
    OrderedSorts(rs);
    var ordered := Ordered(rs);
    NoRepeats(rs);
    hide Ordered, Rank;
    forall i, j | 0 <= i < j < |ordered| ensures ordered[i].index != ordered[j].index {
      assert ordered[i] in multiset(ordered) && ordered[j] in multiset(ordered);
      assert ordered[i] in multiset(rs) && ordered[j] in multiset(rs);
      assert multiset(ordered)[ordered[i]] <= 1;
      if ordered[i] == ordered[j] {
        TwoCopies(ordered, i, j);
      } else {
        var p :| 0 <= p < |rs| && rs[p] == ordered[i];
        var q :| 0 <= q < |rs| && rs[q] == ordered[j];
      }
    }
    forall i, j | 0 <= i < j < |ordered| ensures
      var a, b := ordered[i], ordered[j];
      Place(SECTION_ORDER, a) < Place(SECTION_ORDER, b) ||
      (Place(SECTION_ORDER, a) == Place(SECTION_ORDER, b) && a.index < b.index)
    {
      assert ReportLeq(ordered[i], ordered[j]);
    }
  }

  /** One assessment: for every schedule, a report of some interleaving of the fan-out. */
  method Run(names: seq<string>, dead: bool, schedule: seq<Turn>)
    returns (sections: seq<Section>, cached: set<string>)
    ensures exists moves, order ::
      && Interleaving(Start(names, dead), moves) && After(Start(names, dead), moves).phase.Done?
      && Report(names, dead, moves, order, sections)
    ensures forall source :: source in cached <==> exists s <- sections :: s.cached && s.source == source
  {
    var assessment := new Assessment(names, dead, schedule);
    assessment.FanOut();
    sections := OrderSections(assessment.results);
    ghost var order := OrderedReports(names, dead, assessment.moves);
    cached := FoldCached(sections);
  }

  lemma OrderedLength(rs: seq<Result>)
    requires DistinctIndices(rs)
    ensures |Ordered(rs)| == |rs|
  {
    OrderedSorts(rs);
    assert |multiset(Ordered(rs))| == |Ordered(rs)| && |multiset(rs)| == |rs|;
  }

  /** The documented order: ratings first, then vulnerabilities, then authorisations and breaches, research last. */
  lemma DocumentedOrder()
    ensures Rank(SECTION_ORDER, "bitsight") < Rank(SECTION_ORDER, "nvd") < Rank(SECTION_ORDER, "osv")
    ensures Rank(SECTION_ORDER, "osv") < Rank(SECTION_ORDER, "cvedetails") < Rank(SECTION_ORDER, "fedramp")
    ensures Rank(SECTION_ORDER, "fedramp") < Rank(SECTION_ORDER, "caag") < Rank(SECTION_ORDER, "ssllabs")
    ensures Rank(SECTION_ORDER, "ssllabs") < Rank(SECTION_ORDER, "openbugbounty")
    ensures Rank(SECTION_ORDER, "openbugbounty") < Rank(SECTION_ORDER, "llm_research") < |SECTION_ORDER| == 9
  {
    SectionOrderDistinct();
    RankIs(SECTION_ORDER, "bitsight", 0);
    RankIs(SECTION_ORDER, "nvd", 1);
    RankIs(SECTION_ORDER, "osv", 2);
    RankIs(SECTION_ORDER, "cvedetails", 3);
    RankIs(SECTION_ORDER, "fedramp", 4);
    RankIs(SECTION_ORDER, "caag", 5);
    RankIs(SECTION_ORDER, "ssllabs", 6);
    RankIs(SECTION_ORDER, "openbugbounty", 7);
    RankIs(SECTION_ORDER, "llm_research", 8);
  }
}
