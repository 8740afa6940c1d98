/**
 The fan-out: a goroutine for each source, a channel with room for every result, and a collector that
 walks away when the budget expires. `State` and `Apply` are the protocol, one move at a time, so a
 sequence of moves is an interleaving. `Assessment` is the collector as the program writes it.
 */
module FanOut {
  import opened Domain
  import opened Sequences

  datatype Result = Result(index: nat, section: Section)

  /** What one source's Fetch did. */
  datatype Outcome = Panicked(reason: string) | Returned(section: Section, err: Option<string>)

  /** The section says that its source failed, and nothing else. */
  predicate Failure(section: Section, name: string) {
    section.source == name && section.status == Failed && section.data == NoData &&
    section.citations == [] && !section.cached
  }

  /** Every outcome becomes a section; an error the section does not admit to is recorded as one. */
  function RunOne(name: string, outcome: Outcome): (section: Section)
    ensures name != "" ==> section.source != ""
    ensures section.status != Failed ==> outcome.Returned? && outcome.err.None?
    ensures outcome.Panicked? || (outcome.err.Some? && outcome.section.status != Failed) ==> Failure(section, name)
    ensures outcome.Returned? && (outcome.err.None? || outcome.section.status == Failed) ==>
              section == outcome.section.(
                source := if outcome.section.source == "" then name else outcome.section.source)
  {
    match outcome
    case Panicked(reason) => FailedSection(name, "source panicked: " + reason)
    case Returned(section, err) =>
      var judged := if err.Some? && section.status != Failed then FailedSection(name, err.value) else section;
      if judged.source == "" then judged.(source := name) else judged
  }

  function Expired(name: string): Section {
    FailedSection(name, "no result before the assessment budget expired")
  }

  /** Where the collector is; `Expiring(i)` is about to look at source i. */
  datatype Phase = Spawning | Collecting | Draining | Expiring(next: nat) | Done

  datatype State = State(
    names: seq<string>,          // the registered sources
    dead: bool,                  // the context has expired
    phase: Phase,                // where the collector is
    spawned: nat,                // goroutines started: sources 0..spawned-1
    sent: map<nat, Section>,     // what each goroutine put on the channel
    channel: seq<Result>,
    results: seq<Result>,
    reported: set<nat>,
    observed: seq<Section>,
    late: set<nat>)              // sent after the drain loop had found the channel empty

  /** One atomic action of a goroutine, of the clock, or of the collector. */
  datatype Move =
    | Send(index: nat, outcome: Outcome)
    | BudgetExpires
    | Spawn
    | StartCollecting
    | Receive
    | Finish
    | WalkAway
    | DrainOne
    | DrainEnd
    | ExpireOne
    | Return

  predicate CollectorMove(m: Move) {
    !m.Send? && !m.BudgetExpires?
  }

  function Start(names: seq<string>, dead: bool): State {
    State(names, dead, if dead then Expiring(0) else Spawning, 0, map[], [], [], {}, [], {})
  }

  predicate Enabled(s: State, m: Move) {
    var n := |s.names|;
    match m
    case Send(i, _) => i < s.spawned && i < n && i !in s.sent && |s.channel| < n
    case BudgetExpires => !s.dead
    case Spawn => s.phase.Spawning? && s.spawned < n
    case StartCollecting => s.phase.Spawning? && s.spawned == n
    case Receive => s.phase.Collecting? && |s.results| < n && s.channel != []
    case Finish => s.phase.Collecting? && |s.results| >= n
    case WalkAway => s.phase.Collecting? && |s.results| < n && s.dead
    case DrainOne => s.phase.Draining? && s.channel != []
    case DrainEnd => s.phase.Draining? && s.channel == []
    case ExpireOne => s.phase.Expiring? && s.phase.next < n
    case Return => s.phase.Expiring? && s.phase.next >= n
  }

  function Collect(s: State): State
    requires s.channel != []
  {
    var r := s.channel[0];
    s.(channel := s.channel[1..], reported := s.reported + {r.index},
       results := s.results + [r], observed := s.observed + [r.section])
  }

  function Apply(s: State, m: Move): State
    requires Enabled(s, m)
  {
    match m
    case Send(i, outcome) =>
      var section := RunOne(s.names[i], outcome);
      s.(sent := s.sent[i := section], channel := s.channel + [Result(i, section)],
         late := if s.phase.Expiring? || s.phase.Done? then s.late + {i} else s.late)
    case BudgetExpires => s.(dead := true)
    case Spawn => s.(spawned := s.spawned + 1)
    case StartCollecting => s.(phase := Collecting)
    case Receive => Collect(s)
    case Finish => s.(phase := Done)
    case WalkAway => s.(phase := Draining)
    case DrainOne => Collect(s)
    case DrainEnd => s.(phase := Expiring(0))
    case ExpireOne =>
      var i := s.phase.next;
      var next := s.(phase := Expiring(i + 1));
      if i in s.reported then next else
      var section := Expired(s.names[i]);
      next.(results := s.results + [Result(i, section)], observed := s.observed + [section])
    case Return => s.(phase := Done)
  }

  /** The moves can be made one after the other from `start`. */
  ghost predicate Interleaving(start: State, moves: seq<Move>)
    decreases |moves|, 0
  {
    moves == [] ||
    var before := moves[..|moves| - 1];
    Interleaving(start, before) && Enabled(After(start, before), moves[|moves| - 1])
  }

  ghost function After(start: State, moves: seq<Move>): State
    requires Interleaving(start, moves)
    decreases |moves|, 1
  {
    if moves == [] then start else
    Apply(After(start, moves[..|moves| - 1]), moves[|moves| - 1])
  }

  lemma AfterOneMore(start: State, moves: seq<Move>, m: Move)
    requires Interleaving(start, moves) && Enabled(After(start, moves), m)
    ensures Interleaving(start, moves + [m])
    ensures After(start, moves + [m]) == Apply(After(start, moves), m)
  {
    assert (moves + [m])[..|moves|] == moves;
  }

  // --- What every move keeps ----------------------------------------------------------------

  ghost predicate DistinctIndices(rs: seq<Result>) {
    forall i, j :: 0 <= i < j < |rs| ==> rs[i].index != rs[j].index
  }

  ghost function Indices(rs: seq<Result>): set<nat> {
    set r <- rs :: r.index
  }

  function Sections(rs: seq<Result>): seq<Section> {
    seq(|rs|, i requires 0 <= i < |rs| => rs[i].section)
  }

  ghost predicate PastDrain(s: State) {
    s.phase.Expiring? || s.phase.Done?
  }

  /** The section source `i` is owed: its own if it was sent in time, the expiry notice otherwise. */
  ghost function Owed(s: State, i: nat): Section
    requires i < |s.names|
  {
    if i in s.sent && i !in s.late then s.sent[i] else Expired(s.names[i])
  }

  /** The sources the collector has dealt with. */
  ghost predicate Settled(s: State, i: nat) {
    && i < |s.names|
    && (i in s.reported || (s.phase.Expiring? && i < s.phase.next) || s.phase.Done?)
  }

  ghost predicate ChannelInv(s: State) {
    && s.spawned <= |s.names|
    && (s.phase.Collecting? || s.phase.Draining? ==> s.spawned == |s.names|)
    && (forall i <- s.sent :: i < s.spawned)
    && DistinctIndices(s.channel)
    && (forall r <- s.channel :: r.index in s.sent && r.section == s.sent[r.index] && r.index !in s.reported)
    && (forall i <- s.sent :: i in s.reported || i in Indices(s.channel))
    && (forall i <- s.reported :: i in s.sent && i !in s.late)
    && (forall i <- s.late :: i in s.sent)
    && (if PastDrain(s) then s.late == Indices(s.channel) else s.late == {})
  }

  ghost predicate ResultsInv(s: State) {
    && (s.phase.Spawning? ==> s.results == [])
    && (s.phase.Expiring? ==> s.phase.next <= |s.names|)
    && DistinctIndices(s.results)
    && (forall r <- s.results :: Settled(s, r.index) && r.section == Owed(s, r.index))
    && (forall i: nat :: Settled(s, i) ==> i in Indices(s.results))
    && (!PastDrain(s) ==> Indices(s.results) == s.reported)
    && s.observed == Sections(s.results)
  }

  ghost predicate Inv(s: State) {
    ChannelInv(s) && ResultsInv(s)
  }

  lemma IndicesSnoc(rs: seq<Result>, r: Result)
    ensures Indices(rs + [r]) == Indices(rs) + {r.index}
  {
    forall x <- Indices(rs) ensures x in Indices(rs + [r]) {
      var q :| q in rs && q.index == x;
      assert q in rs + [r];
    }
    assert r in rs + [r];
  }

  lemma IndicesTail(rs: seq<Result>)
    requires rs != [] && DistinctIndices(rs)
    ensures Indices(rs[1..]) == Indices(rs) - {rs[0].index}
  {
    assert rs == [rs[0]] + rs[1..];
    forall x <- Indices(rs) - {rs[0].index} ensures x in Indices(rs[1..]) {
      var q :| q in rs && q.index == x;
      assert q in rs[1..];
    }
    forall x <- Indices(rs[1..]) ensures x in Indices(rs) && x != rs[0].index {
      var q :| q in rs[1..] && q.index == x;
      var k :| 0 <= k < |rs[1..]| && rs[1..][k] == q;
      assert rs[k + 1] == q;
    }
  }

  lemma {:induction false} IndicesSize(rs: seq<Result>)
    requires DistinctIndices(rs)
    ensures |Indices(rs)| == |rs|
  {
    if rs != [] {
      IndicesSize(rs[1..]);
      IndicesTail(rs);
      assert rs[0] in rs;
      assert Indices(rs) == Indices(rs[1..]) + {rs[0].index};
    }
  }

  ghost function Below(n: nat): (below: set<nat>)
    ensures forall i: nat :: i in below <==> i < n
    ensures |below| == n
  {
    if n == 0 then {} else Below(n - 1) + {n - 1}
  }

  lemma SubsetSize<T>(a: set<T>, b: set<T>)
    requires a <= b
    ensures |a| <= |b|
    ensures |a| == |b| ==> a == b
    decreases a
  {
    if a != {} {
      var x :| x in a;
      SubsetSize(a - {x}, b - {x});
    }
  }

  lemma StartInv(names: seq<string>, dead: bool)
    ensures Inv(Start(names, dead))
  {}

  lemma TailOfChannel(rs: seq<Result>)
    requires rs != [] && DistinctIndices(rs)
    ensures DistinctIndices(rs[1..])
    ensures forall r <- rs[1..] :: r in rs && r.index != rs[0].index
  {
    IndicesTail(rs);
    forall r <- rs[1..] ensures r in rs && r.index != rs[0].index {
      assert r.index in Indices(rs[1..]);
    }
  }

  lemma CollectKeepsChannel(s: State)
    requires ChannelInv(s) && s.channel != [] && (s.phase.Collecting? || s.phase.Draining?)
    ensures ChannelInv(Collect(s))
  {
    assert s.channel[0] in s.channel;
    TailOfChannel(s.channel);
    IndicesTail(s.channel);
  }

  lemma DistinctSnoc(rs: seq<Result>, r: Result)
    requires DistinctIndices(rs) && r.index !in Indices(rs)
    ensures DistinctIndices(rs + [r])
  {
    forall i, j | 0 <= i < j < |rs + [r]| ensures (rs + [r])[i].index != (rs + [r])[j].index {
      assert rs[i] in rs;
      assert rs[i].index in Indices(rs);
    }
  }

  lemma CollectKeepsResults(s: State)
    requires Inv(s) && s.channel != [] && (s.phase.Collecting? || s.phase.Draining?)
    ensures ResultsInv(Collect(s))
  {
    var t := Collect(s);
    var r := s.channel[0];
    assert r in s.channel;
    IndicesSnoc(s.results, r);
    DistinctSnoc(s.results, r);
    forall q <- t.results ensures Settled(t, q.index) && q.section == Owed(t, q.index) {
      if q in s.results {
        assert Settled(s, q.index);
      }
    }
    assert t.observed == Sections(t.results);
  }

  lemma SendInv(s: State, i: nat, outcome: Outcome)
    requires Inv(s) && Enabled(s, Send(i, outcome))
    ensures Inv(Apply(s, Send(i, outcome)))
  {
    hide RunOne, Expired;
    var t := Apply(s, Send(i, outcome));
    var r := Result(i, RunOne(s.names[i], outcome));
    IndicesSnoc(s.channel, r);
    assert t.channel == s.channel + [r];
    assert DistinctIndices(t.channel) by {
      forall a, b | 0 <= a < b < |t.channel| ensures t.channel[a].index != t.channel[b].index {
        assert s.channel[a] in s.channel;
      }
    }
    SendKeepsResults(s, i, outcome);
  }

  lemma SendKeepsResults(s: State, i: nat, outcome: Outcome)
    requires Inv(s) && Enabled(s, Send(i, outcome))
    ensures ResultsInv(Apply(s, Send(i, outcome)))
  {
    hide RunOne, Expired;
    var t := Apply(s, Send(i, outcome));
    forall q <- t.results ensures Settled(t, q.index) && q.section == Owed(t, q.index) {
      assert q in s.results && Settled(s, q.index);
    }
    forall k: nat | Settled(t, k) ensures k in Indices(t.results) {
      assert Settled(s, k);
    }
  }

  lemma ExpireOneInv(s: State)
    requires Inv(s) && Enabled(s, ExpireOne)
    ensures Inv(Apply(s, ExpireOne))
  {
    NextUnreportedIsNew(s);
    SettledOneMore(s);
    ExpireOneKeepsChannel(s);
    hide ChannelInv, Expired, Owed;
    var t := Apply(s, ExpireOne);
    var i := s.phase.next;
    var r := Result(i, Expired(s.names[i]));
    IndicesSnoc(s.results, r);
    if i !in s.reported {
      DistinctSnoc(s.results, r);
      assert t.observed == Sections(t.results);
    }
  }

  lemma ExpireOneKeepsChannel(s: State)
    requires ChannelInv(s) && Enabled(s, ExpireOne)
    ensures ChannelInv(Apply(s, ExpireOne))
  {
    hide Expired;
  }

  /** A source not yet reported when its turn comes has no result, and what it may have sent came late. */
  lemma NextUnreportedIsNew(s: State)
    requires Inv(s) && Enabled(s, ExpireOne)
    ensures s.phase.next in Indices(s.results) ==> s.phase.next in s.reported
    ensures s.phase.next in s.sent ==> s.phase.next in s.reported || s.phase.next in s.late
  {
    hide Expired, RunOne;
    var i := s.phase.next;
    if i in Indices(s.results) {
      var q :| q in s.results && q.index == i;
      assert Settled(s, q.index);
    }
  }

  lemma SettledOneMore(s: State)
    requires Inv(s) && Enabled(s, ExpireOne)
    ensures var t := Apply(s, ExpireOne);
      && (forall q <- t.results :: Settled(t, q.index) && q.section == Owed(t, q.index))
      && (forall k: nat :: Settled(t, k) ==> Settled(s, k) || k == s.phase.next)
  {
    NextUnreportedIsNew(s);
    hide ChannelInv, Expired;
    var t := Apply(s, ExpireOne);
    var i := s.phase.next;
    assert i !in s.reported ==> Owed(t, i) == Expired(s.names[i]);
    forall q <- t.results ensures Settled(t, q.index) && q.section == Owed(t, q.index) {
      if q in s.results {
        assert Settled(s, q.index);
      } else {
        assert q.index == i && i !in s.reported;
      }
    }
  }

  lemma FinishInv(s: State)
    requires Inv(s) && Enabled(s, Finish)
    ensures Inv(Apply(s, Finish))
  {
    var t := Apply(s, Finish);
    var all := Below(|s.names|);
    forall x <- Indices(s.channel) ensures x in all - s.reported {
      var r :| r in s.channel && r.index == x;
    }
    IndicesSize(s.results);
    IndicesSize(s.channel);
    SubsetSize(s.reported, all);
    assert s.channel == [];
    forall r <- t.results ensures Settled(t, r.index) && r.section == Owed(t, r.index) {
      assert Settled(s, r.index);
    }
  }

  lemma PhaseInv(s: State, m: Move)
    requires Inv(s) && Enabled(s, m) && m in {BudgetExpires, Spawn, StartCollecting, WalkAway, DrainEnd, Return}
    ensures Inv(Apply(s, m))
  {
    var t := Apply(s, m);
    forall r <- t.results ensures Settled(t, r.index) && r.section == Owed(t, r.index) {
      assert Settled(s, r.index);
    }
    forall k: nat | Settled(t, k) ensures k in Indices(t.results) {
      assert Settled(s, k);
    }
  }

  lemma MoveInv(s: State, m: Move)
    requires Inv(s) && Enabled(s, m)
    ensures Inv(Apply(s, m))
  {
    match m
    case Send(i, outcome) => SendInv(s, i, outcome);
    case Receive => CollectKeepsChannel(s); CollectKeepsResults(s);
    case DrainOne => CollectKeepsChannel(s); CollectKeepsResults(s);
    case ExpireOne => ExpireOneInv(s);
    case Finish => FinishInv(s);
    case _ => PhaseInv(s, m);
  }

  lemma {:induction false} AlwaysInv(names: seq<string>, dead: bool, moves: seq<Move>)
    requires Interleaving(Start(names, dead), moves)
    ensures Inv(After(Start(names, dead), moves))
    ensures After(Start(names, dead), moves).names == names
  {
    if moves == [] {
      StartInv(names, dead);
    } else {
      AlwaysInv(names, dead, moves[..|moves| - 1]);
      MoveInv(After(Start(names, dead), moves[..|moves| - 1]), moves[|moves| - 1]);
    }
  }

  // --- What the protocol is for -------------------------------------------------------------

  /** One result per source, each the section it is owed, shown to the observer in the same order. */
  ghost predicate Complete(s: State) {
    && |s.results| == |s.names|
    && DistinctIndices(s.results)
    && (forall i: nat :: i < |s.names| ==> Result(i, Owed(s, i)) in s.results)
    && s.observed == Sections(s.results)
  }

  /** Whatever the schedule, a fan-out that has returned reported every source exactly once. */
  lemma ReturnedIsComplete(names: seq<string>, dead: bool, moves: seq<Move>)
    requires Interleaving(Start(names, dead), moves)
    requires After(Start(names, dead), moves).phase.Done?
    ensures Complete(After(Start(names, dead), moves))
  {
    AlwaysInv(names, dead, moves);
    CompleteWhenDone(After(Start(names, dead), moves));
  }

  lemma CompleteWhenDone(s: State)
    requires Inv(s) && s.phase.Done?
    ensures Complete(s)
  {
    var all := Below(|s.names|);
    assert Indices(s.results) == all by {
      forall r <- s.results ensures r.index in all {
        assert Settled(s, r.index);
      }
      forall i <- all ensures i in Indices(s.results) {
        assert Settled(s, i);
      }
    }
    IndicesSize(s.results);
    forall i: nat | i < |s.names| ensures Result(i, Owed(s, i)) in s.results {
      assert i in Indices(s.results);
      var r :| r in s.results && r.index == i;
      assert r == Result(i, Owed(s, i));
    }
  }

  /** What was sent stays as it was sent; one more send is late exactly when the collector has stopped looking. */
  lemma StepSends(s: State, m: Move)
    requires Inv(s) && Enabled(s, m)
    ensures var t := Apply(s, m);
      && t.names == s.names
      && (forall i <- s.sent :: i in t.sent && t.sent[i] == s.sent[i] && (i in t.late <==> i in s.late))
      && (forall i <- t.sent :: i in s.sent || (m.Send? && m.index == i))
      && (m.Send? ==>
            && m.index in t.sent && t.sent[m.index] == RunOne(s.names[m.index], m.outcome)
            && m.index !in s.sent && (m.index in t.late <==> PastDrain(s)))
  {
    hide RunOne, Expired;
  }

  lemma LastSend(names: seq<string>, dead: bool, moves: seq<Move>)
    requires Interleaving(Start(names, dead), moves) && moves != []
    ensures Interleaving(Start(names, dead), moves[..|moves| - 1])
    ensures var m := moves[|moves| - 1];
      var s, t := After(Start(names, dead), moves[..|moves| - 1]), After(Start(names, dead), moves);
      && s.names == t.names == names
      && (forall i <- s.sent :: i in t.sent && t.sent[i] == s.sent[i] && (i in t.late <==> i in s.late))
      && (forall i <- t.sent :: i in s.sent || (m.Send? && m.index == i))
      && (m.Send? ==>
            && m.index < |names| && m.index in t.sent && t.sent[m.index] == RunOne(names[m.index], m.outcome)
            && (m.index in t.late <==> PastDrain(s)))
  {
    AlwaysInv(names, dead, moves);
    AlwaysInv(names, dead, moves[..|moves| - 1]);
    StepSends(After(Start(names, dead), moves[..|moves| - 1]), moves[|moves| - 1]);
    hide RunOne, Apply, PastDrain, Inv;
  }

  /** Every section on record was sent by one of the moves. */
  lemma {:induction false} SentOnRecord(names: seq<string>, dead: bool, moves: seq<Move>, i: nat) returns (k: nat)
    requires Interleaving(Start(names, dead), moves) && i in After(Start(names, dead), moves).sent
    ensures k < |moves| && moves[k].Send? && moves[k].index == i
  {
    var n := |moves| - 1;
    assert moves != [];
    LastSend(names, dead, moves);
    hide *;
    if i in After(Start(names, dead), moves[..n]).sent {
      k := SentOnRecord(names, dead, moves[..n], i);
    } else {
      k := n;
    }
  }

  /** What `m` sent after the moves `p` is on record, late exactly when the collector had stopped looking. */
  ghost predicate SentAfter(names: seq<string>, dead: bool, p: seq<Move>, m: Move, s: State) {
    && Interleaving(Start(names, dead), p)
    && m.Send? && m.index < |names|
    && m.index in s.sent && s.sent[m.index] == RunOne(names[m.index], m.outcome)
    && (m.index in s.late <==> PastDrain(After(Start(names, dead), p)))
  }

  /** Every move that sent a section is on record as it was made. */
  lemma {:induction false} SentStays(names: seq<string>, dead: bool, moves: seq<Move>, p: seq<Move>, m: Move)
    requires Interleaving(Start(names, dead), moves) && p + [m] <= moves && m.Send?
    ensures SentAfter(names, dead, p, m, After(Start(names, dead), moves))
  {
    var n := |moves| - 1;
    LastSend(names, dead, moves);
    hide Interleaving, After, Start, PastDrain, RunOne;
    if |p| < n {
      assert p + [m] <= moves[..n];
      SentStays(names, dead, moves[..n], p, m);
    } else {
      assert p == moves[..n] && m == moves[n];
    }
  }

  /** Source `i` finished with this outcome while the collector was still listening. */
  ghost predicate Heard(names: seq<string>, dead: bool, moves: seq<Move>, i: nat, outcome: Outcome) {
    exists p ::
      && p + [Send(i, outcome)] <= moves
      && Interleaving(Start(names, dead), p) && !PastDrain(After(Start(names, dead), p))
  }

  /**
   What the report says about source `i` is what became of its outcome, if that was heard, and otherwise a
   failure in its name - never a skip, and never nothing.
   */
  ghost predicate Faithful(names: seq<string>, dead: bool, moves: seq<Move>, i: nat, section: Section)
    requires i < |names|
  {
    && (forall outcome :: Heard(names, dead, moves, i, outcome) ==> section == RunOne(names[i], outcome))
    && ((forall outcome :: !Heard(names, dead, moves, i, outcome)) ==> Failure(section, names[i]))
  }

  lemma HeardIsOwed(names: seq<string>, dead: bool, moves: seq<Move>, i: nat, outcome: Outcome)
    requires Interleaving(Start(names, dead), moves) && i < |names| && Heard(names, dead, moves, i, outcome)
    ensures var s := After(Start(names, dead), moves);
            i in s.sent && i !in s.late && s.sent[i] == RunOne(names[i], outcome)
  {
    var p :| p + [Send(i, outcome)] <= moves && Interleaving(Start(names, dead), p) &&
      !PastDrain(After(Start(names, dead), p));
    SentStays(names, dead, moves, p, Send(i, outcome));
    hide Interleaving, After, Start, PastDrain, RunOne;
  }

  lemma OwedWasHeard(names: seq<string>, dead: bool, moves: seq<Move>, i: nat) returns (outcome: Outcome)
    requires Interleaving(Start(names, dead), moves)
    requires var s := After(Start(names, dead), moves); i in s.sent && i !in s.late
    ensures Heard(names, dead, moves, i, outcome)
  {
    var k := SentOnRecord(names, dead, moves, i);
    outcome := moves[k].outcome;
    assert moves[..k] + [moves[k]] == moves[..k + 1];
    SentStays(names, dead, moves, moves[..k], moves[k]);
    hide Interleaving, After, Start, PastDrain, RunOne;
  }

  lemma OwedIsFaithful(names: seq<string>, dead: bool, moves: seq<Move>, i: nat)
    requires Interleaving(Start(names, dead), moves) && i < |names|
    requires After(Start(names, dead), moves).names == names
    ensures Faithful(names, dead, moves, i, Owed(After(Start(names, dead), moves), i))
  {
    hide Interleaving, After, Start, RunOne, Heard;
    var s := After(Start(names, dead), moves);
    forall outcome | Heard(names, dead, moves, i, outcome) ensures Owed(s, i) == RunOne(names[i], outcome) {
      HeardIsOwed(names, dead, moves, i, outcome);
    }
    if i in s.sent && i !in s.late {
      var outcome := OwedWasHeard(names, dead, moves, i);
    }
  }

  /** Whatever the schedule, a fan-out that has returned holds one result for each source, and each is faithful. */
  lemma ReturnedIsFaithful(names: seq<string>, dead: bool, moves: seq<Move>)
    requires Interleaving(Start(names, dead), moves)
    requires After(Start(names, dead), moves).phase.Done?
    ensures var results := After(Start(names, dead), moves).results;
      && |results| == |names| && DistinctIndices(results)
      && forall r <- results :: r.index < |names| && Faithful(names, dead, moves, r.index, r.section)
  {
    var s := After(Start(names, dead), moves);
    AlwaysInv(names, dead, moves);
    CompleteWhenDone(s);
    ResultsOwed(s);
    hide *;
    forall r <- s.results ensures r.index < |names| && Faithful(names, dead, moves, r.index, r.section) {
      OwedIsFaithful(names, dead, moves, r.index);
    }
  }

  lemma ResultsOwed(s: State)
    requires Inv(s) && s.phase.Done?
    ensures |s.results| == |s.names| && DistinctIndices(s.results)
    ensures forall r <- s.results :: r.index < |s.names| && r.section == Owed(s, r.index)
  {
    CompleteWhenDone(s);
    hide Owed, ChannelInv;
  }

  /** A goroutine that has not sent yet can always send: before, during and after the collector's life. */
  lemma SendNeverBlocks(names: seq<string>, dead: bool, moves: seq<Move>, i: nat, outcome: Outcome)
    requires Interleaving(Start(names, dead), moves)
    requires i < After(Start(names, dead), moves).spawned && i !in After(Start(names, dead), moves).sent
    ensures Enabled(After(Start(names, dead), moves), Send(i, outcome))
  {
    var s := After(Start(names, dead), moves);
    AlwaysInv(names, dead, moves);
    var others := Below(|names|) - {i};
    forall x <- Indices(s.channel) ensures x in others {
      var r :| r in s.channel && r.index == x;
    }
    IndicesSize(s.channel);
    SubsetSize(Indices(s.channel), others);
  }

  /** A context dead on entry starts no source, ever. */
  lemma {:induction false} DeadOnEntryStartsNothing(names: seq<string>, moves: seq<Move>)
    requires Interleaving(Start(names, true), moves)
    ensures var s := After(Start(names, true), moves); s.spawned == 0 && s.sent == map[] && PastDrain(s)
  {
    if moves != [] {
      DeadOnEntryStartsNothing(names, moves[..|moves| - 1]);
    }
  }

  /** A collector with an empty channel and results to come is waiting for a source that is still running. */
  lemma WaitingForSomeone(s: State)
    requires Inv(s) && s.phase.Collecting?
    requires s.channel == [] && |s.results| < |s.names|
    ensures exists i: nat :: i < s.spawned && i !in s.sent
  {
    IndicesSize(s.results);
    if forall i: nat :: i < s.spawned ==> i in s.sent {
      forall i <- Below(|s.names|) ensures i in s.reported {
        assert i in s.sent && i !in Indices(s.channel);
      }
      SubsetSize(Below(|s.names|), s.reported);
    }
  }

  function NextMove(s: State): Move {
    var n := |s.names|;
    match s.phase
    case Spawning => if s.spawned < n then Spawn else StartCollecting
    case Collecting => if |s.results| >= n then Finish else if s.channel != [] then Receive else WalkAway
    case Draining => if s.channel != [] then DrainOne else DrainEnd
    case Expiring(i) => if i < n then ExpireOne else Return
    case Done => Return
  }

  lemma NextMoveEnabled(s: State)
    requires Inv(s) && !s.phase.Done?
    ensures CollectorMove(NextMove(s))
    ensures Enabled(s, NextMove(s)) || (s.phase.Collecting? && !s.dead && s.channel == [] && |s.results| < |s.names|)
  {}

  /** The collector has a move unless it has returned, or is waiting on a live budget for a source still running. */
  lemma CollectorProgress(names: seq<string>, dead: bool, moves: seq<Move>)
    requires Interleaving(Start(names, dead), moves)
    ensures var s := After(Start(names, dead), moves);
      || s.phase.Done?
      || (CollectorMove(NextMove(s)) && Enabled(s, NextMove(s)))
      || (s.phase.Collecting? && !s.dead && exists i: nat :: i < s.spawned && i !in s.sent)
  {
    var s := After(Start(names, dead), moves);
    AlwaysInv(names, dead, moves);
    if !s.phase.Done? {
      NextMoveEnabled(s);
      if !Enabled(s, NextMove(s)) {
        WaitingForSomeone(s);
      }
    }
  }

  /** An upper bound on the collector moves still to come. */
  ghost function Remaining(s: State): int {
    var n := |s.names|;
    match s.phase
    case Spawning => (n - s.spawned) + 2 * n + 5
    case Collecting => (n - |s.results|) + n + 4
    case Draining => (n - |s.results|) + n + 3
    case Expiring(i) => (n - i) + 1
    case Done => 0
  }

  ghost function CollectorMoves(moves: seq<Move>): nat {
    if moves == [] then 0 else
    CollectorMoves(moves[..|moves| - 1]) + if CollectorMove(moves[|moves| - 1]) then 1 else 0
  }

  lemma RemainingFalls(s: State, m: Move)
    requires Inv(s) && Enabled(s, m)
    ensures Remaining(Apply(s, m)) + (if CollectorMove(m) then 1 else 0) <= Remaining(s)
  {
    RemainingNonNegative(s);
    hide ChannelInv, ResultsInv, RunOne, Expired;
  }

  /** However the sources behave, the collector takes at most 3n + 5 steps: it cannot be held hostage. */
  lemma {:induction false} CollectorBounded(names: seq<string>, dead: bool, moves: seq<Move>)
    requires Interleaving(Start(names, dead), moves)
    ensures CollectorMoves(moves) + Remaining(After(Start(names, dead), moves)) <= 3 * |names| + 5
    ensures Remaining(After(Start(names, dead), moves)) >= 0
  {
    AlwaysInv(names, dead, moves);
    RemainingNonNegative(After(Start(names, dead), moves));
    if moves != [] {
      var earlier := moves[..|moves| - 1];
      CollectorBounded(names, dead, earlier);
      AlwaysInv(names, dead, earlier);
      var before := After(Start(names, dead), earlier);
      RemainingFalls(before, moves[|moves| - 1]);
    }
  }

  lemma RemainingNonNegative(s: State)
    requires Inv(s)
    ensures Remaining(s) >= 0
    ensures !PastDrain(s) ==> |s.results| <= |s.names|
  {
    IndicesSize(s.results);
    var all := Below(|s.names|);
    forall i <- Indices(s.results) ensures i in all {
      var r :| r in s.results && r.index == i;
      assert Settled(s, i);
    }
    SubsetSize(Indices(s.results), all);
  }
}
