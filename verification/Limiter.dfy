/**
 NVD's rate limiter: a mutex-guarded allocator of request slots. The mutex makes calls atomic, so any
 interleaving of callers is one sequence of calls. Times are milliseconds since Go's zero time.
 */
module Limiter {

  const UNKEYED_INTERVAL := 6_000
  const KEYED_INTERVAL := 600
  const WINDOW := 30_000

  class Limiter {
    const interval: int
    var last: int
    ghost var arrivals: seq<int>    // when each caller so far took the lock
    ghost var granted: seq<int>     // the slot each was given

    ghost predicate Valid()
      reads this
    {
      && interval >= 0
      && granted == Slots(0, interval, arrivals)
      && last == LastSlot(0, granted)
    }

    constructor (interval: int)
      requires interval >= 0
      ensures Valid() && this.interval == interval && arrivals == []
    {
      this.interval, last := interval, 0;
      arrivals, granted := [], [];
    }

    /**
     Reserves a slot and waits for it. A caller whose context ends first gives up, and its slot stays
     taken; a caller with nothing to wait for never does.
     */
    method Wait(now: int, contextEnds: bool) returns (ok: bool, delay: int)
      requires Valid()
      modifies this
      ensures Valid() && arrivals == old(arrivals) + [now]
      ensures delay == granted[|old(arrivals)|] - now >= 0
      ensures ok <==> delay == 0 || !contextEnds
    {
      var earliest := last + interval;
      if now < earliest {
        last := earliest;
      } else {
        last := now;
      }
      delay := last - now;
      arrivals := arrivals + [now];
      granted := granted + [last];
      assert arrivals[..|arrivals| - 1] == old(arrivals);
      ok := delay <= 0 || !contextEnds;
    }
  }

  function LastSlot(start: int, slots: seq<int>): int {
    if slots == [] then start else slots[|slots| - 1]
  }

  /** The slots granted to callers arriving at `arrivals`, the limiter having last been used at `start`. */
  function Slots(start: int, interval: int, arrivals: seq<int>): (slots: seq<int>)
    ensures |slots| == |arrivals|
  {
    if arrivals == [] then [] else
    var earlier := Slots(start, interval, arrivals[..|arrivals| - 1]);
    var free, now := LastSlot(start, earlier) + interval, arrivals[|arrivals| - 1];
    earlier + [if now < free then free else now]
  }

  /** `t` honours the gap after every earlier slot and is not before the caller's own now. */
  ghost predicate Meets(start: int, interval: int, slots: seq<int>, i: nat, now: int, t: int) {
    && t >= now && t >= start + interval
    && forall j :: 0 <= j < i && j < |slots| ==> t >= slots[j] + interval
  }

  /** Each slot is the earliest time that meets both constraints. */
  lemma {:induction false} SlotsEarliest(start: int, interval: int, arrivals: seq<int>)
    requires interval >= 0
    ensures var slots := Slots(start, interval, arrivals);
      forall i :: 0 <= i < |slots| ==>
        && Meets(start, interval, slots, i, arrivals[i], slots[i])
        && forall t :: Meets(start, interval, slots, i, arrivals[i], t) ==> slots[i] <= t
  {
    if arrivals != [] {
      var n := |arrivals| - 1;
      var before := arrivals[..n];
      SlotsEarliest(start, interval, before);
      var earlier, slots := Slots(start, interval, before), Slots(start, interval, arrivals);
      assert slots[..n] == earlier;
      forall i | 0 <= i < |slots|
        ensures Meets(start, interval, slots, i, arrivals[i], slots[i])
        ensures forall t :: Meets(start, interval, slots, i, arrivals[i], t) ==> slots[i] <= t
      {
        if i < n {
          assert arrivals[i] == before[i] && slots[i] == earlier[i];
          assert Meets(start, interval, earlier, i, before[i], earlier[i]);
          forall t | Meets(start, interval, slots, i, arrivals[i], t) ensures slots[i] <= t {
            assert forall j :: 0 <= j < i ==> slots[j] == earlier[j];
            assert Meets(start, interval, earlier, i, before[i], t);
          }
          assert forall j :: 0 <= j < i ==> slots[j] == earlier[j];
        } else {
          forall j | 0 <= j < n ensures slots[n] >= slots[j] + interval {
            if j < n - 1 {
              assert Meets(start, interval, earlier, n - 1, before[n - 1], earlier[n - 1]);
            }
            assert slots[j] == earlier[j];
          }
          if n > 0 {
            assert Meets(start, interval, earlier, n - 1, before[n - 1], earlier[n - 1]);
            assert slots[n - 1] == earlier[n - 1];
          }
        }
      }
    }
  }

  function CountWithin(slots: seq<int>, from: int, width: int): nat {
    if slots == [] then 0 else
    CountWithin(slots[..|slots| - 1], from, width) +
    if from <= slots[|slots| - 1] < from + width then 1 else 0
  }

  ghost predicate Spaced(slots: seq<int>, interval: int) {
    forall i, j :: 0 <= i < j < |slots| ==> slots[j] >= slots[i] + interval
  }

  lemma OneMoreInterval(c: int, interval: int)
    ensures (c - 1) * interval + interval == c * interval
  {}

  /** The last of `c` spaced slots in a window starts at least `c - 1` intervals into it. */
  lemma {:induction false} CountSpan(slots: seq<int>, interval: int, from: int, width: int) returns (b: nat)
    requires Spaced(slots, interval) && CountWithin(slots, from, width) > 0
    ensures b < |slots| && from <= slots[b] < from + width
    ensures slots[b] >= from + (CountWithin(slots, from, width) - 1) * interval
  {
    var n := |slots| - 1;
    var before := slots[..n];
    var c := CountWithin(before, from, width);
    assert Spaced(before, interval);
    if from <= slots[n] < from + width {
      b := n;
      if c > 0 {
        var a := CountSpan(before, interval, from, width);
        assert slots[n] >= slots[a] + interval;
        OneMoreInterval(c, interval);
      }
    } else {
      b := CountSpan(before, interval, from, width);
    }
  }

  lemma WindowBound(slots: seq<int>, interval: int, allowance: nat, from: int, width: int)
    requires Spaced(slots, interval) && interval > 0 && width <= allowance * interval
    ensures CountWithin(slots, from, width) <= allowance
  {
    var c := CountWithin(slots, from, width);
    if c > 0 {
      var b := CountSpan(slots, interval, from, width);
      CancelFactor(c - 1, allowance, interval);
    }
  }

  lemma CancelFactor(a: int, b: int, k: int)
    requires k > 0 && a * k < b * k
    ensures a < b
  {}

  lemma SlotsSpaced(start: int, interval: int, arrivals: seq<int>)
    requires interval >= 0
    ensures Spaced(Slots(start, interval, arrivals), interval)
  {
    var slots := Slots(start, interval, arrivals);
    SlotsEarliest(start, interval, arrivals);
    forall i, j | 0 <= i < j < |slots| ensures slots[j] >= slots[i] + interval {
      assert Meets(start, interval, slots, j, arrivals[j], slots[j]);
    }
  }

  /** However callers arrive, no 30 s window holds more slots than NVD allows. */
  lemma PublishedLimits(start: int, arrivals: seq<int>, from: int)
    ensures CountWithin(Slots(start, UNKEYED_INTERVAL, arrivals), from, WINDOW) <= 5
    ensures CountWithin(Slots(start, KEYED_INTERVAL, arrivals), from, WINDOW) <= 50
  {
    SlotsSpaced(start, UNKEYED_INTERVAL, arrivals);
    SlotsSpaced(start, KEYED_INTERVAL, arrivals);
    WindowBound(Slots(start, UNKEYED_INTERVAL, arrivals), UNKEYED_INTERVAL, 5, from, WINDOW);
    WindowBound(Slots(start, KEYED_INTERVAL, arrivals), KEYED_INTERVAL, 50, from, WINDOW);
  }
}
