/** Deduplication and sorting, as the sources use them: first occurrence wins, sorts are stable. */
module Sequences {

  datatype Option<+T> = None | Some(value: T)

  predicate HasKey<T, K(==)>(s: seq<T>, key: T -> K, k: K) {
    exists i :: 0 <= i < |s| && key(s[i]) == k
  }

  /** Keeps the first element of every key, in order: the `seen` map loops of the sources. */
  function FirstByKey<T, K(==)>(s: seq<T>, key: T -> K): seq<T> {
    if s == [] then [] else
    var kept := FirstByKey(s[..|s| - 1], key);
    if HasKey(kept, key, key(s[|s| - 1])) then kept else kept + [s[|s| - 1]]
  }

  ghost predicate DistinctKeys<T, K>(s: seq<T>, key: T -> K) {
    forall i, j :: 0 <= i < j < |s| ==> key(s[i]) != key(s[j])
  }

  ghost predicate Distinct<T>(s: seq<T>) {
    forall i, j :: 0 <= i < j < |s| ==> s[i] != s[j]
  }

  ghost predicate Increasing(at: seq<int>) {
    forall i, j :: 0 <= i < j < |at| ==> at[i] < at[j]
  }

  /** Position `j` of `s` is the first with its key. */
  ghost predicate FirstAt<T, K>(s: seq<T>, key: T -> K, j: int) {
    0 <= j < |s| && forall i :: 0 <= i < j ==> key(s[i]) != key(s[j])
  }

  /** `at` lists, in increasing order, exactly the positions of `s` whose key has not occurred before. */
  ghost predicate FirstPositions<T, K>(at: seq<int>, s: seq<T>, key: T -> K) {
    && Increasing(at)
    && (forall i :: 0 <= i < |at| ==> FirstAt(s, key, at[i]))
    && (forall j :: FirstAt(s, key, j) ==> j in at)
  }

  lemma {:induction false} FirstByKeyKeys<T, K>(s: seq<T>, key: T -> K)
    ensures DistinctKeys(FirstByKey(s, key), key)
    ensures forall k :: HasKey(FirstByKey(s, key), key, k) <==> HasKey(s, key, k)
    ensures forall x <- FirstByKey(s, key) :: x in s
  {
    if s != [] {
      var init, last := s[..|s| - 1], s[|s| - 1];
      var kept := FirstByKey(init, key);
      FirstByKeyKeys(init, key);
      assert init + [last] == s;
      forall k ensures HasKey(FirstByKey(s, key), key, k) <==> HasKey(s, key, k) {
        SnocHasKey(init, last, key, k);
        SnocHasKey(kept, last, key, k);
      }
    }
  }

  /** The loop keeps precisely the elements at the first positions, nothing else and in that order. */
  lemma {:induction false} FirstByKeyExact<T, K>(s: seq<T>, key: T -> K) returns (at: seq<int>)
    ensures FirstPositions(at, s, key)
    ensures |at| == |FirstByKey(s, key)|
    ensures forall i :: 0 <= i < |at| ==> FirstByKey(s, key)[i] == s[at[i]]
  {
    if s == [] {
      at := [];
    } else {
      var n := |s| - 1;
      var init := s[..n];
      var kept := FirstByKey(init, key);
      var before := FirstByKeyExact(init, key);
      forall j ensures FirstAt(s, key, j) <==> FirstAt(init, key, j) || (j == n && !HasKey(kept, key, key(s[n]))) {
        FirstByKeyKeys(init, key);
        assert forall i :: 0 <= i < n ==> init[i] == s[i];
        assert HasKey(kept, key, key(s[n])) <==> HasKey(init, key, key(s[n]));
      }
      at := if HasKey(kept, key, key(s[n])) then before else before + [n];
    }
  }

  /** The positions of the first of each key, as positions. */
  lemma FirstInside<T, K>(first: seq<int>, s: seq<T>, key: T -> K)
    requires FirstPositions(first, s, key)
    ensures forall i :: 0 <= i < |first| ==> 0 <= first[i] < |s|
    ensures forall m :: FirstAt(s, key, m) <==> m in first
  {}

  /** Positions among positions. */
  lemma Compose(kept: seq<int>, first: seq<int>) returns (at: seq<int>)
    requires Increasing(kept) && Increasing(first)
    requires forall i :: 0 <= i < |first| ==> 0 <= first[i] < |kept|
    ensures Increasing(at) && |at| == |first|
    ensures forall i :: 0 <= i < |at| ==> at[i] == kept[first[i]]
  {
    at := seq(|first|, i requires 0 <= i < |first| => kept[first[i]]);
  }

  /** So everything kept is the first of its key. */
  lemma FirstByKeyFirst<T, K>(s: seq<T>, key: T -> K, x: T)
    requires x in FirstByKey(s, key)
    ensures exists j :: FirstAt(s, key, j) && s[j] == x
  {
    var at := FirstByKeyExact(s, key);
    var i :| 0 <= i < |FirstByKey(s, key)| && FirstByKey(s, key)[i] == x;
    assert FirstAt(s, key, at[i]) && s[at[i]] == x;
  }

  lemma SnocHasKey<T, K>(s: seq<T>, x: T, key: T -> K, k: K)
    ensures HasKey(s + [x], key, k) <==> HasKey(s, key, k) || key(x) == k
  {
    if HasKey(s, key, k) {
      var i :| 0 <= i < |s| && key(s[i]) == k;
      assert (s + [x])[i] == s[i];
    }
    if key(x) == k {
      assert (s + [x])[|s|] == x;
    }
  }

  lemma FirstByKeySnoc<T, K>(s: seq<T>, x: T, key: T -> K)
    ensures FirstByKey(s + [x], key) ==
            if HasKey(FirstByKey(s, key), key, key(x)) then FirstByKey(s, key) else FirstByKey(s, key) + [x]
  {
    assert (s + [x])[..|s|] == s;
  }

  /** The same, `s` having been kept before `t` began. */
  lemma FirstByKeyOneMore<T, K>(s: seq<T>, t: seq<T>, i: nat, key: T -> K)
    requires i < |t|
    ensures var kept := FirstByKey(s + t[..i], key);
            FirstByKey(s + t[..i + 1], key) == if HasKey(kept, key, key(t[i])) then kept else kept + [t[i]]
  {
    assert s + t[..i + 1] == (s + t[..i]) + [t[i]];
    FirstByKeySnoc(s + t[..i], t[i], key);
  }

  /** A `seen` set that holds the keys of what is kept still does after one more. */
  lemma SeenOneMore<T, K>(seen: set<K>, kept: seq<T>, x: T, key: T -> K)
    requires forall k :: k in seen <==> HasKey(kept, key, k)
    ensures forall k :: k in seen + {key(x)} <==> HasKey(kept + [x], key, k)
  {
    forall k ensures HasKey(kept + [x], key, k) <==> HasKey(kept, key, k) || k == key(x) {
      SnocHasKey(kept, x, key, k);
    }
  }

  /** The `seen` loop. */
  method KeepFirst<T, K(==)>(s: seq<T>, key: T -> K) returns (kept: seq<T>)
    ensures kept == FirstByKey(s, key)
  {
    kept := [];
    var seen: set<K> := {};
    for i := 0 to |s|
      invariant kept == FirstByKey(s[..i], key)
      invariant forall k :: k in seen <==> HasKey(kept, key, k)
    {
      FirstByKeySnoc(s[..i], s[i], key);
      assert s[..i + 1] == s[..i] + [s[i]];
      var k := key(s[i]);
      assert FirstByKey(s[..i + 1], key) == if HasKey(kept, key, k) then kept else kept + [s[i]];
      if k in seen {
        assert HasKey(kept, key, k);
        continue;
      }
      assert !HasKey(kept, key, k);
      SeenOneMore(seen, kept, s[i], key);
      seen := seen + {key(s[i])};
      kept := kept + [s[i]];
    }
    assert s[..|s|] == s;
  }

  lemma FirstByKeyCovers<T, K>(s: seq<T>, key: T -> K, x: T)
    requires x in s
    ensures HasKey(FirstByKey(s, key), key, key(x))
  {
    FirstByKeyKeys(s, key);
    var i :| 0 <= i < |s| && s[i] == x;
    assert HasKey(s, key, key(x));
  }

  /** Respelling elements without changing their keys changes neither coverage nor distinctness. */
  lemma SameKeys<T, K>(s: seq<T>, t: seq<T>, key: T -> K)
    requires |s| == |t| && forall i :: 0 <= i < |s| ==> key(s[i]) == key(t[i])
    ensures DistinctKeys(s, key) ==> DistinctKeys(t, key)
    ensures forall k :: HasKey(s, key, k) ==> HasKey(t, key, k)
  {
    forall k | HasKey(s, key, k) ensures HasKey(t, key, k) {
      var i :| 0 <= i < |s| && key(s[i]) == k;
      assert key(t[i]) == k;
    }
  }

  /** A total preorder, the contract of a comparison handed to a sort. */
  ghost predicate Ordering<T(!new)>(leq: (T, T) -> bool) {
    && (forall x, y :: leq(x, y) || leq(y, x))
    && (forall x, y, z :: leq(x, y) && leq(y, z) ==> leq(x, z))
  }

  ghost predicate Sorted<T>(s: seq<T>, leq: (T, T) -> bool) {
    forall i, j :: 0 <= i < j < |s| ==> leq(s[i], s[j])
  }

  function Insert<T>(x: T, s: seq<T>, leq: (T, T) -> bool): seq<T> {
    if s == [] || leq(x, s[0]) then [x] + s else [s[0]] + Insert(x, s[1..], leq)
  }

  /** sort.SliceStable and slices.SortedFunc: the stable sort of `s`. */
  function StableSort<T>(s: seq<T>, leq: (T, T) -> bool): seq<T> {
    if s == [] then [] else Insert(s[0], StableSort(s[1..], leq), leq)
  }

  lemma {:induction false} InsertKeeps<T>(x: T, s: seq<T>, leq: (T, T) -> bool)
    ensures multiset(Insert(x, s, leq)) == multiset([x]) + multiset(s)
  {
    if s != [] && !leq(x, s[0]) {
      InsertKeeps(x, s[1..], leq);
      assert s == [s[0]] + s[1..];
    }
  }

  lemma {:induction false} InsertSorts<T(!new)>(x: T, s: seq<T>, leq: (T, T) -> bool)
    requires Ordering(leq) && Sorted(s, leq)
    ensures Sorted(Insert(x, s, leq), leq)
  {
    if s != [] && !leq(x, s[0]) {
      InsertSorts(x, s[1..], leq);
      InsertKeeps(x, s[1..], leq);
      var rest := Insert(x, s[1..], leq);
      forall y | y in rest ensures leq(s[0], y) {
        assert y in multiset(rest);
        assert y == x || y in s[1..];
      }
    }
  }

  lemma {:induction false} StableSortSorts<T(!new)>(s: seq<T>, leq: (T, T) -> bool)
    requires Ordering(leq)
    ensures Sorted(StableSort(s, leq), leq)
    ensures multiset(StableSort(s, leq)) == multiset(s)
  {
    if s != [] {
      StableSortSorts(s[1..], leq);
      InsertSorts(s[0], StableSort(s[1..], leq), leq);
      InsertKeeps(s[0], StableSort(s[1..], leq), leq);
      Uncons(s);
    }
  }

  lemma PermutedKeys<T, K>(a: seq<T>, b: seq<T>, key: T -> K)
    requires multiset(a) == multiset(b)
    ensures forall k :: HasKey(a, key, k) ==> HasKey(b, key, k)
  {
    forall k | HasKey(a, key, k) ensures HasKey(b, key, k) {
      var i :| 0 <= i < |a| && key(a[i]) == k;
      assert a[i] in multiset(b);
      var j :| 0 <= j < |b| && b[j] == a[i];
      assert key(b[j]) == k;
    }
  }

  lemma {:induction false} SingleCopies<T, K>(a: seq<T>, key: T -> K)
    requires DistinctKeys(a, key)
    ensures forall v <- a :: multiset(a)[v] <= 1
  {
    if a != [] {
      Uncons(a);
      SingleCopies(a[1..], key);
      forall v <- a[1..] ensures key(v) != key(a[0]) {
        var i :| 0 <= i < |a[1..]| && a[1..][i] == v;
        assert a[i + 1] == v;
      }
      forall v <- a ensures multiset(a)[v] <= 1 {
        if v !in a[1..] {
          assert multiset(a[1..])[v] == 0;
        }
      }
    }
  }

  lemma TwoCopies<T>(b: seq<T>, i: nat, j: nat)
    requires i < j < |b| && b[i] == b[j]
    ensures multiset(b)[b[i]] >= 2
  {
    assert b == b[..j] + [b[j]] + b[j + 1..];
    assert b[..j][i] == b[i];
  }

  lemma PermutedDistinct<T, K>(a: seq<T>, b: seq<T>, key: T -> K)
    requires DistinctKeys(a, key) && multiset(a) == multiset(b)
    ensures DistinctKeys(b, key)
  {
    SingleCopies(a, key);
    forall i, j | 0 <= i < j < |b| ensures key(b[i]) != key(b[j]) {
      assert b[i] in multiset(a) && b[j] in multiset(a);
      if b[i] == b[j] {
        TwoCopies(b, i, j);
      } else {
        var x :| 0 <= x < |a| && a[x] == b[i];
        var y :| 0 <= y < |a| && a[y] == b[j];
        assert x != y;
      }
    }
  }

  /** Sorting elements with distinct keys loses, repeats and invents none. */
  lemma SortKeepsKeys<T(!new), K>(s: seq<T>, leq: (T, T) -> bool, key: T -> K)
    requires Ordering(leq) && DistinctKeys(s, key)
    ensures var sorted := StableSort(s, leq);
      && DistinctKeys(sorted, key)
      && Sorted(sorted, leq)
      && multiset(sorted) == multiset(s)
      && forall k :: HasKey(sorted, key, k) <==> HasKey(s, key, k)
  {
    var sorted := StableSort(s, leq);
    StableSortSorts(s, leq);
    PermutedKeys(s, sorted, key);
    PermutedKeys(sorted, s, key);
    PermutedDistinct(s, sorted, key);
  }

  ghost predicate Antisymmetric<T>(s: seq<T>, leq: (T, T) -> bool) {
    forall x, y :: x in s && y in s && leq(x, y) && leq(y, x) ==> x == y
  }

  lemma Uncons<T>(s: seq<T>)
    requires s != []
    ensures multiset(s) == multiset{s[0]} + multiset(s[1..])
  {
    assert s == [s[0]] + s[1..];
  }

  lemma Cancel<T>(x: T, a: multiset<T>, b: multiset<T>)
    requires multiset{x} + a == multiset{x} + b
    ensures a == b
  {
    forall y ensures a[y] == b[y] {
      assert (multiset{x} + a)[y] == (multiset{x} + b)[y];
    }
  }

  lemma SameHead<T(!new)>(a: seq<T>, b: seq<T>, leq: (T, T) -> bool)
    requires Ordering(leq) && Antisymmetric(a, leq)
    requires Sorted(a, leq) && Sorted(b, leq)
    requires a != [] && b != [] && a[0] in b && b[0] in a
    ensures a[0] == b[0]
  {
    assert leq(a[0], a[0]) && leq(b[0], b[0]);
    assert leq(a[0], b[0]) && leq(b[0], a[0]);
  }

  /** When no two elements tie, the sorted arrangement of a multiset is unique. */
  lemma {:induction false} SortedUnique<T(!new)>(a: seq<T>, b: seq<T>, leq: (T, T) -> bool)
    requires Ordering(leq) && Antisymmetric(a, leq)
    requires Sorted(a, leq) && Sorted(b, leq)
    requires multiset(a) == multiset(b)
    ensures a == b
  {
    assert |multiset(a)| == |a| && |multiset(b)| == |b|;
    if a != [] {
      assert a[0] in multiset(b) && b[0] in multiset(a);
      SameHead(a, b, leq);
      Uncons(a);
      Uncons(b);
      Cancel(a[0], multiset(a[1..]), multiset(b[1..]));
      SortedUnique(a[1..], b[1..], leq);
      assert a == [a[0]] + a[1..] && b == [b[0]] + b[1..];
    }
  }

  /** The order of two strings under Go's `<`. */
  predicate StringLeq(a: string, b: string) {
    a == [] || (b != [] && (a[0] < b[0] || (a[0] == b[0] && StringLeq(a[1..], b[1..]))))
  }

  /** `a` comes first in the order of a dictionary: they differ at some point, and `a` ends there or is smaller. */
  ghost predicate Precedes(a: string, b: string) {
    exists i :: 0 <= i <= |a| && i < |b| && a[..i] == b[..i] && (i == |a| || a[i] < b[i])
  }

  lemma PrecedesTail(a: string, b: string)
    requires a != [] && b != [] && a[0] == b[0]
    ensures Precedes(a, b) <==> Precedes(a[1..], b[1..])
  {
    var s, t := a[1..], b[1..];
    if i :| 0 <= i <= |s| && i < |t| && s[..i] == t[..i] && (i == |s| || s[i] < t[i]) {
      assert a[..i + 1] == [a[0]] + s[..i] && b[..i + 1] == [b[0]] + t[..i];
    }
    if i :| 0 <= i <= |a| && i < |b| && a[..i] == b[..i] && (i == |a| || a[i] < b[i]) {
      assert s[..i - 1] == a[..i][1..] && t[..i - 1] == b[..i][1..];
    }
  }

  lemma {:induction false} StringLeqExact(a: string, b: string)
    ensures StringLeq(a, b) <==> a == b || Precedes(a, b)
  {
    if a == [] {
      assert b != [] ==> a[..0] == b[..0];
    } else if b != [] {
      assert a == [a[0]] + a[1..] && b == [b[0]] + b[1..];
      if a[0] == b[0] {
        StringLeqExact(a[1..], b[1..]);
        PrecedesTail(a, b);
      } else {
        DifferAtOnce(a, b);
      }
    }
  }

  lemma DifferAtOnce(a: string, b: string)
    requires a != [] && b != [] && a[0] != b[0]
    ensures Precedes(a, b) <==> a[0] < b[0]
  {
    assert a[..0] == b[..0];
    forall i | 0 < i <= |a| && i < |b| ensures a[..i] != b[..i] {
      assert a[..i][0] == a[0] && b[..i][0] == b[0];
    }
  }

  lemma {:induction false} StringLeqTotal(a: string, b: string)
    ensures StringLeq(a, b) || StringLeq(b, a)
    ensures StringLeq(a, b) && StringLeq(b, a) ==> a == b
  {
    if a != [] && b != [] {
      StringLeqTotal(a[1..], b[1..]);
      assert a == [a[0]] + a[1..] && b == [b[0]] + b[1..];
    }
  }

  lemma {:induction false} StringLeqTransitive(a: string, b: string, c: string)
    requires StringLeq(a, b) && StringLeq(b, c)
    ensures StringLeq(a, c)
  {
    if a != [] && b != [] && c != [] && a[0] == b[0] == c[0] {
      StringLeqTransitive(a[1..], b[1..], c[1..]);
    }
  }

  /** Keeps what `f` makes of each element, in order: the append-or-skip loops of the parsers. */
  function FilterMap<T, U>(s: seq<T>, f: T -> Option<U>): seq<U> {
    if s == [] then [] else
    var kept := FilterMap(s[..|s| - 1], f);
    match f(s[|s| - 1]) case Some(u) => kept + [u] case None => kept
  }

  lemma FilterMapSnoc<T, U>(s: seq<T>, x: T, f: T -> Option<U>)
    ensures FilterMap(s + [x], f) == FilterMap(s, f) + (match f(x) case Some(u) => [u] case None => [])
  {
    assert (s + [x])[..|s|] == s;
  }

  lemma {:induction false} FilterMapMembers<T, U>(s: seq<T>, f: T -> Option<U>)
    ensures forall u <- FilterMap(s, f) :: exists i :: 0 <= i < |s| && f(s[i]) == Some(u)
    ensures forall i :: 0 <= i < |s| && f(s[i]).Some? ==> f(s[i]).value in FilterMap(s, f)
  {
    if s != [] {
      FilterMapMembers(s[..|s| - 1], f);
    }
  }

  /** `at` lists, in increasing order, exactly the positions of `s` that `f` makes something of. */
  ghost predicate KeptAt<T, U>(at: seq<int>, s: seq<T>, f: T -> Option<U>) {
    && Increasing(at)
    && (forall i :: 0 <= i < |at| ==> 0 <= at[i] < |s|)
    && forall j :: 0 <= j < |s| ==> (f(s[j]).Some? <==> j in at)
  }

  /** The loop keeps precisely what it can make something of, each once and in order. */
  lemma {:induction false} FilterMapExact<T, U>(s: seq<T>, f: T -> Option<U>) returns (at: seq<int>)
    ensures KeptAt(at, s, f) && |at| == |FilterMap(s, f)|
    ensures forall i :: 0 <= i < |at| ==> 0 <= at[i] < |s| && f(s[at[i]]) == Some(FilterMap(s, f)[i])
  {
    hide *;
    if s == [] {
      at := [];
      KeptNothing(f);
    } else {
      var n := |s| - 1;
      var before := FilterMapExact(s[..n], f);
      at := if f(s[n]).Some? then before + [n] else before;
      KeptOneMore(before, s, f);
      FilterMapSnoc(s[..n], s[n], f);
      assert s[..n] + [s[n]] == s;
      forall i | 0 <= i < |at| ensures 0 <= at[i] < |s| && f(s[at[i]]) == Some(FilterMap(s, f)[i]) {
        if i < |before| {
          assert s[..n][before[i]] == s[before[i]];
        }
      }
    }
  }

  lemma KeptNothing<T, U>(f: T -> Option<U>)
    ensures KeptAt([], [], f) && FilterMap([], f) == []
  {}

  lemma KeptOneMore<T, U>(before: seq<int>, s: seq<T>, f: T -> Option<U>)
    requires s != [] && KeptAt(before, s[..|s| - 1], f)
    ensures forall i :: 0 <= i < |before| ==> 0 <= before[i] < |s| - 1
    ensures KeptAt(if f(s[|s| - 1]).Some? then before + [|s| - 1] else before, s, f)
  {
    var n := |s| - 1;
    forall j | 0 <= j < n ensures f(s[j]).Some? <==> j in before {
      assert s[..n][j] == s[j];
    }
  }

  lemma {:induction false} FilterMapIdentity<T>(s: seq<T>, f: T -> Option<T>)
    requires forall i :: 0 <= i < |s| ==> f(s[i]) == Some(s[i])
    ensures FilterMap(s, f) == s
  {
    if s != [] {
      FilterMapIdentity(s[..|s| - 1], f);
      assert s[..|s| - 1] + [s[|s| - 1]] == s;
    }
  }

  lemma {:induction false} FilterMapNothing<T, U>(s: seq<T>, f: T -> Option<U>)
    requires forall i :: 0 <= i < |s| ==> f(s[i]) == None
    ensures FilterMap(s, f) == []
  {
    if s != [] {
      FilterMapNothing(s[..|s| - 1], f);
    }
  }

  /** Where every element has an image, the images stand in the same places. */
  lemma {:induction false} FilterMapTotal<T, U>(s: seq<T>, f: T -> Option<U>)
    requires forall i :: 0 <= i < |s| ==> f(s[i]).Some?
    ensures |FilterMap(s, f)| == |s|
    ensures forall i :: 0 <= i < |s| ==> FilterMap(s, f)[i] == f(s[i]).value
  {
    if s != [] {
      FilterMapTotal(s[..|s| - 1], f);
    }
  }

  /** Images that can be told apart by what told their originals apart. */
  lemma {:induction false} FilterMapDistinct<T, U, K>(s: seq<T>, f: T -> Option<U>, key: T -> K, image: U -> K)
    requires DistinctKeys(s, key)
    requires forall x <- s :: f(x).Some? ==> image(f(x).value) == key(x)
    ensures DistinctKeys(FilterMap(s, f), image)
  {
    if s != [] {
      var init, last := s[..|s| - 1], s[|s| - 1];
      FilterMapDistinct(init, f, key, image);
      FilterMapMembers(init, f);
      var kept := FilterMap(init, f);
      forall u <- kept ensures image(u) != key(last) {
        var i :| 0 <= i < |init| && f(init[i]) == Some(u);
        assert s[i] == init[i];
      }
    }
  }

  /** Nothing and a single thing are the easy cases of every loop. */
  lemma OfOne<T, K, U>(x: T, f: T -> Option<U>, key: U -> K, leq: (U, U) -> bool)
    requires f(x).Some?
    ensures FilterMap([x], f) == [f(x).value]
    ensures FirstByKey([f(x).value], key) == [f(x).value]
    ensures StableSort([f(x).value], leq) == [f(x).value]
  {
    FilterMapSnoc([], x, f);
    assert [] + [x] == [x];
    FirstByKeyIdentity([f(x).value], key);
    assert [f(x).value][1..] == [];
  }

  lemma {:induction false} FirstByKeyIdentity<T, K>(s: seq<T>, key: T -> K)
    requires DistinctKeys(s, key)
    ensures FirstByKey(s, key) == s
  {
    if s != [] {
      FirstByKeyIdentity(s[..|s| - 1], key);
      assert s[..|s| - 1] + [s[|s| - 1]] == s;
    }
  }

  lemma {:induction false} FilterMapShorter<T, U>(s: seq<T>, f: T -> Option<U>)
    ensures |FilterMap(s, f)| <= |s|
  {
    if s != [] {
      FilterMapShorter(s[..|s| - 1], f);
    }
  }

  lemma {:induction false} FirstByKeyShorter<T, K>(s: seq<T>, key: T -> K)
    ensures |FirstByKey(s, key)| <= |s|
  {
    if s != [] {
      FirstByKeyShorter(s[..|s| - 1], key);
    }
  }

  lemma {:induction false} FilterMapPrefix<T, U>(s: seq<T>, n: nat, f: T -> Option<U>)
    requires n <= |s|
    ensures FilterMap(s[..n], f) <= FilterMap(s, f)
  {
    if n == |s| {
      assert s[..n] == s;
    } else {
      FilterMapPrefix(s[..|s| - 1], n, f);
      assert s[..|s| - 1][..n] == s[..n];
    }
  }

  lemma {:induction false} FirstByKeyPrefix<T, K>(s: seq<T>, n: nat, key: T -> K)
    requires n <= |s|
    ensures FirstByKey(s[..n], key) <= FirstByKey(s, key)
  {
    if n == |s| {
      assert s[..n] == s;
    } else {
      FirstByKeyPrefix(s[..|s| - 1], n, key);
      assert s[..|s| - 1][..n] == s[..n];
    }
  }

  function Take<T>(s: seq<T>, n: nat): seq<T> {
    if |s| < n then s else s[..n]
  }

  function Count<T, B(==)>(s: seq<T>, bucket: T -> B, b: B): nat {
    if s == [] then 0 else Count(s[..|s| - 1], bucket, b) + if bucket(s[|s| - 1]) == b then 1 else 0
  }

  /** The positions of one bucket, which is what a counter of it counts. */
  ghost function PositionsOf<T(!new), B(!new)>(s: seq<T>, bucket: T -> B, b: B): set<int> {
    set i | 0 <= i < |s| && bucket(s[i]) == b
  }

  lemma {:induction false} CountExact<T(!new), B(!new)>(s: seq<T>, bucket: T -> B, b: B)
    ensures Count(s, bucket, b) == |PositionsOf(s, bucket, b)|
  {
    if s != [] {
      var n := |s| - 1;
      CountExact(s[..n], bucket, b);
      if bucket(s[n]) == b {
        assert PositionsOf(s, bucket, b) == PositionsOf(s[..n], bucket, b) + {n};
      } else {
        assert PositionsOf(s, bucket, b) == PositionsOf(s[..n], bucket, b);
      }
    }
  }

  lemma Regroup<T>(a: seq<T>, b: seq<T>, c: seq<T>)
    ensures a + (b + c) == (a + b) + c
  {}

  lemma GroupLastThree<T>(a: seq<T>, b: seq<T>, c: seq<T>, d: seq<T>, e: seq<T>)
    ensures a + b + c + d + e == a + b + (c + d + e)
  {}

  function Concat<T>(parts: seq<seq<T>>): seq<T> {
    if parts == [] then [] else Concat(parts[..|parts| - 1]) + parts[|parts| - 1]
  }
}
