/** ASCII text: the parts of Go's `strings` package the program is built on. */
module Text {

  function LowerChar(c: char): char {
    if 'A' <= c <= 'Z' then (c as int + 32) as char else c
  }

  function ToLower(s: string): string {
    seq(|s|, i requires 0 <= i < |s| => LowerChar(s[i]))
  }

  /** strings.EqualFold, for ASCII. */
  predicate EqualFold(a: string, b: string) {
    ToLower(a) == ToLower(b)
  }

  predicate IsSpace(c: char) {
    c == ' ' || '\t' <= c <= '\r'
  }

  function TrimLeft(s: string): string {
    if s != [] && IsSpace(s[0]) then TrimLeft(s[1..]) else s
  }

  function TrimRight(s: string): string {
    if s != [] && IsSpace(s[|s| - 1]) then TrimRight(s[..|s| - 1]) else s
  }

  function TrimSpace(s: string): string {
    TrimRight(TrimLeft(s))
  }

  predicate Blank(s: string) {
    TrimSpace(s) == []
  }

  /** Neither end is white space, so trimming has nothing to take. */
  predicate Trimmed(s: string) {
    s != [] ==> !IsSpace(s[0]) && !IsSpace(s[|s| - 1])
  }

  function Split(s: string, sep: char): (parts: seq<string>)
    ensures |parts| > 0
    ensures forall p <- parts :: sep !in p
  {
    if s == [] then [[]]
    else
      var rest := Split(s[1..], sep);
      if s[0] == sep then [[]] + rest else [[s[0]] + rest[0]] + rest[1..]
  }

  function Join(parts: seq<string>, sep: char): string {
    if |parts| == 0 then [] else
    if |parts| == 1 then parts[0] else
    parts[0] + [sep] + Join(parts[1..], sep)
  }

  function LowerAll(parts: seq<string>): (lowered: seq<string>)
    ensures |lowered| == |parts|
    ensures forall i :: 0 <= i < |parts| ==> lowered[i] == ToLower(parts[i])
  {
    if parts == [] then [] else [ToLower(parts[0])] + LowerAll(parts[1..])
  }

  /** strings.Fields: the maximal runs of non-space characters. */
  function Fields(s: string): (words: seq<string>)
    ensures forall w <- words :: Word(w)
    ensures s != [] && !IsSpace(s[0]) ==> words != []
  {
    if s == [] then []
    else
      var rest := Fields(s[1..]);
      if IsSpace(s[0]) then rest
      else if |s| == 1 || IsSpace(s[1]) then [[s[0]]] + rest
      else
        assert Word(rest[0]);
        [[s[0]] + rest[0]] + rest[1..]
  }

  predicate Word(w: string) {
    w != [] && forall c <- w :: !IsSpace(c)
  }

  lemma LowerTwice(s: string)
    ensures ToLower(ToLower(s)) == ToLower(s)
  {}

  lemma LowerConcat(a: string, b: string)
    ensures ToLower(a + b) == ToLower(a) + ToLower(b)
  {}

  lemma {:induction false} TrimLeftShape(s: string)
    ensures TrimLeft(s) != [] ==> !IsSpace(TrimLeft(s)[0])
    ensures exists k :: 0 <= k <= |s| && TrimLeft(s) == s[k..]
  {
    if s != [] && IsSpace(s[0]) {
      TrimLeftShape(s[1..]);
      var k :| 0 <= k <= |s[1..]| && TrimLeft(s[1..]) == s[1..][k..];
      assert s[1..][k..] == s[k + 1..];
    } else {
      assert s == s[0..];
    }
  }

  lemma {:induction false} TrimRightShape(s: string)
    ensures TrimRight(s) != [] ==> !IsSpace(TrimRight(s)[|TrimRight(s)| - 1])
    ensures exists k :: 0 <= k <= |s| && TrimRight(s) == s[..k]
  {
    if s != [] && IsSpace(s[|s| - 1]) {
      var t := s[..|s| - 1];
      TrimRightShape(t);
      var k :| 0 <= k <= |t| && TrimRight(t) == t[..k];
      assert t[..k] == s[..k];
    } else {
      assert s == s[..|s|];
    }
  }

  /** What is left after trimming has no space at either end, and its characters are the input's. */
  lemma TrimShape(s: string)
    ensures Trimmed(TrimSpace(s))
    ensures forall c <- TrimSpace(s) :: c in s
  {
    TrimLeftShape(s);
    TrimRightShape(TrimLeft(s));
  }

  lemma TrimOfTrimmed(s: string)
    requires Trimmed(s)
    ensures TrimSpace(s) == s
  {}

  lemma TrimTwice(s: string)
    ensures TrimSpace(TrimSpace(s)) == TrimSpace(s)
  {
    TrimShape(s);
    TrimOfTrimmed(TrimSpace(s));
  }

  lemma LowerTrimmed(s: string)
    requires Trimmed(s)
    ensures Trimmed(ToLower(s))
  {}

  lemma {:induction false} JoinSplit(s: string, sep: char)
    ensures Join(Split(s, sep), sep) == s
  {
    if s != [] {
      JoinSplit(s[1..], sep);
      var rest := Split(s[1..], sep);
      if s[0] == sep {
        assert ([[]] + rest)[1..] == rest;
      } else {
        var parts := [[s[0]] + rest[0]] + rest[1..];
        assert parts[1..] == rest[1..];
      }
    }
  }

  lemma {:induction false} SplitAppend(a: string, b: string, sep: char)
    ensures Split(a + [sep] + b, sep) == Split(a, sep) + Split(b, sep)
  {
    var whole := a + [sep] + b;
    if a == [] {
      assert whole[1..] == b;
    } else {
      assert whole[1..] == a[1..] + [sep] + b;
      SplitAppend(a[1..], b, sep);
    }
  }

  lemma {:induction false} SplitOfFree(s: string, sep: char)
    requires sep !in s
    ensures Split(s, sep) == [s]
  {
    if s != [] {
      SplitOfFree(s[1..], sep);
      assert [s[0]] + s[1..] == s;
    }
  }

  lemma {:induction false} SplitJoin(parts: seq<string>, sep: char)
    requires |parts| > 0
    requires forall p <- parts :: sep !in p
    ensures Split(Join(parts, sep), sep) == parts
  {
    SplitOfFree(parts[0], sep);
    if |parts| > 1 {
      SplitAppend(parts[0], Join(parts[1..], sep), sep);
      SplitJoin(parts[1..], sep);
    }
  }

  lemma {:induction false} JoinAppend(a: seq<string>, b: seq<string>, sep: char)
    requires |a| > 0 && |b| > 0
    ensures Join(a + b, sep) == Join(a, sep) + [sep] + Join(b, sep)
  {
    assert (a + b)[0] == a[0];
    if |a| == 1 {
      assert (a + b)[1..] == b;
    } else {
      assert (a + b)[1..] == a[1..] + b;
      JoinAppend(a[1..], b, sep);
    }
  }

  lemma {:induction false} LowerJoin(parts: seq<string>, sep: char)
    requires LowerChar(sep) == sep
    ensures ToLower(Join(parts, sep)) == Join(LowerAll(parts), sep)
  {
    if |parts| > 1 {
      LowerJoin(parts[1..], sep);
      LowerConcat(parts[0] + [sep], Join(parts[1..], sep));
      LowerConcat(parts[0], [sep]);
      assert ToLower([sep]) == [sep];
    }
  }

  lemma {:induction false} FieldsOfWordThenSpace(w: string, rest: string)
    requires Word(w)
    requires rest == [] || IsSpace(rest[0])
    ensures Fields(w + rest) == [w] + Fields(rest)
  {
    var s := w + rest;
    if |w| == 1 {
      assert s[1..] == rest;
      assert [s[0]] == w;
    } else {
      assert s[1..] == w[1..] + rest;
      FieldsOfWordThenSpace(w[1..], rest);
      assert [s[0]] + w[1..] == w;
    }
  }

  /** Joining words with single spaces and splitting again gives the words back. */
  lemma {:induction false} FieldsJoin(words: seq<string>)
    requires forall w <- words :: Word(w)
    ensures Fields(Join(words, ' ')) == words
  {
    if |words| == 1 {
      FieldsOfWordThenSpace(words[0], []);
      assert words[0] + [] == words[0];
    } else if |words| > 1 {
      var rest := [' '] + Join(words[1..], ' ');
      FieldsOfWordThenSpace(words[0], rest);
      assert words[0] + rest == Join(words, ' ');
      assert rest[1..] == Join(words[1..], ' ');
      FieldsJoin(words[1..]);
    }
  }

  lemma {:induction false} FieldsLower(s: string)
    ensures Fields(ToLower(s)) == LowerAll(Fields(s))
  {
    if s != [] {
      assert ToLower(s)[1..] == ToLower(s[1..]);
      FieldsLower(s[1..]);
      var rest := Fields(s[1..]);
      assert ToLower([s[0]]) == [ToLower(s)[0]];
      if IsSpace(s[0]) {
      } else if |s| == 1 || IsSpace(s[1]) {
        assert ([[s[0]]] + rest)[1..] == rest;
      } else {
        LowerConcat([s[0]], rest[0]);
        assert Fields(s)[1..] == rest[1..];
      }
    }
  }

  /** strings.Join(parts, ", ") */
  function JoinComma(parts: seq<string>): string {
    if |parts| == 0 then "" else
    if |parts| == 1 then parts[0] else JoinComma(parts[..|parts| - 1]) + ", " + parts[|parts| - 1]
  }

  /** Two texts are equal up to case when they agree at every character, or differ there by the case of one letter. */
  lemma EqualFoldExact(a: string, b: string)
    ensures EqualFold(a, b) <==>
      |a| == |b| && forall i :: 0 <= i < |a| ==> a[i] == b[i] || CasesOf(a[i], b[i]) || CasesOf(b[i], a[i])
    ensures forall i :: 0 <= i < |a| ==> !('A' <= ToLower(a)[i] <= 'Z')
  {
    if ToLower(a) == ToLower(b) {
      forall i | 0 <= i < |a| ensures a[i] == b[i] || CasesOf(a[i], b[i]) || CasesOf(b[i], a[i]) {
        assert ToLower(a)[i] == ToLower(b)[i];
      }
    }
  }

  /** An upper-case letter and the same in lower case. */
  predicate CasesOf(upper: char, lower: char) {
    'A' <= upper <= 'Z' && lower as int == upper as int + 32
  }
}
