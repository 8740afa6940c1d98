/**
 CPE 2.3 formatted strings (section 6.2 of NIST IR 7695) as the program handles them: split on
 every colon, with no unescaping.
 */
module Cpe {
  import opened Text
  import opened Sequences

  const COMPONENTS := 13
  const PREFIX := "cpe:2.3:"
  const STARS: seq<string> := ["*", "*", "*", "*", "*", "*", "*", "*"]

  /** A component that names something: not absent, and not a wildcard that would match all of NVD. */
  predicate Concrete(component: string) {
    component != "" && component != "*" && component != "-"
  }

  /** What every accepted CPE looks like, stated on its components. */
  predicate WellFormed(cpe: string) {
    var parts := Split(cpe, ':');
    && Trimmed(cpe) && ToLower(cpe) == cpe
    && |parts| == COMPONENTS
    && parts[0] == "cpe" && parts[1] == "2.3"
    && (parts[2] == "a" || parts[2] == "o" || parts[2] == "h")
    && Concrete(parts[3]) && Concrete(parts[4])
  }

  function NormalizeCpe(raw: string): Option<string> {
    var c := ToLower(TrimSpace(raw));
    if !(PREFIX <= c) then None else
    var parts := Split(c, ':');
    if |parts| != COMPONENTS then None
    else if parts[2] != "a" && parts[2] != "o" && parts[2] != "h" then None
    else if !Concrete(parts[3]) || !Concrete(parts[4]) then None
    else Some(c)
  }

  /** An analyst's CPE: the full string, or the five-component prefix the reports print. */
  function ParseCpeOverride(raw: string): Option<string> {
    var c := ToLower(TrimSpace(raw));
    NormalizeCpe(if |Split(c, ':')| == 5 then c + StarTail() else c)
  }

  /** strings.Repeat(":*", 8) */
  function StarTail(): string {
    ":*:*:*:*:*:*:*:*"
  }

  predicate VendorToken(v: string) {
    && Trimmed(v) && ToLower(v) == v && Concrete(v)
    && forall c <- v :: c !in " \t\n:/\\?#@"
  }

  function NormalizeCpeVendor(raw: string): Option<string> {
    var v := ToLower(TrimSpace(raw));
    if !Concrete(v) || exists c <- v :: c in " \t\n:/\\?#@" then None else Some(v)
  }

  /** The `cpe:2.3:<part>:<vendor>:<product>` prefix of one CPE, where it has a product. */
  function MatchString(cpe: string): Option<string> {
    var parts := Split(TrimSpace(cpe), ':');
    if |parts| < 5 then None else
    var prefix := Join(parts[..5], ':');
    if prefix != [] && prefix[|prefix| - 1] == ':' then None else Some(prefix)
  }

  function Candidates(cpes: seq<string>): seq<string> {
    FilterMap(cpes, MatchString)
  }

  function Itself(s: string): string { s }

  /** The distinct match strings of a CPE list, first occurrences in order. */
  function MatchStrings(cpes: seq<string>): seq<string> {
    FirstByKey(Candidates(cpes), Itself)
  }

  method CpeMatchStrings(cpes: seq<string>) returns (out: seq<string>)
    ensures out == MatchStrings(cpes)
  {
    var matches: seq<string> := [];
    for i := 0 to |cpes|
      invariant matches == Candidates(cpes[..i])
    {
      assert cpes[..i + 1] == cpes[..i] + [cpes[i]];
      FilterMapSnoc(cpes[..i], cpes[i], MatchString);
      var found := MatchString(cpes[i]);
      if found.Some? {
        matches := matches + [found.value];
      }
    }
    assert cpes[..|cpes|] == cpes;
    out := KeepFirst(matches, Itself);
  }

  /** Each match string stands for the first CPE that reduces to it, and they stand in the order of those CPEs. */
  lemma MatchStringsExact(cpes: seq<string>) returns (at: seq<int>)
    ensures FirstPositions(at, Candidates(cpes), Itself)
    ensures |at| == |MatchStrings(cpes)|
    ensures forall i :: 0 <= i < |at| ==> MatchStrings(cpes)[i] == Candidates(cpes)[at[i]]
    ensures forall m :: m in MatchStrings(cpes) <==> exists c :: c in cpes && MatchString(c) == Some(m)
  {
    at := FirstByKeyExact(Candidates(cpes), Itself);
    forall m ensures m in MatchStrings(cpes) <==> exists c :: c in cpes && MatchString(c) == Some(m) {
      MatchStringMember(cpes, m);
    }
  }

  lemma MatchStringMember(cpes: seq<string>, m: string)
    ensures m in MatchStrings(cpes) <==> exists c :: c in cpes && MatchString(c) == Some(m)
  {
    FilterMapMembers(cpes, MatchString);
    FirstByKeyKeys(Candidates(cpes), Itself);
    hide MatchString;
    if m in MatchStrings(cpes) {
      var i :| 0 <= i < |cpes| && MatchString(cpes[i]) == Some(m);
      assert cpes[i] in cpes;
    }
    if c :| c in cpes && MatchString(c) == Some(m) {
      var i :| 0 <= i < |cpes| && cpes[i] == c;
      FirstByKeyCovers(Candidates(cpes), Itself, m);
    }
  }

  /** `cpe:2.3:a:okta:okta` to `cpe:2.3:a:okta`; empty when there are fewer than five components. */
  function VendorMatchString(cpe: string): string {
    var parts := Split(cpe, ':');
    if |parts| < 5 then "" else Join(parts[..4], ':')
  }

  /** The prefix test is a statement about the first two components. */
  lemma PrefixIsTwoComponents(c: string)
    ensures PREFIX <= c <==> |Split(c, ':')| >= 3 && Split(c, ':')[0] == "cpe" && Split(c, ':')[1] == "2.3"
  {
    assert PREFIX == "cpe" + [':'] + "2.3" + [':'];
    StartsWithTwo(c, "cpe", "2.3", ':');
  }

  lemma SplitTwo(a: string, b: string, rest: string, sep: char)
    requires sep !in a && sep !in b
    ensures Split(a + [sep] + b + [sep] + rest, sep) == [a, b] + Split(rest, sep)
  {
    GroupLastThree(a, [sep], b, [sep], rest);
    SplitAppend(a, b + [sep] + rest, sep);
    SplitAppend(b, rest, sep);
    SplitOfFree(a, sep);
    SplitOfFree(b, sep);
  }

  lemma JoinTwo(s: string, sep: char)
    requires |Split(s, sep)| >= 3
    ensures var parts := Split(s, sep); s == parts[0] + [sep] + parts[1] + [sep] + Join(parts[2..], sep)
  {
    var parts := Split(s, sep);
    JoinSplit(s, sep);
    assert parts[1..][1..] == parts[2..];
    GroupLastThree(parts[0], [sep], parts[1], [sep], Join(parts[2..], sep));
  }

  lemma StartsWithTwo(s: string, a: string, b: string, sep: char)
    requires sep !in a && sep !in b
    ensures a + [sep] + b + [sep] <= s <==> |Split(s, sep)| >= 3 && Split(s, sep)[0] == a && Split(s, sep)[1] == b
  {
    var head := a + [sep] + b + [sep];
    if head <= s {
      SplitTwo(a, b, s[|head|..], sep);
      assert s == head + s[|head|..];
    }
    if |Split(s, sep)| >= 3 {
      JoinTwo(s, sep);
    }
  }

  /** Validation accepts exactly the texts that are well formed once trimmed and lowered. */
  lemma NormalizeCpeExact(raw: string)
    ensures NormalizeCpe(raw).Some? <==> WellFormed(ToLower(TrimSpace(raw)))
    ensures NormalizeCpe(raw).Some? ==> NormalizeCpe(raw).value == ToLower(TrimSpace(raw))
  {
    var c := ToLower(TrimSpace(raw));
    TrimShape(raw);
    LowerTrimmed(TrimSpace(raw));
    LowerTwice(TrimSpace(raw));
    PrefixIsTwoComponents(c);
  }

  lemma WellFormedIsNormal(c: string)
    requires WellFormed(c)
    ensures NormalizeCpe(c) == Some(c)
  {
    TrimOfTrimmed(c);
    NormalizeCpeExact(c);
  }

  lemma VendorTokenExact(raw: string)
    ensures NormalizeCpeVendor(raw).Some? <==> VendorToken(ToLower(TrimSpace(raw)))
    ensures NormalizeCpeVendor(raw).Some? ==> NormalizeCpeVendor(raw).value == ToLower(TrimSpace(raw))
  {
    TrimShape(raw);
    LowerTrimmed(TrimSpace(raw));
    LowerTwice(TrimSpace(raw));
  }

  lemma StarTailIsJoin()
    ensures StarTail() == [':'] + Join(STARS, ':')
  {
    assert Join(STARS[7..], ':') == "*";
    assert Join(STARS[6..], ':') == "*:*" by { assert STARS[6..][1..] == STARS[7..]; }
    assert Join(STARS[5..], ':') == "*:*:*" by { assert STARS[5..][1..] == STARS[6..]; }
    assert Join(STARS[4..], ':') == "*:*:*:*" by { assert STARS[4..][1..] == STARS[5..]; }
    assert Join(STARS[3..], ':') == "*:*:*:*:*" by { assert STARS[3..][1..] == STARS[4..]; }
    assert Join(STARS[2..], ':') == "*:*:*:*:*:*" by { assert STARS[2..][1..] == STARS[3..]; }
    assert Join(STARS[1..], ':') == "*:*:*:*:*:*:*" by { assert STARS[1..][1..] == STARS[2..]; }
  }

  /** Padding appends eight components and touches nothing before them. */
  lemma SplitPadded(c: string)
    ensures Split(c + StarTail(), ':') == Split(c, ':') + STARS
  {
    StarTailIsJoin();
    SplitTail(c, STARS, ':');
  }

  lemma SplitTail(c: string, tail: seq<string>, sep: char)
    requires tail != [] && forall part <- tail :: sep !in part
    ensures Split(c + ([sep] + Join(tail, sep)), sep) == Split(c, sep) + tail
  {
    assert c + ([sep] + Join(tail, sep)) == c + [sep] + Join(tail, sep);
    SplitAppend(c, Join(tail, sep), sep);
    SplitJoin(tail, sep);
  }

  /** An accepted override is well formed, and giving it back yields itself. */
  lemma OverrideIdempotent(raw: string)
    requires ParseCpeOverride(raw).Some?
    ensures WellFormed(ParseCpeOverride(raw).value)
    ensures ParseCpeOverride(ParseCpeOverride(raw).value) == ParseCpeOverride(raw)
  {
    var c := ToLower(TrimSpace(raw));
    var full := if |Split(c, ':')| == 5 then c + StarTail() else c;
    NormalizeCpeExact(full);
    var accepted := ParseCpeOverride(raw).value;
    TrimOfTrimmed(accepted);
    WellFormedIsNormal(accepted);
  }

  /** The short form is accepted exactly when its own five components are sound. */
  lemma ShortFormAccepted(short: string)
    requires |Split(ToLower(TrimSpace(short)), ':')| == 5
    ensures var parts := Split(ToLower(TrimSpace(short)), ':');
            ParseCpeOverride(short).Some? <==>
              && parts[0] == "cpe" && parts[1] == "2.3"
              && (parts[2] == "a" || parts[2] == "o" || parts[2] == "h")
              && Concrete(parts[3]) && Concrete(parts[4])
  {
    var c := ToLower(TrimSpace(short));
    PaddedShape(c);
    TrimShape(short);
    LowerTrimmed(TrimSpace(short));
    LowerTwice(TrimSpace(short));
    TrimPadded(c);
    NormalizeCpeExact(c + StarTail());
  }

  lemma PaddedShape(c: string)
    ensures Split(c + StarTail(), ':') == Split(c, ':') + STARS
    ensures ToLower(c) == c ==> ToLower(c + StarTail()) == c + StarTail()
  {
    SplitPadded(c);
    LowerConcat(c, StarTail());
    assert ToLower(StarTail()) == StarTail();
  }

  lemma TrimPadded(c: string)
    requires Trimmed(c)
    ensures Trimmed(c + StarTail()) && TrimSpace(c + StarTail()) == c + StarTail()
  {
    var padded := c + StarTail();
    assert padded[|padded| - 1] == '*';
    TrimOfTrimmed(padded);
  }

  /** Reducing a padded short form to its match string gives the short form back. */
  lemma ShortFormRoundTrip(short: string)
    requires |Split(ToLower(TrimSpace(short)), ':')| == 5
    requires ParseCpeOverride(short).Some?
    ensures MatchStrings([ParseCpeOverride(short).value]) == [ToLower(TrimSpace(short))]
  {
    var c := ToLower(TrimSpace(short));
    ShortFormAccepted(short);
    PaddedShape(c);
    TrimShape(short);
    LowerTrimmed(TrimSpace(short));
    LowerTwice(TrimSpace(short));
    TrimPadded(c);
    var full := c + StarTail();
    NormalizeCpeExact(full);
    assert ParseCpeOverride(short) == Some(full);
    MatchStringOfWellFormed(full);
    var parts := Split(full, ':');
    assert parts[..5] == Split(c, ':');
    JoinSplit(c, ':');
    FilterMapSnoc([], full, MatchString);
    assert [] + [full] == [full] && [c][..0] == [];
    assert Candidates([full]) == [c];
    assert MatchStrings([full]) == FirstByKey([c], Itself) == [c];
  }

  /** A well-formed CPE always yields a match string: its first five components. */
  lemma MatchStringOfWellFormed(c: string)
    requires WellFormed(c)
    ensures MatchString(c) == Some(Join(Split(c, ':')[..5], ':'))
  {
    TrimOfTrimmed(c);
    var parts := Split(c, ':');
    JoinAppend(parts[..4], [parts[4]], ':');
    assert parts[..4] + [parts[4]] == parts[..5];
    var m := Join(parts[..5], ':');
    assert m[|m| - 1] == parts[4][|parts[4]| - 1];
    assert parts[4][|parts[4]| - 1] in parts[4];
  }

  /** A text has a match string exactly when it has a fifth component, and it is the first five of them. */
  lemma MatchStringExact(cpe: string)
    ensures var parts := Split(TrimSpace(cpe), ':');
      && (MatchString(cpe).Some? <==> |parts| >= 5 && parts[4] != "")
      && (MatchString(cpe).Some? ==> MatchString(cpe).value == Join(parts[..5], ':'))
  {
    var parts := Split(TrimSpace(cpe), ':');
    if |parts| >= 5 {
      JoinAppend(parts[..4], [parts[4]], ':');
      assert parts[..4] + [parts[4]] == parts[..5];
      var m := Join(parts[..5], ':');
      assert m == Join(parts[..4], ':') + [':'] + parts[4];
      if parts[4] != "" {
        assert m[|m| - 1] == parts[4][|parts[4]| - 1] && parts[4] in parts;
        assert parts[4][|parts[4]| - 1] in parts[4];
      }
    }
  }
}
