/** Names a vendor is looked up under, compared without case, punctuation or corporate suffixes. */
module Vendor {
  import opened Text
  import opened Sequences
  import opened Domain

  const SUFFIXES: set<string> := {
    "incorporated", "inc", "llc", "l l c", "ltd", "limited", "corporation", "corp",
    "company", "co", "plc", "gmbh", "ag", "sa", "nv", "bv", "pty", "holdings", "group"
  }

  predicate Alphanumeric(c: char) {
    'a' <= c <= 'z' || '0' <= c <= '9'
  }

  /** Every run of other characters separates words; a run and a single space separate alike. */
  function Denoised(s: string): string {
    seq(|s|, i requires 0 <= i < |s| => if Alphanumeric(s[i]) then s[i] else ' ')
  }

  /** Drops trailing corporate suffixes, but never the last word left. */
  function WithoutSuffixes(words: seq<string>): seq<string> {
    if |words| > 1 && words[|words| - 1] in SUFFIXES then WithoutSuffixes(words[..|words| - 1]) else words
  }

  function NormalizeVendorName(name: string): string {
    NormalizeCleaned(ToLower(TrimSpace(name)))
  }

  function NormalizeCleaned(cleaned: string): string {
    Join(WithoutSuffixes(Fields(Denoised(cleaned))), ' ')
  }

  method StripSuffixes(words: seq<string>) returns (fields: seq<string>)
    ensures fields == WithoutSuffixes(words)
    ensures fields <= words && (words != [] ==> fields != [])
    ensures |fields| > 1 ==> fields[|fields| - 1] !in SUFFIXES
    ensures forall i :: |fields| <= i < |words| ==> words[i] in SUFFIXES
  {
    fields := words;
    while |fields| > 1 && fields[|fields| - 1] in SUFFIXES
      invariant WithoutSuffixes(fields) == WithoutSuffixes(words)
      invariant fields <= words && (words != [] ==> fields != [])
      invariant forall i :: |fields| <= i < |words| ==> words[i] in SUFFIXES
    {
      fields := fields[..|fields| - 1];
    }
  }

  function Keyed(name: string): Option<string> {
    if NormalizeVendorName(name) == "" then None else Some(name)
  }

  function AllNames(q: Query, ent: Entity): seq<string> {
    [ent.canonicalName] + ent.aliases + [q.company]
  }

  function TrimAll(names: seq<string>): seq<string> {
    seq(|names|, i requires 0 <= i < |names| => TrimSpace(names[i]))
  }

  /** The canonical name, the aliases and the analyst's own words, one spelling per normalised name. */
  function Spellings(q: Query, ent: Entity): seq<string> {
    FirstByKey(FilterMap(AllNames(q, ent), Keyed), NormalizeVendorName)
  }

  function VendorNames(q: Query, ent: Entity): seq<string> {
    TrimAll(Spellings(q, ent))
  }

  method CollectVendorNames(q: Query, ent: Entity) returns (names: seq<string>)
    ensures names == VendorNames(q, ent)
  {
    var keyed: seq<string> := [];
    var all := AllNames(q, ent);
    for i := 0 to |all|
      invariant keyed == FilterMap(all[..i], Keyed)
    {
      assert all[..i + 1] == all[..i] + [all[i]];
      FilterMapSnoc(all[..i], all[i], Keyed);
      if NormalizeVendorName(all[i]) != "" {
        keyed := keyed + [all[i]];
      }
    }
    assert all[..|all|] == all;
    var kept := KeepFirst(keyed, NormalizeVendorName);
    names := TrimAll(kept);
  }

  lemma NormalizeIgnoresTrim(name: string)
    ensures NormalizeVendorName(TrimSpace(name)) == NormalizeVendorName(name)
  {
    TrimTwice(name);
  }

  /** No two lookup names mean the same vendor, and every nameable input is covered by one. */
  lemma VendorNamesCover(q: Query, ent: Entity)
    ensures DistinctKeys(VendorNames(q, ent), NormalizeVendorName)
    ensures forall n <- AllNames(q, ent) :: NormalizeVendorName(n) != "" ==>
              HasKey(VendorNames(q, ent), NormalizeVendorName, NormalizeVendorName(n))
  {
    var keyed := FilterMap(AllNames(q, ent), Keyed);
    var kept := Spellings(q, ent);
    FirstByKeyKeys(keyed, NormalizeVendorName);
    forall i | 0 <= i < |kept| ensures NormalizeVendorName(kept[i]) == NormalizeVendorName(VendorNames(q, ent)[i]) {
      NormalizeIgnoresTrim(kept[i]);
    }
    SameKeys(kept, VendorNames(q, ent), NormalizeVendorName);
    FilterMapMembers(AllNames(q, ent), Keyed);
    forall n <- AllNames(q, ent) | NormalizeVendorName(n) != ""
      ensures HasKey(VendorNames(q, ent), NormalizeVendorName, NormalizeVendorName(n))
    {
      KeyedMember(AllNames(q, ent), n);
      FirstByKeyCovers(keyed, NormalizeVendorName, n);
    }
  }

  lemma KeyedMember(all: seq<string>, n: string)
    requires n in all && NormalizeVendorName(n) != ""
    ensures n in FilterMap(all, Keyed)
  {
    FilterMapMembers(all, Keyed);
    var i :| 0 <= i < |all| && all[i] == n;
    assert Keyed(all[i]) == Some(n);
  }

  // --- Which names, and what a normalised name looks like -------------------------------------

  /** The j-th name means something, and is the first to mean it. */
  ghost predicate FirstMeaning(all: seq<string>, j: int) {
    && 0 <= j < |all| && NormalizeVendorName(all[j]) != ""
    && forall i :: 0 <= i < j ==> NormalizeVendorName(all[i]) != NormalizeVendorName(all[j])
  }

  /** The lookup names are the first of each meaning - canonical name, aliases, company - trimmed and in order. */
  lemma VendorNamesExact(q: Query, ent: Entity) returns (at: seq<int>)
    ensures var all := [ent.canonicalName] + ent.aliases + [q.company];
      && Increasing(at) && |at| == |VendorNames(q, ent)|
      && (forall j :: FirstMeaning(all, j) <==> j in at)
      && forall i :: 0 <= i < |at| ==> 0 <= at[i] < |all| && VendorNames(q, ent)[i] == TrimSpace(all[at[i]])
  {
    var all := AllNames(q, ent);
    var kept := FilterMapExact(all, Keyed);
    var keyed := FilterMap(all, Keyed);
    var first := FirstByKeyExact(keyed, NormalizeVendorName);
    FirstInside(first, keyed, NormalizeVendorName);
    at := Compose(kept, first);
    KeyedAt(all, keyed, kept);
    hide *;
    forall j ensures FirstMeaning(all, j) <==> j in at {
      MeaningAt(all, keyed, kept, first, at, j);
    }
    TrimmedAt(q, ent, keyed, first);
  }

  lemma KeyedAt(all: seq<string>, keyed: seq<string>, kept: seq<int>)
    requires KeptAt(kept, all, Keyed) && |kept| == |keyed|
    requires forall m :: 0 <= m < |kept| ==> Keyed(all[kept[m]]) == Some(keyed[m])
    ensures Increasing(kept)
    ensures forall m :: 0 <= m < |kept| ==> 0 <= kept[m] < |all| && keyed[m] == all[kept[m]]
    ensures forall j :: 0 <= j < |all| ==> (NormalizeVendorName(all[j]) != "" <==> j in kept)
  {
    hide NormalizeVendorName;
  }

  lemma TrimmedAt(q: Query, ent: Entity, keyed: seq<string>, first: seq<int>)
    requires keyed == FilterMap([ent.canonicalName] + ent.aliases + [q.company], Keyed)
    requires |first| == |FirstByKey(keyed, NormalizeVendorName)|
    requires forall i :: 0 <= i < |first| ==>
               0 <= first[i] < |keyed| && FirstByKey(keyed, NormalizeVendorName)[i] == keyed[first[i]]
    ensures |VendorNames(q, ent)| == |first|
    ensures forall i :: 0 <= i < |first| ==> VendorNames(q, ent)[i] == TrimSpace(keyed[first[i]])
  {
    hide TrimSpace, NormalizeVendorName, FilterMap, FirstByKey;
  }

  lemma MeaningAt(
    all: seq<string>, keyed: seq<string>, kept: seq<int>, first: seq<int>, at: seq<int>, j: int)
    requires |kept| == |keyed| && |at| == |first| && Increasing(kept)
    requires forall j :: 0 <= j < |all| ==> (NormalizeVendorName(all[j]) != "" <==> j in kept)
    requires forall m :: 0 <= m < |kept| ==> 0 <= kept[m] < |all| && keyed[m] == all[kept[m]]
    requires forall m :: FirstAt(keyed, NormalizeVendorName, m) <==> m in first
    requires forall i :: 0 <= i < |first| ==> 0 <= first[i] < |kept| && at[i] == kept[first[i]]
    ensures FirstMeaning(all, j) <==> j in at
  {
    hide NormalizeVendorName;
    if 0 <= j < |all| && j in kept {
      var m :| 0 <= m < |kept| && kept[m] == j;
      if FirstAt(keyed, NormalizeVendorName, m) {
        forall i | 0 <= i < j ensures NormalizeVendorName(all[i]) != NormalizeVendorName(all[j]) {
          if i in kept {
            var l :| 0 <= l < |kept| && kept[l] == i;
            assert l < m;
          }
        }
        var i :| 0 <= i < |first| && first[i] == m;
        assert at[i] == j;
      }
      if FirstMeaning(all, j) {
        forall l | 0 <= l < m ensures NormalizeVendorName(keyed[l]) != NormalizeVendorName(keyed[m]) {
          assert kept[l] < kept[m];
        }
        assert FirstAt(keyed, NormalizeVendorName, m);
      }
      if j in at {
        var i :| 0 <= i < |at| && at[i] == j;
        assert first[i] in first && kept[first[i]] == kept[m];
        assert first[i] == m;
      }
    }
  }

  predicate Letter(c: char) {
    'a' <= c <= 'z' || '0' <= c <= '9'
  }

  /** Lower-case letters and digits only. */
  predicate Plain(word: string) {
    word != [] && forall i :: 0 <= i < |word| ==> Letter(word[i])
  }

  predicate Spaced(s: string) {
    forall i :: 0 <= i < |s| ==> s[i] == ' ' || Letter(s[i])
  }

  lemma {:induction false} FieldsPlain(s: string)
    requires Spaced(s)
    ensures forall w <- Fields(s) :: Plain(w)
  {
    if s != [] {
      FieldsPlain(s[1..]);
      var rest := Fields(s[1..]);
      if !IsSpace(s[0]) {
        if |s| == 1 || IsSpace(s[1]) {
          assert Fields(s) == [[s[0]]] + rest;
        } else {
          assert rest[0] in rest;
          assert Plain([s[0]] + rest[0]);
          assert Fields(s) == [[s[0]] + rest[0]] + rest[1..];
        }
      }
    }
  }

  /** The words a name is compared by: plain, and not ending in a corporate suffix unless that is all there is. */
  lemma NormalizedWords(name: string) returns (words: seq<string>)
    ensures NormalizeVendorName(name) == Join(words, ' ') && Fields(NormalizeVendorName(name)) == words
    ensures forall w <- words :: Plain(w)
    ensures |words| > 1 ==> words[|words| - 1] !in SUFFIXES
  {
    var cleaned := ToLower(TrimSpace(name));
    var all := Fields(Denoised(cleaned));
    FieldsPlain(Denoised(cleaned));
    words := WithoutSuffixes(all);
    WithoutSuffixesPrefix(all);
    FieldsJoin(words);
  }

  lemma {:induction false} WithoutSuffixesPrefix(words: seq<string>)
    ensures WithoutSuffixes(words) <= words
    ensures |WithoutSuffixes(words)| > 1 ==> WithoutSuffixes(words)[|WithoutSuffixes(words)| - 1] !in SUFFIXES
    ensures words != [] ==> WithoutSuffixes(words) != []
  {
    if |words| > 1 && words[|words| - 1] in SUFFIXES {
      WithoutSuffixesPrefix(words[..|words| - 1]);
    }
  }

  lemma {:induction false} JoinPlain(words: seq<string>)
    requires forall w <- words :: Plain(w)
    ensures Spaced(Join(words, ' '))
    ensures words != [] ==> Join(words, ' ') != [] && Trimmed(Join(words, ' '))
  {
    if |words| > 1 {
      JoinPlain(words[1..]);
      assert words[0] in words && words[1] in words;
      var rest := Join(words[1..], ' ');
      assert Join(words, ' ') == words[0] + [' '] + rest;
    } else if |words| == 1 {
      assert words[0] in words;
    }
  }

  lemma SpacedUnchanged(s: string)
    requires Spaced(s)
    ensures ToLower(s) == s && Denoised(s) == s
  {}

  /** Normalising again changes nothing. */
  lemma NormalizeTwice(name: string)
    ensures NormalizeVendorName(NormalizeVendorName(name)) == NormalizeVendorName(name)
  {
    var words := NormalizedWords(name);
    var n := NormalizeVendorName(name);
    JoinPlain(words);
    SpacedUnchanged(n);
    NothingToStrip(words);
    assert TrimSpace(n) == n by {
      if words == [] {
        assert n == "";
      } else {
        TrimOfTrimmed(n);
      }
    }
    assert NormalizeVendorName(n) == NormalizeCleaned(n);
    hide NormalizeVendorName, Denoised, ToLower, TrimSpace, Fields, WithoutSuffixes;
  }

  lemma NothingToStrip(words: seq<string>)
    requires |words| > 1 ==> words[|words| - 1] !in SUFFIXES
    ensures WithoutSuffixes(words) == words
  {}
}
