/** What the model's choice from a catalogue becomes: which products, in which order, and what is said of the rest. */
module Choice {
  import opened Text
  import opened Sequences
  import opened Domain
  import opened Cpe
  import opened Dictionary
  import opened Grounding
  import opened Ceiling

  /** What a choice says once cleaned. */
  function Said(choice: string): string {
    ToLower(TrimSpace(choice))
  }

  /** The choice is not blank, and the catalogue lists it up to case. */
  ghost predicate Lists(cat: Catalogue, choice: string) {
    Said(choice) != "" && exists p <- cat.products :: EqualFold(p, Said(choice))
  }

  /** The j-th choice is listed, and no earlier one spells the same product. */
  ghost predicate FirstListed(selected: seq<string>, cat: Catalogue, j: int) {
    && 0 <= j < |selected| && Lists(cat, selected[j])
    && forall i :: 0 <= i < j ==> Said(selected[i]) != Said(selected[j])
  }

  /** The accepted products are the catalogue's own spellings of the choices that are first listed, in their order. */
  ghost predicate AcceptedAt(selected: seq<string>, cat: Catalogue, accepted: seq<string>, at: seq<int>) {
    && Increasing(at) && |at| == |accepted|
    && (forall j :: FirstListed(selected, cat, j) <==> j in at)
    && forall i :: 0 <= i < |at| ==>
         0 <= at[i] < |selected| && accepted[i] in cat.products && ToLower(accepted[i]) == Said(selected[at[i]])
  }

  lemma AcceptedExact(selected: seq<string>, cat: Catalogue) returns (at: seq<int>)
    ensures AcceptedAt(selected, cat, Accepted(selected, cat), at)
  {
    var picks := FilterMap(selected, PickedFrom(cat));
    var kept := FilterMapExact(selected, PickedFrom(cat));
    var first := FirstByKeyExact(picks, Itself);
    FirstInside(first, picks, Itself);
    PickedAt(selected, cat, picks, kept);
    at := Compose(kept, first);
    hide *;
    forall j ensures FirstListed(selected, cat, j) <==> j in at {
      ListedAt(selected, cat, picks, kept, first, at, j);
    }
    AcceptedIs(selected, cat, picks);
    AcceptedSpelled(selected, cat, Accepted(selected, cat), picks, kept, first, at);
  }

  lemma AcceptedIs(selected: seq<string>, cat: Catalogue, picks: seq<string>)
    requires picks == FilterMap(selected, PickedFrom(cat))
    ensures Accepted(selected, cat) == FirstByKey(picks, Itself)
  {}

  lemma AcceptedSpelled(
    selected: seq<string>, cat: Catalogue, accepted: seq<string>, picks: seq<string>, kept: seq<int>,
    first: seq<int>, at: seq<int>)
    requires |kept| == |picks| && |at| == |first| == |accepted| && Increasing(at)
    requires forall m :: 0 <= m < |kept| ==>
      && 0 <= kept[m] < |selected| && picks[m] in cat.products && ToLower(picks[m]) == Said(selected[kept[m]])
    requires forall i :: 0 <= i < |first| ==>
      0 <= first[i] < |kept| && at[i] == kept[first[i]] && accepted[i] == picks[first[i]]
    requires forall j :: FirstListed(selected, cat, j) <==> j in at
    ensures AcceptedAt(selected, cat, accepted, at)
  {
    hide Said, ToLower, FirstListed;
  }

  /** A pick is the one product that differs from what was said by case at most, so equal picks mean equal words. */
  lemma PickedAt(selected: seq<string>, cat: Catalogue, picks: seq<string>, kept: seq<int>)
    requires KeptAt(kept, selected, PickedFrom(cat)) && |kept| == |picks|
    requires forall m :: 0 <= m < |kept| ==> PickedFrom(cat)(selected[kept[m]]) == Some(picks[m])
    ensures Increasing(kept)
    ensures forall j :: 0 <= j < |selected| ==> (Lists(cat, selected[j]) <==> j in kept)
    ensures forall m :: 0 <= m < |kept| ==>
      && 0 <= kept[m] < |selected| && picks[m] in cat.products && ToLower(picks[m]) == Said(selected[kept[m]])
    ensures forall l, m :: 0 <= l < |kept| && 0 <= m < |kept| ==>
      (picks[l] == picks[m] <==> Said(selected[kept[l]]) == Said(selected[kept[m]]))
  {
    forall s ensures
      && (PickedFrom(cat)(s).Some? <==> Lists(cat, s))
      && (PickedFrom(cat)(s).Some? ==>
            && PickedFrom(cat)(s) == Pick(cat.products, Said(s))
            && PickedFrom(cat)(s).value in cat.products && ToLower(PickedFrom(cat)(s).value) == Said(s))
    {
      PickSpells(cat.products, Said(s));
      LowerTwice(TrimSpace(s));
    }
    hide PickedFrom, Said, ToLower, Lists, Pick;
  }

  lemma ListedAt(
    selected: seq<string>, cat: Catalogue, picks: seq<string>, kept: seq<int>, first: seq<int>, at: seq<int>, j: int)
    requires |kept| == |picks| && |at| == |first| && Increasing(kept)
    requires forall j :: 0 <= j < |selected| ==> (Lists(cat, selected[j]) <==> j in kept)
    requires forall m :: 0 <= m < |kept| ==> 0 <= kept[m] < |selected|
    requires forall l, m :: 0 <= l < |kept| && 0 <= m < |kept| ==>
      (picks[l] == picks[m] <==> Said(selected[kept[l]]) == Said(selected[kept[m]]))
    requires forall m :: FirstAt(picks, Itself, m) <==> m in first
    requires forall i :: 0 <= i < |first| ==> 0 <= first[i] < |kept| && at[i] == kept[first[i]]
    ensures FirstListed(selected, cat, j) <==> j in at
  {
    if 0 <= j < |selected| && j in kept {
      var m :| 0 <= m < |kept| && kept[m] == j;
      SameSaid(cat, selected, j);
      hide Said, Lists;
      if FirstAt(picks, Itself, m) {
        forall i | 0 <= i < j ensures Said(selected[i]) != Said(selected[j]) {
          if i in kept {
            var l :| 0 <= l < |kept| && kept[l] == i;
            assert Itself(picks[l]) != Itself(picks[m]);
          }
        }
        var i :| 0 <= i < |first| && first[i] == m;
        assert at[i] == j;
      }
      if FirstListed(selected, cat, j) {
        forall l | 0 <= l < m ensures Itself(picks[l]) != Itself(picks[m]) {
          assert kept[l] < kept[m];
        }
        assert FirstAt(picks, Itself, m);
      }
      if j in at {
        var i :| 0 <= i < |at| && at[i] == j;
        assert first[i] in first && kept[first[i]] == kept[m];
        assert first[i] == m;
      }
    }
  }

  /** Whether a choice is listed depends on what it says alone. */
  lemma SameSaid(cat: Catalogue, selected: seq<string>, j: int)
    requires 0 <= j < |selected| && Lists(cat, selected[j])
    ensures forall i :: 0 <= i < |selected| && Said(selected[i]) == Said(selected[j]) ==> Lists(cat, selected[i])
  {}

  /**
   The CPEs chosen are those of the first eight accepted products, in order, wildcards apart; every accepted
   product after the eighth is named as over the limit, and no other.
   */
  lemma ChosenExact(selected: seq<string>, cat: Catalogue) returns (at: seq<int>)
    ensures var accepted := Accepted(selected, cat);
      && AcceptedAt(selected, cat, accepted, at)
      && (forall p :: OverLimit(p, cat.vendor) in ChoiceNotes(selected, cat) <==>
            exists i :: 8 <= i < |accepted| && accepted[i] == p)
      && ChosenCpes(selected, cat) ==
           FilterMap(if |accepted| <= 8 then accepted else accepted[..8], BuiltUnder(cat.vendor))
  {
    at := AcceptedExact(selected, cat);
    var accepted := Accepted(selected, cat);
    forall p ensures OverLimit(p, cat.vendor) in ChoiceNotes(selected, cat) <==>
      exists i :: 8 <= i < |accepted| && accepted[i] == p
    {
      ChoiceNotesOf(selected, cat, p);
      BeyondEight(accepted, p);
    }
    hide Accepted, AcceptedAt, FilterMap, BuiltUnder, ChoiceNotes;
    assert |accepted| == 8 ==> accepted[..8] == accepted;
  }

  lemma BeyondEight(accepted: seq<string>, p: string)
    ensures p in Beyond(accepted, MAX_PRODUCTS) <==> exists i :: 8 <= i < |accepted| && accepted[i] == p
  {
    var beyond := Beyond(accepted, MAX_PRODUCTS);
    if i :| 8 <= i < |accepted| && accepted[i] == p {
      assert beyond[i - 8] == p;
    }
    if p in beyond {
      var k :| 0 <= k < |beyond| && beyond[k] == p;
      assert accepted[k + 8] == p;
    }
  }
}
