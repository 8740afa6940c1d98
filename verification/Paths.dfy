/** Which way grounding goes, and what it leaves at the end of each: read off the dictionary's replies. */
module Paths {
  import opened Text
  import opened Sequences
  import opened Domain
  import opened Cpe
  import opened Service
  import opened Dictionary
  import opened Grounding
  import opened Ceiling

  /** Vendors are looked up in order, and the first `i` of them are not registered. */
  ghost predicate NoneBefore(dir: Directory, tried: seq<string>, i: int) {
    0 <= i <= |tried| && forall j :: 0 <= j < i ==> dir(tried[j]).Answered? && dir(tried[j]).value.totalRows <= 0
  }

  /** The i-th vendor tried is the first that the dictionary holds rows for. */
  ghost predicate FirstHeld(dir: Directory, tried: seq<string>, i: int) {
    NoneBefore(dir, tried, i) && i < |tried| && dir(tried[i]).Answered? && dir(tried[i]).value.totalRows > 0
  }

  lemma {:induction false} SearchExact(dir: Directory, tried: seq<string>) returns (i: nat)
    ensures NoneBefore(dir, tried, i)
    ensures match FirstRegistered(dir, tried)
            case Found(cat) => FirstHeld(dir, tried, i) && dir(tried[i]) == Answered(cat)
            case Unreached => i < |tried| && !dir(tried[i]).Answered?
            case Unregistered => i == |tried|
            case NoCandidates => false
  {
    if tried == [] || !dir(tried[0]).Answered? || dir(tried[0]).value.totalRows > 0 {
      i := 0;
    } else {
      i := SearchExact(dir, tried[1..]);
      i := i + 1;
      assert forall j :: 1 <= j < |tried| ==> tried[j] == tried[1..][j - 1];
    }
  }

  /** The proposed CPE is of this vendor, and the catalogue lists its product in some spelling. */
  ghost predicate Confirmable(cat: Catalogue, cpe: string) {
    && |Split(cpe, ':')| >= 5 && Join(Split(cpe, ':')[..4], ':') == cat.vendor
    && exists p <- cat.products :: EqualFold(p, Split(cpe, ':')[4])
  }

  /** Some of `all`, in the same order. */
  ghost predicate Within(some: seq<string>, all: seq<string>) {
    exists at: seq<int> ::
      && Increasing(at) && |at| == |some|
      && forall i :: 0 <= i < |at| ==> 0 <= at[i] < |all| && some[i] == all[at[i]]
  }

  lemma ConfirmedExact(cat: Catalogue, cpes: seq<string>)
    ensures var confirmed := FilterMap(cpes, ConfirmedBy(cat));
      && Within(confirmed, cpes)
      && forall c :: c in confirmed <==> c in cpes && Confirmable(cat, c)
  {
    var confirmed := FilterMap(cpes, ConfirmedBy(cat));
    var at := FilterMapExact(cpes, ConfirmedBy(cat));
    FilterMapMembers(cpes, ConfirmedBy(cat));
    forall c ensures c in confirmed <==> c in cpes && Confirmable(cat, c) {
      if c in cpes && Confirmable(cat, c) {
        var i :| 0 <= i < |cpes| && cpes[i] == c;
        assert ConfirmedBy(cat)(cpes[i]) == Some(c);
      }
    }
    hide ConfirmedBy;
  }

  /** What each end of the step means: what the dictionary said, and what became of the proposed CPEs. */
  ghost predicate Ended(
    dir: Option<Directory>, choose: Catalogue -> Reply<seq<string>>, res: Resolution, out: Resolution)
  {
    var tried, cpes := VendorsToTry(res), res.entity.cpes;
    match out.cpeOrigin
    case Unset => false
    case NotChecked => dir.None? && out.entity.cpes == cpes && out.dropped == res.dropped
    case NoVendorProposed => dir.Some? && tried == [] && out.entity.cpes == [] && out.dropped == res.dropped
    case Unreachable =>
      && dir.Some? && out.entity.cpes == cpes && out.dropped == res.dropped + [DictionaryUnreachable]
      && exists i :: NoneBefore(dir.value, tried, i) && i < |tried| && !dir.value(tried[i]).Answered?
    case NoSuchVendor(named) =>
      && dir.Some? && named == tried != [] && NoneBefore(dir.value, tried, |tried|) && out.entity.cpes == []
      && (forall v <- tried :: VendorUnknown(v) in out.dropped)
    case Confirmed(vendor) =>
      && dir.Some?
      && exists i :: FirstHeld(dir.value, tried, i) &&
           var cat := dir.value(tried[i]).value;
           && vendor == cat.vendor && Within(out.entity.cpes, cpes) && out.entity.cpes != []
           && forall c :: c in out.entity.cpes <==> c in cpes && Confirmable(cat, c)
    case ChoiceFailed(vendor) =>
      && dir.Some? && out.entity.cpes == []
      && exists i :: FirstHeld(dir.value, tried, i) &&
           var cat := dir.value(tried[i]).value;
           vendor == cat.vendor && (forall c <- cpes :: !Confirmable(cat, c)) && !choose(cat).Answered?
    case Chosen(vendor, count) =>
      && dir.Some? && count == |out.entity.cpes|
      && exists i :: FirstHeld(dir.value, tried, i) &&
           var cat := dir.value(tried[i]).value;
           vendor == cat.vendor && (forall c <- cpes :: !Confirmable(cat, c)) && choose(cat).Answered?
  }

  /** Grounding touches the CPEs and the notes only, and the origin it names says what happened. */
  lemma GroundedExact(dir: Option<Directory>, choose: Catalogue -> Reply<seq<string>>, res: Resolution)
    requires Proposed(res)
    ensures var out := Grounded(dir, choose, res);
      && out.entity.(cpes := res.entity.cpes) == res.entity && out.cpeVendors == res.cpeVendors
      && res.dropped <= out.dropped
      && Ended(dir, choose, res, out)
  {
    ProposedAccounted(dir, choose, res);
    if dir.Some? && VendorsToTry(res) != [] {
      var tried := VendorsToTry(res);
      var i := SearchExact(dir.value, tried);
      var search := FirstRegistered(dir.value, tried);
      if search.Found? {
        FoundExact(dir.value, choose, res, i);
      } else {
        UnknownNamed(tried, res.dropped, res.entity.cpes);
        hide VendorsToTry, Proposed, FirstRegistered;
      }
    }
  }

  lemma UnknownNamed(tried: seq<string>, before: seq<Note>, cpes: seq<string>)
    ensures forall v <- tried :: VendorUnknown(v) in before + UnknownVendors(tried) + Orphans(cpes)
  {
    forall v <- tried ensures VendorUnknown(v) in before + UnknownVendors(tried) + Orphans(cpes) {
      var i :| 0 <= i < |tried| && tried[i] == v;
      assert UnknownVendors(tried)[i] == VendorUnknown(v);
    }
  }

  lemma FoundExact(dir: Directory, choose: Catalogue -> Reply<seq<string>>, res: Resolution, i: nat)
    requires FirstHeld(dir, VendorsToTry(res), i)
    requires FirstRegistered(dir, VendorsToTry(res)) == Found(dir(VendorsToTry(res)[i]).value)
    ensures var out := Grounded(Some(dir), choose, res);
      && out.entity.(cpes := res.entity.cpes) == res.entity && out.cpeVendors == res.cpeVendors
      && Ended(Some(dir), choose, res, out)
  {
    var cat := dir(VendorsToTry(res)[i]).value;
    var confirmed := FilterMap(res.entity.cpes, ConfirmedBy(cat));
    ConfirmedExact(cat, res.entity.cpes);
    FoundGoes(dir, choose, res, cat);
    if confirmed != [] {
      hide VendorsToTry, Within, Confirmable, ConfirmedBy, Grounded, FirstHeld, FilterMap;
      assert confirmed[0] in confirmed;
    } else {
      ChoosingKeeps(res, cat, choose(cat));
      hide VendorsToTry, Confirmable, ConfirmedBy, Grounded, Choosing, FirstHeld, FilterMap;
    }
  }

  lemma FoundGoes(dir: Directory, choose: Catalogue -> Reply<seq<string>>, res: Resolution, cat: Catalogue)
    requires VendorsToTry(res) != [] && FirstRegistered(dir, VendorsToTry(res)) == Found(cat)
    ensures var confirmed := FilterMap(res.entity.cpes, ConfirmedBy(cat));
      Grounded(Some(dir), choose, res) ==
        if confirmed != [] then Confirming(res, cat) else Choosing(res, cat, choose(cat))
  {
    hide VendorsToTry, FirstRegistered, Confirming, Choosing, FilterMap, ConfirmedBy;
  }

  lemma ChoosingKeeps(res: Resolution, cat: Catalogue, reply: Reply<seq<string>>)
    ensures var out := Choosing(res, cat, reply);
      && out.entity.(cpes := res.entity.cpes) == res.entity && out.cpeVendors == res.cpeVendors
      && if reply.Answered? then out.cpeOrigin == Chosen(cat.vendor, |out.entity.cpes|)
         else out.entity.cpes == [] && out.cpeOrigin == ChoiceFailed(cat.vendor)
  {
    hide ChosenCpes, ChoiceNotes, Unlisted;
  }

  /**
   What narrowing is for: a product that only the keyword's page lists is confirmed, although the vendor is
   too large for its first page.
   */
  lemma NarrowedIsConfirmed(
    server: DictionaryServer, service: string, choose: Catalogue -> Reply<seq<string>>, res: Resolution,
    cpe: string, row: string)
    requires Proposed(res) && cpe in res.entity.cpes && !Blank(service)
    requires VendorsToTry(res) != [] && VendorsToTry(res)[0] == VendorMatchString(cpe)
    requires server(VendorMatchString(cpe), "").Answered?
    requires server(VendorMatchString(cpe), TrimSpace(service)).Answered?
    requires var first := server(VendorMatchString(cpe), "").value;
             |first.names| < first.total && !Malformed(first)
    requires var second := server(VendorMatchString(cpe), TrimSpace(service)).value;
             second.total > 0 && !Malformed(second) && row in second.names && Split(row, ':')[4] == Split(cpe, ':')[4]
    ensures var out := Grounded(Some(Reading(server, service)), choose, res);
            cpe in out.entity.cpes && out.cpeOrigin == Confirmed(VendorMatchString(cpe))
  {
    var v, dir := VendorMatchString(cpe), Reading(server, service);
    VendorProductsExact(server, v, service);
    GroundedExact(Some(dir), choose, res);
    assert OfPage(dir(v).value, v, server(v, TrimSpace(service)).value, TrimSpace(service));
    var cat := dir(v).value;
    assert Split(cpe, ':')[4] in cat.products;
    assert EqualFold(Split(cpe, ':')[4], Split(cpe, ':')[4]);
    assert WellFormed(cpe);
    assert Confirmable(cat, cpe);
    OnlyFirstHeld(dir, VendorsToTry(res));
    HeldDecides(dir, choose, res, cpe);
  }

  lemma OnlyFirstHeld(dir: Directory, tried: seq<string>)
    requires tried != [] && dir(tried[0]).Answered? && dir(tried[0]).value.totalRows > 0
    ensures FirstHeld(dir, tried, 0)
    ensures forall i :: NoneBefore(dir, tried, i) ==> i == 0
  {}

  lemma HeldDecides(dir: Directory, choose: Catalogue -> Reply<seq<string>>, res: Resolution, cpe: string)
    requires Ended(Some(dir), choose, res, Grounded(Some(dir), choose, res)) && cpe in res.entity.cpes
    requires FirstHeld(dir, VendorsToTry(res), 0)
    requires forall i :: NoneBefore(dir, VendorsToTry(res), i) ==> i == 0
    requires Confirmable(dir(VendorsToTry(res)[0]).value, cpe)
    ensures var out := Grounded(Some(dir), choose, res);
            cpe in out.entity.cpes && out.cpeOrigin == Confirmed(dir(VendorsToTry(res)[0]).value.vendor)
  {
    hide Grounded, VendorsToTry, Confirmable, Within;
    var out := Grounded(Some(dir), choose, res);
    assert NoneBefore(dir, VendorsToTry(res), 0);
  }
}
