/** The grounding step: proposed CPEs are confirmed by one vendor's catalogue, or others are chosen from it. */
module Grounding {
  import opened Text
  import opened Sequences
  import opened Domain
  import opened Cpe
  import opened Service
  import Nvd
  import opened Dictionary

  const MAX_VENDORS := 2
  const MAX_PRODUCTS := Nvd.DEFAULT_MAX_CPES

  /** The configured dictionary: a vendor's catalogue, or why it could not be read. */
  type Directory = string -> Reply<Catalogue>

  /** NVD's dictionary as a directory, narrowing large vendors by the service's name. */
  function Reading(server: DictionaryServer, service: string): Directory {
    vendor => VendorProducts(server, vendor, service)
  }

  // --- Which vendors to look up ---------------------------------------------------------------

  function Applications(vendors: seq<string>): seq<string> {
    seq(|vendors|, i requires 0 <= i < |vendors| => "cpe:2.3:a:" + vendors[i])
  }

  function Implied(cpes: seq<string>): seq<string> {
    seq(|cpes|, i requires 0 <= i < |cpes| => VendorMatchString(cpes[i]))
  }

  function NonEmpty(prefix: string): Option<string> {
    if prefix == "" then None else Some(prefix)
  }

  function Capped(prefixes: seq<string>): seq<string> {
    Take(FirstByKey(FilterMap(prefixes, NonEmpty), Itself), MAX_VENDORS)
  }

  /** The first two distinct vendor prefixes: the model's own tokens, then those its CPEs imply. */
  function VendorsToTry(res: Resolution): seq<string> {
    Capped(Applications(res.cpeVendors) + Implied(res.entity.cpes))
  }

  lemma CappedSnoc(distinct: seq<string>, x: string, cap: nat)
    ensures var kept := Take(distinct, cap);
            Take(if HasKey(distinct, Itself, x) then distinct else distinct + [x], cap) ==
              if |kept| >= cap || x in kept then kept else kept + [x]
  {
    assert HasKey(distinct, Itself, x) <==> x in distinct by {
      if x in distinct {
        var i :| 0 <= i < |distinct| && distinct[i] == x;
        assert Itself(distinct[i]) == x;
      }
    }
  }

  method AddCandidate(ghost seen: seq<string>, out: seq<string>, prefix: string) returns (more: seq<string>)
    requires out == Capped(seen)
    ensures more == Capped(seen + [prefix])
  {
    FilterMapSnoc(seen, prefix, NonEmpty);
    ghost var before := FilterMap(seen, NonEmpty);
    assert before + [] == before;
    FirstByKeySnoc(before, prefix, Itself);
    CappedSnoc(FirstByKey(before, Itself), prefix, MAX_VENDORS);
    if prefix == "" || |out| >= MAX_VENDORS || prefix in out {
      return out;
    }
    more := out + [prefix];
  }

  lemma OneMoreApplication(vendors: seq<string>, i: nat)
    requires i < |vendors|
    ensures Applications(vendors[..i + 1]) == Applications(vendors[..i]) + ["cpe:2.3:a:" + vendors[i]]
  {}

  lemma OneMoreImplied(before: seq<string>, cpes: seq<string>, i: nat)
    requires i < |cpes|
    ensures before + Implied(cpes[..i + 1]) == before + Implied(cpes[..i]) + [VendorMatchString(cpes[i])]
  {
    assert Implied(cpes[..i + 1]) == Implied(cpes[..i]) + [VendorMatchString(cpes[i])];
  }

  method VendorCandidates(res: Resolution) returns (out: seq<string>)
    ensures out == VendorsToTry(res)
  {
    out := [];
    assert Capped(Applications([])) == [];
    hide Capped, Applications, Implied;
    var vendors, cpes := res.cpeVendors, res.entity.cpes;
    for i := 0 to |vendors|
      invariant out == Capped(Applications(vendors[..i]))
    {
      OneMoreApplication(vendors, i);
      out := AddCandidate(Applications(vendors[..i]), out, "cpe:2.3:a:" + vendors[i]);
    }
    ghost var before := Applications(vendors);
    assert vendors[..|vendors|] == vendors && cpes[..|cpes|] == cpes;
    NothingImplied(before);
    for i := 0 to |cpes|
      invariant out == Capped(before + Implied(cpes[..i]))
    {
      OneMoreImplied(before, cpes, i);
      out := AddCandidate(before + Implied(cpes[..i]), out, VendorMatchString(cpes[i]));
    }
  }

  lemma NothingImplied(before: seq<string>)
    ensures before + Implied([]) == before
  {}

  // --- Looking them up ------------------------------------------------------------------------

  datatype Search = NoCandidates | Unreached | Unregistered | Found(catalogue: Catalogue)

  function FirstRegistered(dir: Directory, candidates: seq<string>): (search: Search)
    ensures !search.NoCandidates?
  {
    if candidates == [] then Unregistered else
    match dir(candidates[0])
    case Answered(cat) => if cat.Exists() then Found(cat) else FirstRegistered(dir, candidates[1..])
    case _ => Unreached
  }

  function SearchFor(dir: Directory, candidates: seq<string>): Search {
    if candidates == [] then NoCandidates else FirstRegistered(dir, candidates)
  }

  function UnknownVendors(tried: seq<string>): seq<Note> {
    seq(|tried|, i requires 0 <= i < |tried| => VendorUnknown(tried[i]))
  }

  function Orphans(cpes: seq<string>): seq<Note> {
    seq(|cpes|, i requires 0 <= i < |cpes| => CpeVendorUnknown(cpes[i]))
  }

  function Unlisted(cpes: seq<string>, vendor: string): seq<Note> {
    seq(|cpes|, i requires 0 <= i < |cpes| => ProductNotRegistered(cpes[i], vendor))
  }

  /** What the search alone makes of the resolution. */
  function Searched(res: Resolution, search: Search, tried: seq<string>): Resolution {
    match search
    case Found(_) => res
    case NoCandidates => res.(entity := res.entity.(cpes := []), cpeOrigin := NoVendorProposed)
    case Unreached => res.(dropped := res.dropped + [DictionaryUnreachable], cpeOrigin := Unreachable)
    case Unregistered =>
      res.(entity := res.entity.(cpes := []),
           dropped := res.dropped + UnknownVendors(tried) + Orphans(res.entity.cpes),
           cpeOrigin := NoSuchVendor(tried))
  }

  // --- Judging the proposed CPEs --------------------------------------------------------------

  /** The product component of a CPE. */
  function ProductComponent(cpe: string): string {
    var parts := Split(cpe, ':');
    if |parts| < 5 then "" else parts[4]
  }

  /** The catalogue is of this CPE's vendor and lists its product. */
  predicate Confirms(cat: Catalogue, cpe: string) {
    VendorMatchString(cpe) == cat.vendor && |Split(cpe, ':')| >= 5 && cat.Has(ProductComponent(cpe))
  }

  function ConfirmedBy(cat: Catalogue): string -> Option<string> {
    cpe => if Confirms(cat, cpe) then Some(cpe) else None
  }

  function LeftBehind(confirmed: seq<string>, vendor: string): string -> Option<Note> {
    cpe => if cpe in confirmed then None else Some(NotRegistered(cpe, vendor))
  }

  method ConfirmedCpes(proposed: seq<string>, cat: Catalogue) returns (out: seq<string>)
    ensures out == FilterMap(proposed, ConfirmedBy(cat))
  {
    out := [];
    for i := 0 to |proposed|
      invariant out == FilterMap(proposed[..i], ConfirmedBy(cat))
    {
      OneMoreProposed(proposed, i, cat);
      if Confirms(cat, proposed[i]) {
        out := out + [proposed[i]];
      }
    }
    assert proposed[..|proposed|] == proposed;
  }

  lemma OneMoreProposed(proposed: seq<string>, i: nat, cat: Catalogue)
    requires i < |proposed|
    ensures FilterMap(proposed[..i + 1], ConfirmedBy(cat)) ==
            FilterMap(proposed[..i], ConfirmedBy(cat)) + if Confirms(cat, proposed[i]) then [proposed[i]] else []
  {
    assert proposed[..i + 1] == proposed[..i] + [proposed[i]];
    FilterMapSnoc(proposed[..i], proposed[i], ConfirmedBy(cat));
  }

  method UnconfirmedNotes(proposed: seq<string>, confirmed: seq<string>, vendor: string) returns (out: seq<Note>)
    ensures out == FilterMap(proposed, LeftBehind(confirmed, vendor))
  {
    out := [];
    for i := 0 to |proposed|
      invariant out == FilterMap(proposed[..i], LeftBehind(confirmed, vendor))
    {
      assert proposed[..i + 1] == proposed[..i] + [proposed[i]];
      FilterMapSnoc(proposed[..i], proposed[i], LeftBehind(confirmed, vendor));
      if proposed[i] !in confirmed {
        out := out + [NotRegistered(proposed[i], vendor)];
      }
    }
    assert proposed[..|proposed|] == proposed;
  }

  function Confirming(res: Resolution, cat: Catalogue): Resolution {
    var confirmed := FilterMap(res.entity.cpes, ConfirmedBy(cat));
    res.(entity := res.entity.(cpes := confirmed),
         dropped := res.dropped + FilterMap(res.entity.cpes, LeftBehind(confirmed, cat.vendor)),
         cpeOrigin := Confirmed(cat.vendor))
  }

  // --- Choosing from the catalogue ------------------------------------------------------------

  function Token(s: string): string {
    ToLower(TrimSpace(s))
  }

  /** The catalogue's own spelling of a token. */
  function Pick(products: seq<string>, token: string): Option<string> {
    if products == [] then None
    else if EqualFold(products[0], token) then Some(products[0])
    else Pick(products[1..], token)
  }

  function PickedFrom(cat: Catalogue): string -> Option<string> {
    s => if Token(s) == "" then None else Pick(cat.products, Token(s))
  }

  function InventedFor(cat: Catalogue): string -> Option<string> {
    s => if Token(s) == "" || Pick(cat.products, Token(s)).Some? then None else Some(s)
  }

  /** The chosen products in the catalogue's spelling, each once. */
  function Accepted(selected: seq<string>, cat: Catalogue): seq<string> {
    FirstByKey(FilterMap(selected, PickedFrom(cat)), Itself)
  }

  method FindSpelling(products: seq<string>, token: string) returns (spelling: string)
    ensures spelling == if Pick(products, token).Some? then Pick(products, token).value else ""
  {
    spelling := "";
    for i := 0 to |products|
      invariant Pick(products, token) == Pick(products[i..], token)
      invariant spelling == ""
    {
      if EqualFold(products[i], token) {
        return products[i];
      }
      assert products[i..][1..] == products[i + 1..];
    }
  }

  method PartitionSelection(selected: seq<string>, cat: Catalogue)
    returns (accepted: seq<string>, invented: seq<string>)
    ensures accepted == Accepted(selected, cat)
    ensures invented == FilterMap(selected, InventedFor(cat))
  {
    accepted, invented := [], [];
    for i := 0 to |selected|
      invariant accepted == Accepted(selected[..i], cat)
      invariant invented == FilterMap(selected[..i], InventedFor(cat))
    {
      OneMoreChoice(selected, i, cat);
      var token := Token(selected[i]);
      if token == "" {
        continue;
      }
      var spelling := FindSpelling(cat.products, token);
      PickSpells(cat.products, token);
      if spelling == "" {
        invented := invented + [selected[i]];
        continue;
      }
      if spelling in accepted {
        continue;
      }
      accepted := accepted + [spelling];
    }
    assert selected[..|selected|] == selected;
  }

  lemma OneMoreChoice(selected: seq<string>, i: nat, cat: Catalogue)
    requires i < |selected|
    ensures var picked := PickedFrom(cat)(selected[i]);
            var before := Accepted(selected[..i], cat);
            Accepted(selected[..i + 1], cat) ==
              if picked.None? || picked.value in before then before else before + [picked.value]
    ensures FilterMap(selected[..i + 1], InventedFor(cat)) ==
            FilterMap(selected[..i], InventedFor(cat)) +
              (if InventedFor(cat)(selected[i]).Some? then [selected[i]] else [])
  {
    assert selected[..i + 1] == selected[..i] + [selected[i]];
    FilterMapSnoc(selected[..i], selected[i], PickedFrom(cat));
    FilterMapSnoc(selected[..i], selected[i], InventedFor(cat));
    var picks := FilterMap(selected[..i], PickedFrom(cat));
    assert picks + [] == picks;
    if PickedFrom(cat)(selected[i]).Some? {
      FirstByKeySnoc(picks, PickedFrom(cat)(selected[i]).value, Itself);
    }
  }

  /** A pick is the first listed token that differs from the asked one by case at most. */
  lemma {:induction false} PickSpells(products: seq<string>, token: string)
    ensures Pick(products, token).Some? <==> exists p <- products :: EqualFold(p, token)
    ensures Pick(products, token).Some? ==>
              Pick(products, token).value in products && EqualFold(Pick(products, token).value, token)
    ensures Pick(products, token).Some? && token != "" ==> Pick(products, token).value != ""
  {
    if products != [] {
      PickSpells(products[1..], token);
      assert products == [products[0]] + products[1..];
    }
  }

  function BuiltUnder(vendor: string): string -> Option<string> {
    product => NormalizeCpe(vendor + ":" + product + StarTail())
  }

  function InventedNotes(tokens: seq<string>, vendor: string): seq<Note> {
    seq(|tokens|, i requires 0 <= i < |tokens| => Invented(tokens[i], vendor))
  }

  function LimitNotes(tokens: seq<string>, vendor: string): seq<Note> {
    seq(|tokens|, i requires 0 <= i < |tokens| => OverLimit(tokens[i], vendor))
  }

  function Beyond<T>(s: seq<T>, n: nat): seq<T> {
    if |s| < n then [] else s[n..]
  }

  lemma ChoiceNotesAfter(before: seq<Note>, selected: seq<string>, cat: Catalogue)
    ensures before + InventedNotes(FilterMap(selected, InventedFor(cat)), cat.vendor) +
              LimitNotes(Beyond(Accepted(selected, cat), MAX_PRODUCTS), cat.vendor) ==
            before + ChoiceNotes(selected, cat)
  {}

  lemma NoLimitNotes(vendor: string)
    ensures LimitNotes([], vendor) == []
  {}

  function ChosenCpes(selected: seq<string>, cat: Catalogue): seq<string> {
    FilterMap(Take(Accepted(selected, cat), MAX_PRODUCTS), BuiltUnder(cat.vendor))
  }

  /** Why the other choices are not among them. */
  function ChoiceNotes(selected: seq<string>, cat: Catalogue): seq<Note> {
    InventedNotes(FilterMap(selected, InventedFor(cat)), cat.vendor) +
    LimitNotes(Beyond(Accepted(selected, cat), MAX_PRODUCTS), cat.vendor)
  }

  function Choosing(res: Resolution, cat: Catalogue, reply: Reply<seq<string>>): Resolution {
    var unlisted := res.dropped + Unlisted(res.entity.cpes, cat.vendor);
    match reply
    case Answered(selected) =>
      var cpes := ChosenCpes(selected, cat);
      res.(entity := res.entity.(cpes := cpes),
           dropped := unlisted + ChoiceNotes(selected, cat),
           cpeOrigin := Chosen(cat.vendor, |cpes|))
    case _ =>
      res.(entity := res.entity.(cpes := []),
           dropped := unlisted + [SelectionFailed],
           cpeOrigin := ChoiceFailed(cat.vendor))
  }

  /** The whole step. `choose` is the second question to the model, about one catalogue. */
  function Grounded(dir: Option<Directory>, choose: Catalogue -> Reply<seq<string>>, res: Resolution): Resolution {
    match dir
    case None => res.(cpeOrigin := NotChecked)
    case Some(directory) =>
      var search := SearchFor(directory, VendorsToTry(res));
      if !search.Found? then Searched(res, search, VendorsToTry(res))
      else if FilterMap(res.entity.cpes, ConfirmedBy(search.catalogue)) != [] then Confirming(res, search.catalogue)
      else Choosing(res, search.catalogue, choose(search.catalogue))
  }

  class Draft {
    var res: Resolution

    constructor (res: Resolution)
      ensures this.res == res
    {
      this.res := res;
    }

    method Note(note: Note)
      modifies this
      ensures res == old(res).(dropped := old(res).dropped + [note])
    {
      res := res.(dropped := res.dropped + [note]);
    }

    method FindVendor(dir: Directory) returns (found: Option<Catalogue>)
      modifies this
      ensures var tried := VendorsToTry(old(res));
              var search := SearchFor(dir, tried);
              && res == Searched(old(res), search, tried)
              && found == if search.Found? then Some(search.catalogue) else None
    {
      var candidates := VendorCandidates(res);
      if |candidates| == 0 {
        res := res.(entity := res.entity.(cpes := []), cpeOrigin := NoVendorProposed);
        return None;
      }
      for i := 0 to |candidates|
        invariant res == old(res)
        invariant FirstRegistered(dir, candidates) == FirstRegistered(dir, candidates[i..])
      {
        match dir(candidates[i]) {
          case Answered(cat) =>
            if cat.Exists() {
              return Some(cat);
            }
          case _ =>
            res := res.(dropped := res.dropped + [DictionaryUnreachable], cpeOrigin := Unreachable);
            return None;
        }
        assert candidates[i..][1..] == candidates[i + 1..];
      }
      NoteUnregistered(candidates);
      found := None;
    }

    method NoteUnregistered(tried: seq<string>)
      modifies this
      ensures res == Searched(old(res), Unregistered, tried)
    {
      ghost var before := res.dropped;
      var cpes := res.entity.cpes;
      for i := 0 to |tried|
        invariant res == old(res).(dropped := before + UnknownVendors(tried[..i]))
      {
        assert UnknownVendors(tried[..i + 1]) == UnknownVendors(tried[..i]) + [VendorUnknown(tried[i])];
        Note(VendorUnknown(tried[i]));
      }
      assert tried[..|tried|] == tried;
      before := before + UnknownVendors(tried);
      for i := 0 to |cpes|
        invariant res == old(res).(dropped := before + Orphans(cpes[..i]))
      {
        assert Orphans(cpes[..i + 1]) == Orphans(cpes[..i]) + [CpeVendorUnknown(cpes[i])];
        Note(CpeVendorUnknown(cpes[i]));
      }
      assert cpes[..|cpes|] == cpes;
      res := res.(entity := res.entity.(cpes := []), cpeOrigin := NoSuchVendor(tried));
    }

    /** Keeps the outcome of every path in `res`. */
    method GroundCpes(dir: Option<Directory>, choose: Catalogue -> Reply<seq<string>>)
      modifies this
      ensures res == Grounded(dir, choose, old(res))
    {
      if dir.None? {
        res := res.(cpeOrigin := NotChecked);
        return;
      }
      var found := FindVendor(dir.value);
      if found.None? {
        return;
      }
      var cat := found.value;
      var confirmed := ConfirmedCpes(res.entity.cpes, cat);
      if |confirmed| > 0 {
        var notes := UnconfirmedNotes(res.entity.cpes, confirmed, cat.vendor);
        res := res.(entity := res.entity.(cpes := confirmed), dropped := res.dropped + notes,
                    cpeOrigin := Confirmed(cat.vendor));
        return;
      }
      Choose(cat, choose(cat));
    }

    method Choose(cat: Catalogue, reply: Reply<seq<string>>)
      modifies this
      ensures res == Choosing(old(res), cat, reply)
    {
      DropUnlisted(cat.vendor);
      if !reply.Answered? {
        res := res.(dropped := res.dropped + [SelectionFailed], cpeOrigin := ChoiceFailed(cat.vendor));
        return;
      }
      var accepted := Trim(reply.value, cat);
      BuildCpes(accepted, cat.vendor);
      res := res.(cpeOrigin := Chosen(cat.vendor, |res.entity.cpes|));
    }

    /** The accepted products, cut at the limit; what is invented or cut is noted. */
    method Trim(selected: seq<string>, cat: Catalogue) returns (accepted: seq<string>)
      modifies this
      ensures accepted == Take(Accepted(selected, cat), MAX_PRODUCTS)
      ensures res == old(res).(dropped := old(res).dropped + ChoiceNotes(selected, cat))
    {
      hide Accepted, ChoiceNotes, InventedNotes, LimitNotes;
      var invented: seq<string>;
      accepted, invented := PartitionSelection(selected, cat);
      ChoiceNotesAfter(res.dropped, selected, cat);
      NoteInvented(invented, cat.vendor);
      if |accepted| > MAX_PRODUCTS {
        NoteOverLimit(accepted[MAX_PRODUCTS..], cat.vendor);
        accepted := accepted[..MAX_PRODUCTS];
      } else {
        assert Beyond(accepted, MAX_PRODUCTS) == [];
        NoLimitNotes(cat.vendor);
        assert res.dropped + [] == res.dropped;
      }
    }

    method DropUnlisted(vendor: string)
      modifies this
      ensures res == old(res).(entity := old(res).entity.(cpes := []),
                               dropped := old(res).dropped + Unlisted(old(res).entity.cpes, vendor))
    {
      var cpes := res.entity.cpes;
      ghost var before := res.dropped;
      for i := 0 to |cpes|
        invariant res == old(res).(dropped := before + Unlisted(cpes[..i], vendor))
      {
        assert Unlisted(cpes[..i + 1], vendor) == Unlisted(cpes[..i], vendor) + [ProductNotRegistered(cpes[i], vendor)];
        Note(ProductNotRegistered(cpes[i], vendor));
      }
      assert cpes[..|cpes|] == cpes;
      res := res.(entity := res.entity.(cpes := []));
    }

    method NoteInvented(tokens: seq<string>, vendor: string)
      modifies this
      ensures res == old(res).(dropped := old(res).dropped + InventedNotes(tokens, vendor))
    {
      for i := 0 to |tokens|
        invariant res == old(res).(dropped := old(res).dropped + InventedNotes(tokens[..i], vendor))
      {
        assert InventedNotes(tokens[..i + 1], vendor) ==
               InventedNotes(tokens[..i], vendor) + [Invented(tokens[i], vendor)];
        Note(Invented(tokens[i], vendor));
      }
      assert tokens[..|tokens|] == tokens;
    }

    method NoteOverLimit(tokens: seq<string>, vendor: string)
      modifies this
      ensures res == old(res).(dropped := old(res).dropped + LimitNotes(tokens, vendor))
    {
      for i := 0 to |tokens|
        invariant res == old(res).(dropped := old(res).dropped + LimitNotes(tokens[..i], vendor))
      {
        assert LimitNotes(tokens[..i + 1], vendor) == LimitNotes(tokens[..i], vendor) + [OverLimit(tokens[i], vendor)];
        Note(OverLimit(tokens[i], vendor));
      }
      assert tokens[..|tokens|] == tokens;
    }

    method BuildCpes(products: seq<string>, vendor: string)
      requires res.entity.cpes == []
      modifies this
      ensures res == old(res).(entity := old(res).entity.(cpes := FilterMap(products, BuiltUnder(vendor))))
    {
      for i := 0 to |products|
        invariant res == old(res).(entity := old(res).entity.(cpes := FilterMap(products[..i], BuiltUnder(vendor))))
      {
        assert products[..i + 1] == products[..i] + [products[i]];
        FilterMapSnoc(products[..i], products[i], BuiltUnder(vendor));
        var cpe := NormalizeCpe(vendor + ":" + products[i] + StarTail());
        if cpe.Some? {
          res := res.(entity := res.entity.(cpes := res.entity.cpes + [cpe.value]));
        }
      }
      assert products[..|products|] == products;
    }
  }
}
