/** What the model proposes for a company and service, after its reply has been validated. */
module Proposal {
  import opened Text
  import opened Sequences
  import opened Domain
  import opened Cpe
  import opened Fingerprint

  /** The decoded reply. Decoding JSON is not modelled; any list of texts may arrive. */
  datatype ModelReply = ModelReply(
    canonicalName: string,
    domains: seq<string>,
    cpeVendors: seq<string>,
    cpes: seq<string>,
    packages: seq<Package>,
    aliases: seq<string>)

  function WithoutDot(d: string): string {
    if d != [] && d[|d| - 1] == '.' then d[..|d| - 1] else d
  }

  predicate DoubleDot(d: string) {
    exists i :: 0 <= i < |d| - 1 && d[i] == '.' && d[i + 1] == '.'
  }

  /** A bare hostname, lowered; None for a URL, a path, a single label or a label missing. */
  function NormalizeDomain(raw: string): Option<string> {
    var d := WithoutDot(ToLower(TrimSpace(raw)));
    if d == "" || (exists c <- d :: c in " \t/\\:@?#") then None
    else if '.' !in d || d[0] == '.' || DoubleDot(d) then None
    else if exists part <- Split(d, '.') :: part == "" then None
    else Some(d)
  }

  /** At least two labels, none empty, and nothing a URL would need. */
  predicate Hostname(d: string) {
    && |Split(d, '.')| >= 2
    && (forall part <- Split(d, '.') :: part != "")
    && forall c <- d :: c !in " \t/\\:@?#"
  }

  lemma {:induction false} LabelsSeparated(d: string)
    requires forall part <- Split(d, '.') :: part != ""
    ensures !DoubleDot(d) && d != "" && d[0] != '.'
    ensures |Split(d, '.')| >= 2 <==> '.' in d
  {
    var labels := Split(d, '.');
    assert labels[0] in labels;
    if '.' !in d {
      SplitOfFree(d, '.');
    } else {
      var i :| 0 <= i < |d| && d[i] == '.';
      SplitAt(d, i);
    }
    forall i | 0 <= i < |d| - 1 && d[i] == '.' ensures d[i + 1] != '.' {
      SplitAt(d, i);
      assert Split(d[i + 1..], '.')[0] in labels;
    }
  }

  lemma SplitAt(d: string, i: nat)
    requires i < |d| && d[i] == '.'
    ensures Split(d, '.') == Split(d[..i], '.') + Split(d[i + 1..], '.')
  {
    assert d == d[..i] + ['.'] + d[i + 1..];
    SplitAppend(d[..i], d[i + 1..], '.');
  }

  /** The checks amount to this: the text, trimmed, lowered and without a final dot, is a hostname. */
  lemma NormalizeDomainExact(raw: string)
    ensures NormalizeDomain(raw).Some? <==> Hostname(WithoutDot(ToLower(TrimSpace(raw))))
    ensures NormalizeDomain(raw).Some? ==> NormalizeDomain(raw).value == WithoutDot(ToLower(TrimSpace(raw)))
  {
    var d := WithoutDot(ToLower(TrimSpace(raw)));
    if forall part <- Split(d, '.') :: part != "" {
      LabelsSeparated(d);
    }
  }

  /** A hostname stands for itself, with or without the dot that ends it; a second dot is one too many. */
  lemma FinalDotDropped(d: string)
    requires Hostname(d) && Trimmed(d) && ToLower(d) == d
    ensures NormalizeDomain(d) == Some(d)
    ensures NormalizeDomain(d + ".") == Some(d)
    ensures NormalizeDomain(d + "..") == None
  {
    NormalizeDomainExact(d);
    NormalizeDomainExact(d + ".");
    NormalizeDomainExact(d + "..");
    DotEnds(d);
    CleanedDots(d);
    hide *;
  }

  lemma CleanedDots(d: string)
    requires d != "" && d[|d| - 1] != '.' && Trimmed(d) && ToLower(d) == d
    ensures WithoutDot(ToLower(TrimSpace(d))) == d
    ensures WithoutDot(ToLower(TrimSpace(d + "."))) == d
    ensures WithoutDot(ToLower(TrimSpace(d + ".."))) == d + "."
  {
    TrimOfTrimmed(d);
    TrimOfTrimmed(d + ".");
    TrimOfTrimmed(d + "..");
    LowerConcat(d, ".");
    LowerConcat(d, "..");
    assert ToLower(".") == "." && ToLower("..") == "..";
    hide ToLower, TrimSpace;
    assert (d + ".")[..|d|] == d && (d + "..")[..|d| + 1] == d + ".";
  }

  /** A text that ends in a dot has an empty last label. */
  lemma EmptyLast(d: string)
    requires d != "" && d[|d| - 1] == '.'
    ensures "" in Split(d, '.')
  {
    var n := |d| - 1;
    SplitAt(d, n);
    assert d[n + 1..] == "" && Split("", '.') == [""];
    assert Split(d, '.')[|Split(d[..n], '.')|] == "";
  }

  lemma DotEnds(d: string)
    requires Hostname(d)
    ensures d != "" && d[|d| - 1] != '.' && !Hostname(d + ".")
  {
    LabelsSeparated(d);
    EmptyLast(d + ".");
    if d[|d| - 1] == '.' {
      EmptyLast(d);
    }
  }

  function ValidPackage(p: Package): Option<Package> {
    NormalizePackage(p.ecosystem, p.name)
  }

  function ValidAlias(raw: string): Option<string> {
    if Blank(raw) then None else Some(TrimSpace(raw))
  }

  function BadDomain(raw: string): Note { NotADomain(raw) }

  function BadCpe(raw: string): Note { NotACpe(raw) }

  function BadVendor(raw: string): Note { NotAVendor(raw) }

  function BadPackage(p: Package): Note { NotAPackage(p.ecosystem, p.name) }

  function Rejecting<T, U>(valid: T -> Option<U>, note: T -> Note): T -> Option<Note> {
    x => if valid(x).Some? then None else Some(note(x))
  }

  /** Keeps what is valid, in its normal form, and notes what is not. */
  method Validate<T, U>(raw: seq<T>, valid: T -> Option<U>, note: T -> Note) returns (kept: seq<U>, dropped: seq<Note>)
    ensures kept == FilterMap(raw, valid)
    ensures dropped == FilterMap(raw, Rejecting(valid, note))
  {
    kept, dropped := [], [];
    for i := 0 to |raw|
      invariant kept == FilterMap(raw[..i], valid)
      invariant dropped == FilterMap(raw[..i], Rejecting(valid, note))
    {
      assert raw[..i + 1] == raw[..i] + [raw[i]];
      FilterMapSnoc(raw[..i], raw[i], valid);
      FilterMapSnoc(raw[..i], raw[i], Rejecting(valid, note));
      var norm := valid(raw[i]);
      if norm.None? {
        dropped := dropped + [note(raw[i])];
        continue;
      }
      kept := kept + [norm.value];
    }
    assert raw[..|raw|] == raw;
  }

  method TrimAliases(raw: seq<string>) returns (kept: seq<string>)
    ensures kept == FilterMap(raw, ValidAlias)
  {
    kept := [];
    for i := 0 to |raw|
      invariant kept == FilterMap(raw[..i], ValidAlias)
    {
      assert raw[..i + 1] == raw[..i] + [raw[i]];
      FilterMapSnoc(raw[..i], raw[i], ValidAlias);
      var t := TrimSpace(raw[i]);
      if t != "" {
        kept := kept + [t];
      }
    }
    assert raw[..|raw|] == raw;
  }

  function ParsedEntity(reply: ModelReply): Entity {
    Entity(
      TrimSpace(reply.canonicalName),
      FilterMap(reply.domains, NormalizeDomain),
      FilterMap(reply.cpes, NormalizeCpe),
      FilterMap(reply.packages, ValidPackage),
      FilterMap(reply.aliases, ValidAlias))
  }

  function ParsedNotes(reply: ModelReply): seq<Note> {
    FilterMap(reply.domains, Rejecting(NormalizeDomain, BadDomain)) +
    FilterMap(reply.cpes, Rejecting(NormalizeCpe, BadCpe)) +
    FilterMap(reply.cpeVendors, Rejecting(NormalizeCpeVendor, BadVendor)) +
    FilterMap(reply.packages, Rejecting(ValidPackage, BadPackage))
  }

  function ParsedVendors(reply: ModelReply): seq<string> {
    FirstByKey(FilterMap(reply.cpeVendors, NormalizeCpeVendor), Itself)
  }

  /** The whole reply, validated; None when it names no company. */
  function Parsed(reply: ModelReply): Option<Resolution> {
    if Blank(reply.canonicalName) then None
    else Some(Resolution(ParsedEntity(reply), ParsedNotes(reply), ParsedVendors(reply), Unset))
  }

  method ParseResolution(reply: ModelReply) returns (res: Option<Resolution>)
    ensures res == Parsed(reply)
  {
    var name := TrimSpace(reply.canonicalName);
    if name == "" {
      return None;
    }
    var domains, badDomains := Validate(reply.domains, NormalizeDomain, BadDomain);
    var cpes, badCpes := Validate(reply.cpes, NormalizeCpe, BadCpe);
    var vendors, badVendors := Validate(reply.cpeVendors, NormalizeCpeVendor, BadVendor);
    vendors := KeepFirst(vendors, Itself);
    var packages, badPackages := Validate(reply.packages, ValidPackage, BadPackage);
    var aliases := TrimAliases(reply.aliases);
    var dropped := badDomains + badCpes + badVendors + badPackages;
    return Some(Resolution(Entity(name, domains, cpes, packages, aliases), dropped, vendors, Unset));
  }

  /** Everything a deterministic source is later keyed on has the shape that source needs. */
  ghost predicate Sound(res: Resolution) {
    && !Blank(res.entity.canonicalName)
    && (forall d <- res.entity.domains :: Hostname(d))
    && (forall c <- res.entity.cpes :: WellFormed(c))
    && (forall v <- res.cpeVendors :: VendorToken(v))
    && DistinctKeys(res.cpeVendors, Itself)
    && (forall p <- res.entity.packages :: Canonical(p.ecosystem) && !Blank(p.name))
  }

  lemma ParsedIsSound(reply: ModelReply)
    requires Parsed(reply).Some?
    ensures Sound(Parsed(reply).value)
  {
    TrimTwice(reply.canonicalName);
    DomainsSound(reply.domains);
    CpesSound(reply.cpes);
    VendorsSound(reply.cpeVendors);
    PackagesSound(reply.packages);
  }

  lemma DomainsSound(raw: seq<string>)
    ensures forall d <- FilterMap(raw, NormalizeDomain) :: Hostname(d)
  {
    FilterMapMembers(raw, NormalizeDomain);
    forall d <- FilterMap(raw, NormalizeDomain) ensures Hostname(d) {
      var i :| 0 <= i < |raw| && NormalizeDomain(raw[i]) == Some(d);
      NormalizeDomainExact(raw[i]);
    }
  }

  lemma CpesSound(raw: seq<string>)
    ensures forall c <- FilterMap(raw, NormalizeCpe) :: WellFormed(c)
  {
    FilterMapMembers(raw, NormalizeCpe);
    forall c <- FilterMap(raw, NormalizeCpe) ensures WellFormed(c) {
      var i :| 0 <= i < |raw| && NormalizeCpe(raw[i]) == Some(c);
      NormalizeCpeExact(raw[i]);
    }
  }

  lemma VendorsSound(raw: seq<string>)
    ensures forall v <- FirstByKey(FilterMap(raw, NormalizeCpeVendor), Itself) :: VendorToken(v)
    ensures DistinctKeys(FirstByKey(FilterMap(raw, NormalizeCpeVendor), Itself), Itself)
  {
    FilterMapMembers(raw, NormalizeCpeVendor);
    FirstByKeyKeys(FilterMap(raw, NormalizeCpeVendor), Itself);
    forall v <- FilterMap(raw, NormalizeCpeVendor) ensures VendorToken(v) {
      var i :| 0 <= i < |raw| && NormalizeCpeVendor(raw[i]) == Some(v);
      VendorTokenExact(raw[i]);
    }
  }

  lemma PackagesSound(raw: seq<Package>)
    ensures forall p <- FilterMap(raw, ValidPackage) :: Canonical(p.ecosystem) && !Blank(p.name)
  {
    FilterMapMembers(raw, ValidPackage);
    forall p <- FilterMap(raw, ValidPackage) ensures Canonical(p.ecosystem) && !Blank(p.name) {
      var i :| 0 <= i < |raw| && ValidPackage(raw[i]) == Some(p);
      NormalizePackageCanonical(raw[i].ecosystem, raw[i].name);
    }
  }

  /** Validation keeps or names every element, never both and never neither. */
  lemma KeptOrNoted<T, U>(raw: seq<T>, valid: T -> Option<U>, note: T -> Note, x: T)
    requires x in raw
    ensures valid(x).Some? ==> valid(x).value in FilterMap(raw, valid)
    ensures valid(x).None? ==> note(x) in FilterMap(raw, Rejecting(valid, note))
  {
    FilterMapMembers(raw, valid);
    FilterMapMembers(raw, Rejecting(valid, note));
    var i :| 0 <= i < |raw| && raw[i] == x;
  }

  /** Every identifier the model returned is in the entity or named as dropped. */
  lemma NothingDroppedSilently(reply: ModelReply)
    requires Parsed(reply).Some?
    ensures var res := Parsed(reply).value;
      && (forall d <- reply.domains ::
            NotADomain(d) in res.dropped ||
            (NormalizeDomain(d).Some? && NormalizeDomain(d).value in res.entity.domains))
      && (forall c <- reply.cpes ::
            NotACpe(c) in res.dropped || (NormalizeCpe(c).Some? && NormalizeCpe(c).value in res.entity.cpes))
      && (forall v <- reply.cpeVendors ::
            NotAVendor(v) in res.dropped ||
            (NormalizeCpeVendor(v).Some? && NormalizeCpeVendor(v).value in res.cpeVendors))
      && (forall p <- reply.packages ::
            BadPackage(p) in res.dropped || (ValidPackage(p).Some? && ValidPackage(p).value in res.entity.packages))
  {
    forall d <- reply.domains { KeptOrNoted(reply.domains, NormalizeDomain, BadDomain, d); }
    forall c <- reply.cpes { KeptOrNoted(reply.cpes, NormalizeCpe, BadCpe, c); }
    forall p <- reply.packages { KeptOrNoted(reply.packages, ValidPackage, BadPackage, p); }
    var vendors := FilterMap(reply.cpeVendors, NormalizeCpeVendor);
    forall v <- reply.cpeVendors
      ensures NormalizeCpeVendor(v).Some? ==> NormalizeCpeVendor(v).value in FirstByKey(vendors, Itself)
    {
      KeptOrNoted(reply.cpeVendors, NormalizeCpeVendor, BadVendor, v);
      if NormalizeCpeVendor(v).Some? {
        FirstByKeyCovers(vendors, Itself, NormalizeCpeVendor(v).value);
      }
    }
    forall v <- reply.cpeVendors { KeptOrNoted(reply.cpeVendors, NormalizeCpeVendor, BadVendor, v); }
  }

  // --- Exactly what is kept and what is named -------------------------------------------------

  /** The text, trimmed, lowered and freed of one final dot. */
  function Cleaned(raw: string): string {
    WithoutDot(ToLower(TrimSpace(raw)))
  }

  /**
   Every part of the entity comes from the reply: what is valid there, in its normal form and in order; and
   every note names something of the reply that is not valid.
   */
  lemma ParsedExact(reply: ModelReply)
    ensures Parsed(reply).None? <==> Blank(reply.canonicalName)
    ensures Parsed(reply).Some? ==>
      var res := Parsed(reply).value;
      && res.entity.canonicalName == TrimSpace(reply.canonicalName) && res.cpeOrigin == Unset
      && Keeps(res.entity.domains, reply.domains, NormalizeDomain)
      && Keeps(res.entity.cpes, reply.cpes, NormalizeCpe)
      && Keeps(res.entity.packages, reply.packages, ValidPackage)
      && Keeps(res.entity.aliases, reply.aliases, ValidAlias)
      && (forall a :: a in res.entity.aliases <==>
            exists raw :: raw in reply.aliases && !Blank(raw) && TrimSpace(raw) == a)
      && (forall v :: v in res.cpeVendors <==>
            exists raw :: raw in reply.cpeVendors && NormalizeCpeVendor(raw) == Some(v))
      && (forall n :: n in res.dropped <==> Named(reply, n))
  {
    if !Blank(reply.canonicalName) {
      KeepsExactly(reply.domains, NormalizeDomain);
      KeepsExactly(reply.cpes, NormalizeCpe);
      KeepsExactly(reply.packages, ValidPackage);
      KeepsExactly(reply.aliases, ValidAlias);
      NotesExact(reply);
      VendorsExact(reply.cpeVendors);
      AliasesExact(reply.aliases);
      hide NormalizeDomain, NormalizeCpe, ValidPackage, ValidAlias, NormalizeCpeVendor, Keeps, Named, ParsedNotes;
    }
  }

  /** `kept` is what `valid` makes of the elements of `raw` it accepts, in their order. */
  ghost predicate Keeps<T(!new), U(!new)>(kept: seq<U>, raw: seq<T>, valid: T -> Option<U>) {
    exists at: seq<int> ::
      KeptAt(at, raw, valid) && |at| == |kept| && forall i :: 0 <= i < |at| ==> valid(raw[at[i]]) == Some(kept[i])
  }

  lemma KeepsExactly<T(!new), U(!new)>(raw: seq<T>, valid: T -> Option<U>)
    ensures Keeps(FilterMap(raw, valid), raw, valid)
  {
    var at := FilterMapExact(raw, valid);
  }

  /** The note names something of the reply, and that is not valid. */
  ghost predicate Named(reply: ModelReply, n: Note) {
    match n
    case NotADomain(raw) => raw in reply.domains && !Hostname(Cleaned(raw))
    case NotACpe(raw) => raw in reply.cpes && !WellFormed(ToLower(TrimSpace(raw)))
    case NotAVendor(raw) => raw in reply.cpeVendors && !VendorToken(ToLower(TrimSpace(raw)))
    case NotAPackage(ecosystem, raw) =>
      Package(ecosystem, raw) in reply.packages && !Acceptable(ecosystem, raw)
    case _ => false
  }

  lemma RejectedMembers<T(!new), U>(raw: seq<T>, valid: T -> Option<U>, note: T -> Note, n: Note)
    ensures n in FilterMap(raw, Rejecting(valid, note)) <==>
            exists x :: x in raw && valid(x).None? && note(x) == n
  {
    FilterMapMembers(raw, Rejecting(valid, note));
    if x :| x in raw && valid(x).None? && note(x) == n {
      var i :| 0 <= i < |raw| && raw[i] == x;
      assert Rejecting(valid, note)(raw[i]) == Some(n);
    }
    if n in FilterMap(raw, Rejecting(valid, note)) {
      var i :| 0 <= i < |raw| && Rejecting(valid, note)(raw[i]) == Some(n);
      assert raw[i] in raw;
    }
  }

  lemma NotesExact(reply: ModelReply)
    ensures forall n :: n in ParsedNotes(reply) <==> Named(reply, n)
  {
    forall n ensures n in ParsedNotes(reply) <==> Named(reply, n) {
      NoteExact(reply, n);
    }
  }

  lemma NoteExact(reply: ModelReply, n: Note)
    ensures n in ParsedNotes(reply) <==> Named(reply, n)
  {
    DomainNote(reply.domains, n);
    CpeNote(reply.cpes, n);
    VendorNote(reply.cpeVendors, n);
    PackageNote(reply.packages, n);
    hide Hostname, WellFormed, VendorToken, FilterMap, Cleaned, ToLower, TrimSpace, Blank;
  }

  lemma DomainNote(raw: seq<string>, n: Note)
    ensures n in FilterMap(raw, Rejecting(NormalizeDomain, BadDomain)) <==>
            n.NotADomain? && n.raw in raw && !Hostname(Cleaned(n.raw))
  {
    RejectedMembers(raw, NormalizeDomain, BadDomain, n);
    if n.NotADomain? {
      NormalizeDomainExact(n.raw);
      assert BadDomain(n.raw) == n;
    }
    hide NormalizeDomain, Hostname, FilterMap, Cleaned;
  }

  lemma CpeNote(raw: seq<string>, n: Note)
    ensures n in FilterMap(raw, Rejecting(NormalizeCpe, BadCpe)) <==>
            n.NotACpe? && n.raw in raw && !WellFormed(ToLower(TrimSpace(n.raw)))
  {
    RejectedMembers(raw, NormalizeCpe, BadCpe, n);
    if n.NotACpe? {
      NormalizeCpeExact(n.raw);
      assert BadCpe(n.raw) == n;
    }
    hide NormalizeCpe, WellFormed, FilterMap;
  }

  lemma VendorNote(raw: seq<string>, n: Note)
    ensures n in FilterMap(raw, Rejecting(NormalizeCpeVendor, BadVendor)) <==>
            n.NotAVendor? && n.raw in raw && !VendorToken(ToLower(TrimSpace(n.raw)))
  {
    RejectedMembers(raw, NormalizeCpeVendor, BadVendor, n);
    if n.NotAVendor? {
      VendorTokenExact(n.raw);
      assert BadVendor(n.raw) == n;
    }
    hide NormalizeCpeVendor, VendorToken, FilterMap;
  }

  lemma PackageNote(raw: seq<Package>, n: Note)
    ensures n in FilterMap(raw, Rejecting(ValidPackage, BadPackage)) <==>
            n.NotAPackage? && Package(n.ecosystem, n.raw) in raw && !Acceptable(n.ecosystem, n.raw)
  {
    RejectedMembers(raw, ValidPackage, BadPackage, n);
    if n.NotAPackage? {
      NormalizePackageExact(n.ecosystem, n.raw);
      assert BadPackage(Package(n.ecosystem, n.raw)) == n;
    }
    hide NormalizePackage, Acceptable, FilterMap;
  }

  lemma VendorsExact(raw: seq<string>)
    ensures forall v :: v in FirstByKey(FilterMap(raw, NormalizeCpeVendor), Itself) <==>
              exists r :: r in raw && NormalizeCpeVendor(r) == Some(v)
  {
    var all := FilterMap(raw, NormalizeCpeVendor);
    FilterMapMembers(raw, NormalizeCpeVendor);
    FirstByKeyKeys(all, Itself);
    hide NormalizeCpeVendor;
    forall v ensures v in FirstByKey(all, Itself) <==> exists r :: r in raw && NormalizeCpeVendor(r) == Some(v) {
      if v in FirstByKey(all, Itself) {
        var i :| 0 <= i < |raw| && NormalizeCpeVendor(raw[i]) == Some(v);
        assert raw[i] in raw;
      }
      if r :| r in raw && NormalizeCpeVendor(r) == Some(v) {
        var i :| 0 <= i < |raw| && raw[i] == r;
        FirstByKeyCovers(all, Itself, v);
        var j :| 0 <= j < |FirstByKey(all, Itself)| && Itself(FirstByKey(all, Itself)[j]) == Itself(v);
      }
    }
  }

  lemma AliasesExact(raw: seq<string>)
    ensures forall a :: a in FilterMap(raw, ValidAlias) <==> exists r :: r in raw && !Blank(r) && TrimSpace(r) == a
  {
    FilterMapMembers(raw, ValidAlias);
    forall a ensures a in FilterMap(raw, ValidAlias) <==> exists r :: r in raw && !Blank(r) && TrimSpace(r) == a {
      if r :| r in raw && !Blank(r) && TrimSpace(r) == a {
        var i :| 0 <= i < |raw| && raw[i] == r;
        assert ValidAlias(raw[i]) == Some(a);
      }
      if a in FilterMap(raw, ValidAlias) {
        var i :| 0 <= i < |raw| && ValidAlias(raw[i]) == Some(a);
        assert raw[i] in raw;
      }
    }
  }
}
