/**
 The fingerprint stored with a cached section: a hash of the identifiers its source read. The hash
 is a parameter, assumed only to be injective and never empty.
 */
module Fingerprint {
  import opened Text
  import opened Sequences
  import opened Domain
  import opened Vendor

  const BITSIGHT := "bitsight"
  const NVD := "nvd"
  const OSV := "osv"
  const FEDRAMP := "fedramp"
  const CAAG := "caag"
  const RESEARCH := "llm_research"

  // --- The preimage -------------------------------------------------------------------------

  function Digit(d: nat): char
    requires d < 10
  {
    ('0' as int + d) as char
  }

  function Decimal(n: nat): (text: string)
    ensures text != []
  {
    if n < 10 then [Digit(n)] else Decimal(n / 10) + [Digit(n % 10)]
  }

  predicate Digits(s: string) {
    forall c <- s :: '0' <= c <= '9'
  }

  function Value(s: string): int {
    if s == [] then 0 else 10 * Value(s[..|s| - 1]) + (s[|s| - 1] as int - '0' as int)
  }

  lemma {:induction false} DecimalValue(n: nat)
    ensures Digits(Decimal(n))
    ensures Value(Decimal(n)) == n
  {
    if n >= 10 {
      DecimalValue(n / 10);
      assert Decimal(n)[..|Decimal(n)| - 1] == Decimal(n / 10);
    } else {
      assert Value([Digit(n)][..0]) == 0;
    }
  }

  function Field(input: string): string {
    Decimal(|input|) + ":" + input
  }

  /** What is hashed: every input, prefixed by its length. */
  function Preimage(inputs: seq<string>): string {
    if inputs == [] then [] else Field(inputs[0]) + Preimage(inputs[1..])
  }

  function UntilColon(s: string): (k: nat)
    ensures k <= |s| && ':' !in s[..k] && (k < |s| ==> s[k] == ':')
  {
    if s == [] || s[0] == ':' then 0 else
    var k := 1 + UntilColon(s[1..]);
    assert s[..k] == [s[0]] + s[1..][..k - 1];
    k
  }

  /** Takes the first length-prefixed field off `s`. */
  function Frame(s: string): (framed: Option<(string, string)>)
    ensures framed.Some? ==> |framed.value.1| < |s|
  {
    var k := UntilColon(s);
    if k == |s| || !Digits(s[..k]) || Value(s[..k]) < 0 || k + 1 + Value(s[..k]) > |s| then None
    else Some((s[k + 1..k + 1 + Value(s[..k])], s[k + 1 + Value(s[..k])..]))
  }

  /** Reads a preimage back; None when it is not one. */
  function Parse(s: string): Option<seq<string>>
    decreases |s|
  {
    if s == [] then Some([]) else
    match Frame(s)
    case None => None
    case Some((first, rest)) =>
      match Parse(rest)
      case None => None
      case Some(inputs) => Some([first] + inputs)
  }

  lemma {:induction false} UntilColonAt(digits: string, rest: string)
    requires ':' !in digits
    ensures UntilColon(digits + ":" + rest) == |digits|
  {
    var s := digits + ":" + rest;
    if digits != [] {
      assert s[1..] == digits[1..] + ":" + rest;
      UntilColonAt(digits[1..], rest);
    }
  }

  lemma FrameField(input: string, rest: string)
    ensures Frame(Field(input) + rest) == Some((input, rest))
  {
    var digits := Decimal(|input|);
    var s := Field(input) + rest;
    var k, n := |digits|, |input|;
    DecimalValue(n);
    assert s == digits + ":" + (input + rest);
    UntilColonAt(digits, input + rest);
    assert s[..k] == digits && s[k + 1..k + 1 + n] == input && s[k + 1 + n..] == rest;
  }

  /** A preimage determines the list it was written from. */
  lemma {:induction false} ParsePreimage(inputs: seq<string>)
    ensures Parse(Preimage(inputs)) == Some(inputs)
  {
    if inputs != [] {
      ParsePreimage(inputs[1..]);
      FrameField(inputs[0], Preimage(inputs[1..]));
      assert [inputs[0]] + inputs[1..] == inputs;
    }
  }

  lemma {:induction false} PreimageSnoc(inputs: seq<string>, last: string)
    ensures Preimage(inputs + [last]) == Preimage(inputs) + Field(last)
  {
    if inputs == [] {
      assert Preimage([last][1..]) == [];
    } else {
      PreimageSnoc(inputs[1..], last);
      assert (inputs + [last])[1..] == inputs[1..] + [last];
    }
  }

  // --- The identifiers each source reads ----------------------------------------------------

  function PackageInputs(packages: seq<Package>): seq<string> {
    if packages == [] then [] else
    PackageInputs(packages[..|packages| - 1]) + [packages[|packages| - 1].Text()]
  }

  method ListPackages(packages: seq<Package>) returns (out: seq<string>)
    ensures out == PackageInputs(packages)
  {
    out := [];
    for i := 0 to |packages|
      invariant out == PackageInputs(packages[..i])
    {
      assert packages[..i + 1][..i] == packages[..i];
      out := out + [packages[i].Text()];
    }
    assert packages[..|packages|] == packages;
  }

  /** The registered input list of a source, or None for a source that is never cached. */
  function Inputs(source: string, q: Query, ent: Entity): Option<seq<string>> {
    if source == BITSIGHT then Some(ent.domains)
    else if source == NVD then Some(ent.cpes)
    else if source == OSV then Some(PackageInputs(ent.packages))
    else if source == FEDRAMP || source == CAAG || source == RESEARCH then Some(VendorNames(q, ent))
    else None
  }

  predicate CacheableSource(source: string) {
    source in {BITSIGHT, NVD, OSV, FEDRAMP, CAAG, RESEARCH}
  }

  ghost predicate IdealHash(hash: string -> string) {
    && (forall a, b :: hash(a) == hash(b) ==> a == b)
    && (forall a :: hash(a) != "")
  }

  function SectionInputs(hash: string -> string, source: string, q: Query, ent: Entity): string {
    match Inputs(source, q, ent)
    case None => ""
    case Some(inputs) => hash(Preimage(inputs))
  }

  /** SectionInputs as written: the hasher is fed one field at a time. */
  method HashInputs(hash: string -> string, inputs: seq<string>) returns (sum: string)
    ensures sum == hash(Preimage(inputs))
  {
    var written := "";
    for i := 0 to |inputs|
      invariant written == Preimage(inputs[..i])
    {
      assert inputs[..i + 1] == inputs[..i] + [inputs[i]];
      PreimageSnoc(inputs[..i], inputs[i]);
      written := written + Field(inputs[i]);
    }
    assert inputs[..|inputs|] == inputs;
    sum := hash(written);
  }

  /** Two fingerprints agree exactly when the identifier lists do; an uncached source has none. */
  lemma FingerprintExact(hash: string -> string, source: string, q1: Query, e1: Entity, q2: Query, e2: Entity)
    requires IdealHash(hash)
    ensures SectionInputs(hash, source, q1, e1) == "" <==> !CacheableSource(source)
    ensures SectionInputs(hash, source, q1, e1) == SectionInputs(hash, source, q2, e2) <==>
            Inputs(source, q1, e1) == Inputs(source, q2, e2)
  {
    if CacheableSource(source) {
      ParsePreimage(Inputs(source, q1, e1).value);
      ParsePreimage(Inputs(source, q2, e2).value);
    }
  }

  // --- Packages -----------------------------------------------------------------------------

  const ECOSYSTEMS: map<string, string> := map[
    "npm" := "npm", "pypi" := "PyPI", "pip" := "PyPI", "python" := "PyPI", "go" := "Go", "golang" := "Go",
    "maven" := "Maven", "crates.io" := "crates.io", "crates" := "crates.io", "cargo" := "crates.io",
    "rust" := "crates.io", "rubygems" := "RubyGems", "gem" := "RubyGems", "ruby" := "RubyGems",
    "nuget" := "NuGet", "packagist" := "Packagist", "composer" := "Packagist", "hex" := "Hex", "pub" := "Pub",
    "cran" := "CRAN", "conancenter" := "ConanCenter", "conan" := "ConanCenter", "hackage" := "Hackage",
    "opam" := "opam", "swifturl" := "SwiftURL", "swift" := "SwiftURL", "vcpkg" := "vcpkg",
    "github actions" := "GitHub Actions"]

  /** OSV's own spelling of one of the registries the program accepts. */
  predicate Canonical(ecosystem: string) {
    ecosystem in {"npm", "PyPI", "Go", "Maven", "crates.io", "RubyGems", "NuGet", "Packagist", "Hex", "Pub",
                  "CRAN", "ConanCenter", "Hackage", "opam", "SwiftURL", "vcpkg", "GitHub Actions"}
  }

  function NormalizePackage(ecosystem: string, name: string): Option<Package> {
    var key := ToLower(TrimSpace(ecosystem));
    if Blank(name) || key !in ECOSYSTEMS then None
    else Some(Package(ECOSYSTEMS[key], TrimSpace(name)))
  }

  /** The spellings of each registry, in lower case. */
  function SpellingsOf(canonical: string): set<string> {
    Nicknamed(canonical) + Plain(canonical)
  }

  function Nicknamed(canonical: string): set<string> {
    match canonical
    case "PyPI" => {"pypi", "pip", "python"}
    case "Go" => {"go", "golang"}
    case "crates.io" => {"crates.io", "crates", "cargo", "rust"}
    case "RubyGems" => {"rubygems", "gem", "ruby"}
    case "Packagist" => {"packagist", "composer"}
    case "ConanCenter" => {"conancenter", "conan"}
    case "SwiftURL" => {"swifturl", "swift"}
    case _ => {}
  }

  function Plain(canonical: string): set<string> {
    match canonical
    case "npm" => {"npm"}
    case "Maven" => {"maven"}
    case "NuGet" => {"nuget"}
    case "Hex" => {"hex"}
    case "Pub" => {"pub"}
    case "CRAN" => {"cran"}
    case "Hackage" => {"hackage"}
    case "opam" => {"opam"}
    case "vcpkg" => {"vcpkg"}
    case "GitHub Actions" => {"github actions"}
    case _ => {}
  }

  /** The package has a name, and its registry is one of those accepted, however it is spelled. */
  ghost predicate Acceptable(ecosystem: string, name: string) {
    !Blank(name) && exists c :: Canonical(c) && ToLower(TrimSpace(ecosystem)) in SpellingsOf(c)
  }

  lemma EcosystemSpelled(key: string)
    requires key in ECOSYSTEMS
    ensures key in SpellingsOf(ECOSYSTEMS[key])
  {
    hide Canonical;
  }

  lemma NicknameAccepted(key: string, canonical: string)
    requires key in Nicknamed(canonical)
    ensures key in ECOSYSTEMS && ECOSYSTEMS[key] == canonical
  {
    hide Canonical, Plain;
  }

  lemma PlainAccepted(key: string, canonical: string)
    requires key in Plain(canonical)
    ensures key in ECOSYSTEMS && ECOSYSTEMS[key] == canonical
  {
    hide Canonical, Nicknamed;
  }

  lemma EcosystemsExact(key: string, canonical: string)
    ensures Canonical(canonical) && key in SpellingsOf(canonical) <==> key in ECOSYSTEMS && ECOSYSTEMS[key] == canonical
  {
    if key in ECOSYSTEMS {
      EcosystemSpelled(key);
      EcosystemsCanonical(key);
    }
    if key in SpellingsOf(canonical) {
      if key in Nicknamed(canonical) {
        NicknameAccepted(key, canonical);
      } else {
        PlainAccepted(key, canonical);
      }
    }
    hide Nicknamed, Plain, Canonical;
  }

  /** A package is accepted exactly when it is acceptable, as the registry one of whose spellings it used. */
  lemma NormalizePackageExact(ecosystem: string, name: string)
    ensures NormalizePackage(ecosystem, name).Some? <==> Acceptable(ecosystem, name)
    ensures NormalizePackage(ecosystem, name).Some? ==>
      var p := NormalizePackage(ecosystem, name).value;
      && p.name == TrimSpace(name) && Canonical(p.ecosystem)
      && ToLower(TrimSpace(ecosystem)) in SpellingsOf(p.ecosystem)
  {
    var key := ToLower(TrimSpace(ecosystem));
    if key in ECOSYSTEMS {
      EcosystemsExact(key, ECOSYSTEMS[key]);
    }
    if c :| Canonical(c) && key in SpellingsOf(c) {
      EcosystemsExact(key, c);
    }
  }

  lemma EcosystemsCanonical(key: string)
    requires key in ECOSYSTEMS
    ensures Canonical(ECOSYSTEMS[key])
  {}

  /** Every package that passes validation has an ecosystem OSV spells that way and a non-blank name. */
  lemma NormalizePackageCanonical(ecosystem: string, name: string)
    requires NormalizePackage(ecosystem, name).Some?
    ensures var p := NormalizePackage(ecosystem, name).value; Canonical(p.ecosystem) && !Blank(p.name)
  {
    EcosystemsCanonical(ToLower(TrimSpace(ecosystem)));
    TrimTwice(name);
  }

  lemma CanonicalHasNoColon(ecosystem: string)
    requires Canonical(ecosystem)
    ensures ':' !in ecosystem
  {}

  /** With a colon-free ecosystem the first colon is the separator, whatever the name holds. */
  lemma PackageTextInjective(p: Package, q: Package)
    requires ':' !in p.ecosystem && ':' !in q.ecosystem
    requires p.Text() == q.Text()
    ensures p == q
  {
    UntilColonAt(p.ecosystem, p.name);
    UntilColonAt(q.ecosystem, q.name);
    assert p.Text()[..|p.ecosystem|] == p.ecosystem && q.Text()[..|q.ecosystem|] == q.ecosystem;
    assert p.Text()[|p.ecosystem| + 1..] == p.name && q.Text()[|q.ecosystem| + 1..] == q.name;
  }

  lemma {:induction false} PackageInputsInjective(a: seq<Package>, b: seq<Package>)
    requires forall p <- a :: Canonical(p.ecosystem)
    requires forall p <- b :: Canonical(p.ecosystem)
    requires PackageInputs(a) == PackageInputs(b)
    ensures a == b
  {
    if a == [] || b == [] {
      assert a == [] && b == [];
    } else {
      var p, q := a[|a| - 1], b[|b| - 1];
      var x, y := PackageInputs(a[..|a| - 1]), PackageInputs(b[..|b| - 1]);
      assert (x + [p.Text()])[..|x + [p.Text()]| - 1] == x && (y + [q.Text()])[..|y + [q.Text()]| - 1] == y;
      assert (x + [p.Text()])[|x|] == p.Text() && (y + [q.Text()])[|y|] == q.Text();
      CanonicalHasNoColon(p.ecosystem);
      CanonicalHasNoColon(q.ecosystem);
      PackageTextInjective(p, q);
      PackageInputsInjective(a[..|a| - 1], b[..|b| - 1]);
      assert a == a[..|a| - 1] + [p] && b == b[..|b| - 1] + [q];
    }
  }

  /** The colon-free ecosystem is what makes the text a key: without it two packages share one. */
  lemma PackageTextNeedsCanonical()
    ensures Package("npm:a", "b").Text() == Package("npm", "a:b").Text()
    ensures Package("npm:a", "b") != Package("npm", "a:b")
  {
    assert "npm:a" + ":" + "b" == "npm:a:b";
    assert "npm" + ":" + "a:b" == "npm:a:b";
  }

  /** The identifiers of each deterministic source are the part of the entity it is keyed on, and nothing else. */
  lemma InputsExact(q1: Query, e1: Entity, q2: Query, e2: Entity)
    ensures Inputs(BITSIGHT, q1, e1) == Inputs(BITSIGHT, q2, e2) <==> e1.domains == e2.domains
    ensures Inputs(NVD, q1, e1) == Inputs(NVD, q2, e2) <==> e1.cpes == e2.cpes
    ensures Resolved(e1) && Resolved(e2) ==>
              (Inputs(OSV, q1, e1) == Inputs(OSV, q2, e2) <==> e1.packages == e2.packages)
    ensures forall source | source in {FEDRAMP, CAAG, RESEARCH} ::
              Inputs(source, q1, e1) == Inputs(source, q2, e2) <==> VendorNames(q1, e1) == VendorNames(q2, e2)
  {
    if Resolved(e1) && Resolved(e2) && Inputs(OSV, q1, e1) == Inputs(OSV, q2, e2) {
      PackageInputsInjective(e1.packages, e2.packages);
    }
    hide VendorNames, PackageInputs;
  }

  /** Packages as resolution leaves them. */
  ghost predicate Resolved(ent: Entity) {
    forall p <- ent.packages :: Canonical(p.ecosystem)
  }

  // --- Research is different ------------------------------------------------------------------

  /** The prompt of the research source prints the names as resolved, unfolded. */
  function ResearchPrompt(q: Query, ent: Entity): string {
    "Company: " + q.company + "\n" +
    (if Blank(q.service) then "" else "Service: " + q.service + "\n") +
    (if ent.canonicalName == "" || EqualFold(ent.canonicalName, q.company) then ""
     else "Also known as: " + ent.canonicalName + "\n") +
    (if ent.aliases == [] then "" else "Other names: " + JoinComma(ent.aliases) + "\n")
  }

  /** The resolved names alone, without the company as asked: the first spelling of each. */
  function Resolvents(ent: Entity): seq<string> {
    FirstByKey(FilterMap([ent.canonicalName] + ent.aliases, Keyed), NormalizeVendorName)
  }

  /** One more alias that the fingerprint does not see. */
  predicate Invisible(q: Query, ent: Entity, alias: string) {
    var key := NormalizeVendorName(alias);
    || key == ""
    || HasKey(Resolvents(ent), NormalizeVendorName, key)
    || (key == NormalizeVendorName(q.company) && TrimSpace(alias) == TrimSpace(q.company))
  }

  /** One more name, unless it means nothing or one of those already there. */
  function Extended(kept: seq<string>, name: string): seq<string> {
    var key := NormalizeVendorName(name);
    if key == "" || HasKey(kept, NormalizeVendorName, key) then kept else kept + [name]
  }

  lemma ExtendedOneMore(names: seq<string>, name: string)
    ensures FirstByKey(FilterMap(names + [name], Keyed), NormalizeVendorName) ==
            Extended(FirstByKey(FilterMap(names, Keyed), NormalizeVendorName), name)
  {
    var kept := FilterMap(names, Keyed);
    FilterMapSnoc(names, name, Keyed);
    hide NormalizeVendorName;
    if NormalizeVendorName(name) == "" {
      assert kept + [] == kept;
    } else {
      FirstByKeySnoc(kept, name, NormalizeVendorName);
    }
  }

  lemma SpellingsExtend(q: Query, ent: Entity, alias: string)
    ensures Spellings(q, ent) == Extended(Resolvents(ent), q.company)
    ensures Spellings(q, ent.(aliases := ent.aliases + [alias])) ==
            Extended(Extended(Resolvents(ent), alias), q.company)
  {
    var names := [ent.canonicalName] + ent.aliases;
    assert AllNames(q, ent.(aliases := ent.aliases + [alias])) == names + [alias] + [q.company];
    ExtendedOneMore(names, q.company);
    ExtendedOneMore(names, alias);
    ExtendedOneMore(names + [alias], q.company);
  }

  lemma TrimAllSnoc(names: seq<string>, name: string)
    ensures TrimAll(names + [name]) == TrimAll(names) + [TrimSpace(name)]
  {}

  lemma ExtensionsAgree(kept: seq<string>, alias: string, company: string)
    ensures TrimAll(Extended(Extended(kept, alias), company)) == TrimAll(Extended(kept, company)) <==>
      var key := NormalizeVendorName(alias);
      || key == "" || HasKey(kept, NormalizeVendorName, key)
      || (key == NormalizeVendorName(company) && TrimSpace(alias) == TrimSpace(company))
  {
    hide NormalizeVendorName, TrimSpace;
    var key := NormalizeVendorName(alias);
    if key != "" && !HasKey(kept, NormalizeVendorName, key) {
      SnocHasKey(kept, alias, NormalizeVendorName, NormalizeVendorName(company));
      TrimAllSnoc(kept, alias);
      TrimAllSnoc(kept, company);
      var a, b := TrimAll(Extended(Extended(kept, alias), company)), TrimAll(Extended(kept, company));
      assert key == NormalizeVendorName(company) ==>
        a == TrimAll(kept) + [TrimSpace(alias)] && b == TrimAll(kept) + [TrimSpace(company)];
      if key == NormalizeVendorName(company) {
        assert a[|kept|] == TrimSpace(alias) && b[|kept|] == TrimSpace(company);
      } else {
        assert |a| == |b| + 1;
      }
    }
  }

  lemma PromptGrows(q: Query, ent: Entity, alias: string)
    ensures |ResearchPrompt(q, ent.(aliases := ent.aliases + [alias]))| > |ResearchPrompt(q, ent)|
  {
    assert (ent.aliases + [alias])[..|ent.aliases|] == ent.aliases;
  }

  /**
   Research is the exception. One more alias always changes what the model is asked; the fingerprint stays
   as it was exactly when the alias means nothing, means a name already there, or is the company as typed.
   */
  lemma ResearchAsksMoreThanItsInputs(q: Query, ent: Entity, alias: string)
    ensures var more := ent.(aliases := ent.aliases + [alias]);
      && ResearchPrompt(q, more) != ResearchPrompt(q, ent)
      && (Inputs(RESEARCH, q, more) == Inputs(RESEARCH, q, ent) <==> Invisible(q, ent, alias))
  {
    PromptGrows(q, ent, alias);
    SpellingsExtend(q, ent, alias);
    ExtensionsAgree(Resolvents(ent), alias, q.company);
    hide NormalizeVendorName, ResearchPrompt, Spellings, Resolvents, TrimAll;
  }

  /** So for every query and entity there is an alias that escapes it: the canonical name again. */
  lemma RespellingEscapes(q: Query, ent: Entity, alias: string)
    requires NormalizeVendorName(alias) == NormalizeVendorName(ent.canonicalName)
    ensures var more := ent.(aliases := ent.aliases + [alias]);
      Inputs(RESEARCH, q, more) == Inputs(RESEARCH, q, ent) && ResearchPrompt(q, more) != ResearchPrompt(q, ent)
  {
    ResearchAsksMoreThanItsInputs(q, ent, alias);
    var names := [ent.canonicalName] + ent.aliases;
    if NormalizeVendorName(alias) != "" {
      KeyedMember(names, names[0]);
      FirstByKeyCovers(FilterMap(names, Keyed), NormalizeVendorName, names[0]);
    }
  }
}
