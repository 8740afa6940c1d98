/** What grounding guarantees: no CPE from outside the dictionary, and a note for every one discarded. */
module Ceiling {
  import opened Text
  import opened Sequences
  import opened Domain
  import opened Cpe
  import opened Service
  import Nvd
  import opened Dictionary
  import opened Proposal
  import opened Grounding

  /** What validation leaves of the model's proposal. */
  ghost predicate Proposed(res: Resolution) {
    && (forall c <- res.entity.cpes :: WellFormed(c))
    && (forall v <- res.cpeVendors :: VendorToken(v))
    && (forall n <- res.dropped :: FromValidation(n))
  }

  predicate FromValidation(n: Note) {
    n.NotADomain? || n.NotACpe? || n.NotAVendor? || n.NotAPackage?
  }

  lemma RejectionKinds<T(!new), U>(raw: seq<T>, valid: T -> Option<U>, note: T -> Note)
    requires forall x :: FromValidation(note(x))
    ensures forall n <- FilterMap(raw, Rejecting(valid, note)) :: FromValidation(n)
  {
    FilterMapMembers(raw, Rejecting(valid, note));
  }

  lemma ParsedNoteKinds(reply: ModelReply)
    ensures forall n <- ParsedNotes(reply) :: FromValidation(n)
  {
    RejectionKinds(reply.domains, NormalizeDomain, BadDomain);
    RejectionKinds(reply.cpes, NormalizeCpe, BadCpe);
    RejectionKinds(reply.cpeVendors, NormalizeCpeVendor, BadVendor);
    RejectionKinds(reply.packages, ValidPackage, BadPackage);
  }

  lemma ParsedIsProposed(reply: ModelReply)
    requires Parsed(reply).Some?
    ensures Proposed(Parsed(reply).value)
  {
    ParsedIsSound(reply);
    ParsedNoteKinds(reply);
  }

  // --- Vendor prefixes and the CPEs built on them -----------------------------------------------

  /** `cpe:2.3:<part>:<vendor>`, with a vendor that names one. */
  predicate VendorPrefix(v: string) {
    var parts := Split(v, ':');
    && |parts| == 4
    && parts[0] == "cpe" && parts[1] == "2.3"
    && (parts[2] == "a" || parts[2] == "o" || parts[2] == "h")
    && Concrete(parts[3])
    && ToLower(v) == v
  }

  lemma SplitFour(a: string, b: string, c: string, d: string, sep: char)
    requires sep !in a && sep !in b && sep !in c && sep !in d
    ensures Split(a + [sep] + b + [sep] + c + [sep] + d, sep) == [a, b, c, d]
  {
    SplitOfFree(a, sep);
    SplitOfFree(b, sep);
    SplitOfFree(c, sep);
    SplitOfFree(d, sep);
    SplitAppend(a, b, sep);
    SplitAppend(a + [sep] + b, c, sep);
    SplitAppend(a + [sep] + b + [sep] + c, d, sep);
  }

  lemma ApplicationIsPrefix(token: string)
    requires VendorToken(token)
    ensures VendorPrefix("cpe:2.3:a:" + token)
  {
    SplitFour("cpe", "2.3", "a", token, ':');
    assert "cpe:2.3:a:" == "cpe" + [':'] + "2.3" + [':'] + "a" + [':'];
    LowerConcat("cpe:2.3:a:", token);
    assert ToLower("cpe:2.3:a:") == "cpe:2.3:a:";
  }

  lemma VendorOfWellFormed(c: string)
    requires WellFormed(c)
    ensures Split(VendorMatchString(c), ':') == Split(c, ':')[..4]
    ensures ToLower(VendorMatchString(c)) == VendorMatchString(c)
  {
    var parts := Split(c, ':');
    var v, rest := Join(parts[..4], ':'), Join(parts[4..], ':');
    SplitJoin(parts[..4], ':');
    JoinAppend(parts[..4], parts[4..], ':');
    assert parts[..4] + parts[4..] == parts;
    JoinSplit(c, ':');
    assert c == v + ([':'] + rest);
    LowerConcat(v, [':'] + rest);
    assert c[..|v|] == v && ToLower(c)[..|v|] == ToLower(v);
  }

  lemma ImpliedIsPrefix(c: string)
    requires WellFormed(c)
    ensures VendorPrefix(VendorMatchString(c)) && VendorMatchString(c) != ""
  {
    VendorOfWellFormed(c);
    assert |Split("", ':')| == 1;
  }

  lemma FullForm(v: string, p: string)
    requires VendorPrefix(v)
    ensures ToLower(TrimSpace(v + ":" + p + StarTail())) == v + ":" + ToLower(p) + StarTail()
    ensures Trimmed(v + ":" + ToLower(p) + StarTail())
  {
    var raw := v + ":" + p + StarTail();
    StartsWithC(v);
    assert raw[0] == 'c' && raw[|raw| - 1] == '*';
    TrimOfTrimmed(raw);
    LowerConcat(v + ":" + p, StarTail());
    LowerConcat(v + ":", p);
    LowerConcat(v, ":");
    assert ToLower(":") == ":" && ToLower(StarTail()) == StarTail();
    LowerTrimmed(raw);
  }

  lemma StartsWithC(v: string)
    requires VendorPrefix(v)
    ensures v != "" && v[0] == 'c'
  {
    JoinSplit(v, ':');
  }

  lemma FullSplit(v: string, q: string)
    requires ':' !in q
    ensures Split(v + ":" + q + StarTail(), ':') == Split(v, ':') + [q] + STARS
  {
    SplitPadded(v + ":" + q);
    SplitAppend(v, q, ':');
    SplitOfFree(q, ':');
  }

  lemma ConcreteIgnoresCase(p: string)
    ensures Concrete(ToLower(p)) <==> Concrete(p)
    ensures ':' !in p ==> ':' !in ToLower(p)
  {
    if |p| == 1 {
      assert p == [p[0]] && ToLower(p) == [LowerChar(p[0])];
    }
  }

  /** Building on a vendor prefix fails exactly for a product that is empty or a wildcard. */
  lemma BuiltShape(v: string, p: string)
    requires VendorPrefix(v) && ':' !in p
    ensures BuiltUnder(v)(p).Some? <==> Concrete(p)
    ensures BuiltUnder(v)(p).Some? ==> BuiltUnder(v)(p).value == v + ":" + ToLower(p) + StarTail()
    ensures Concrete(p) ==> WellFormed(v + ":" + ToLower(p) + StarTail())
  {
    FullForm(v, p);
    ConcreteIgnoresCase(p);
    FullSplit(v, ToLower(p));
    NormalizeCpeExact(v + ":" + p + StarTail());
    LowerTwice(v + ":" + p + StarTail());
    var c := v + ":" + ToLower(p) + StarTail();
    var parts := Split(c, ':');
    assert |parts| == 13 && parts[4] == ToLower(p);
    assert parts[..4] == Split(v, ':');
    assert ToLower(c) == c by {
      LowerTwice(TrimSpace(v + ":" + p + StarTail()));
    }
  }

  lemma PartsOfBuilt(v: string, q: string)
    requires VendorPrefix(v) && ':' !in q && WellFormed(v + ":" + q + StarTail())
    ensures var c := v + ":" + q + StarTail();
      VendorMatchString(c) == v && ProductComponent(c) == q && MatchString(c) == Some(v + ":" + q)
  {
    var c := v + ":" + q + StarTail();
    FullSplit(v, q);
    var parts := Split(c, ':');
    assert parts[..4] == Split(v, ':') && parts[..5] == Split(v, ':') + [q];
    JoinSplit(v, ':');
    JoinAppend(Split(v, ':'), [q], ':');
    MatchStringOfWellFormed(c);
  }

  // --- The search -------------------------------------------------------------------------------

  lemma CandidatesArePrefixes(res: Resolution)
    requires Proposed(res)
    ensures forall v <- VendorsToTry(res) :: VendorPrefix(v)
  {
    var prefixes := Applications(res.cpeVendors) + Implied(res.entity.cpes);
    var named := FilterMap(prefixes, NonEmpty);
    FilterMapMembers(prefixes, NonEmpty);
    FirstByKeyKeys(named, Itself);
    forall v <- VendorsToTry(res) ensures VendorPrefix(v) {
      assert v in named;
      var i :| 0 <= i < |prefixes| && NonEmpty(prefixes[i]) == Some(v);
      if i < |res.cpeVendors| {
        ApplicationIsPrefix(res.cpeVendors[i]);
      } else {
        ImpliedIsPrefix(res.entity.cpes[i - |res.cpeVendors|]);
      }
    }
  }

  /** With nothing to look up there was nothing to lose. */
  lemma NoCandidatesNoCpes(res: Resolution)
    requires Proposed(res)
    ensures VendorsToTry(res) == [] ==> res.entity.cpes == []
  {
    var cpes := res.entity.cpes;
    if cpes != [] {
      var prefixes := Applications(res.cpeVendors) + Implied(cpes);
      FilterMapMembers(prefixes, NonEmpty);
      ImpliedIsPrefix(cpes[0]);
      assert prefixes[|res.cpeVendors|] == VendorMatchString(cpes[0]);
      FirstByKeyCovers(FilterMap(prefixes, NonEmpty), Itself, VendorMatchString(cpes[0]));
    }
  }

  lemma {:induction false} FoundIsCandidate(dir: Directory, candidates: seq<string>) returns (v: string)
    requires FirstRegistered(dir, candidates).Found?
    ensures v in candidates && dir(v) == Answered(FirstRegistered(dir, candidates).catalogue)
    ensures FirstRegistered(dir, candidates).catalogue.Exists()
  {
    v := candidates[0];
    if !(dir(v).Answered? && dir(v).value.Exists()) {
      v := FoundIsCandidate(dir, candidates[1..]);
    }
  }

  lemma {:induction false} UnregisteredAll(dir: Directory, candidates: seq<string>)
    requires FirstRegistered(dir, candidates).Unregistered?
    ensures forall v <- candidates :: dir(v).Answered? && !dir(v).value.Exists()
  {
    if candidates != [] {
      UnregisteredAll(dir, candidates[1..]);
      assert candidates == [candidates[0]] + candidates[1..];
    }
  }

  // --- The ceiling ------------------------------------------------------------------------------

  /** The catalogue of this CPE's own vendor lists its product. */
  ghost predicate Listed(dir: Directory, cpe: string) {
    var found := dir(VendorMatchString(cpe));
    && WellFormed(cpe)
    && found.Answered? && found.value.Exists()
    && found.value.vendor == VendorMatchString(cpe)
    && found.value.Has(ProductComponent(cpe))
  }

  lemma ConfirmedAreListed(dir: Directory, cpes: seq<string>, cat: Catalogue)
    requires dir(cat.vendor) == Answered(cat) && cat.Exists()
    requires forall c <- cpes :: WellFormed(c)
    ensures forall c <- FilterMap(cpes, ConfirmedBy(cat)) ::
              Listed(dir, c) && c in cpes && VendorMatchString(c) == cat.vendor
  {
    FilterMapMembers(cpes, ConfirmedBy(cat));
    forall c <- FilterMap(cpes, ConfirmedBy(cat))
      ensures Listed(dir, c) && c in cpes && VendorMatchString(c) == cat.vendor
    {
      var i :| 0 <= i < |cpes| && ConfirmedBy(cat)(cpes[i]) == Some(c);
    }
  }

  lemma AcceptedAreProducts(selected: seq<string>, cat: Catalogue)
    ensures forall p <- Accepted(selected, cat) :: p in cat.products
    ensures DistinctKeys(Accepted(selected, cat), ToLower)
  {
    var picks := FilterMap(selected, PickedFrom(cat));
    FilterMapMembers(selected, PickedFrom(cat));
    FirstByKeyKeys(picks, Itself);
    forall p <- Accepted(selected, cat) ensures p in cat.products && Pick(cat.products, ToLower(p)) == Some(p) {
      var i :| 0 <= i < |selected| && PickedFrom(cat)(selected[i]) == Some(p);
      PickSpells(cat.products, Token(selected[i]));
      LowerTwice(TrimSpace(selected[i]));
    }
    var accepted := Accepted(selected, cat);
    forall i, j | 0 <= i < j < |accepted| ensures ToLower(accepted[i]) != ToLower(accepted[j]) {
      assert accepted[i] in accepted && accepted[j] in accepted;
      assert Itself(accepted[i]) != Itself(accepted[j]);
    }
  }

  /** Each chosen CPE comes from one accepted product, and its product component is that product's. */
  lemma BuiltAreListed(dir: Directory, products: seq<string>, cat: Catalogue)
    requires VendorPrefix(cat.vendor) && dir(cat.vendor) == Answered(cat) && cat.Exists()
    requires forall p <- products :: p in cat.products && ':' !in p
    requires DistinctKeys(products, ToLower)
    ensures var cpes := FilterMap(products, BuiltUnder(cat.vendor));
      && (forall c <- cpes :: Listed(dir, c) && VendorMatchString(c) == cat.vendor)
      && DistinctKeys(cpes, ProductComponent)
      && (forall c <- cpes :: MatchString(c) == Some(cat.vendor + ":" + ProductComponent(c)))
  {
    var cpes := FilterMap(products, BuiltUnder(cat.vendor));
    FilterMapMembers(products, BuiltUnder(cat.vendor));
    forall p <- products
      ensures BuiltUnder(cat.vendor)(p).Some? ==>
                ProductComponent(BuiltUnder(cat.vendor)(p).value) == ToLower(p)
    {
      BuiltIsListed(dir, p, cat);
    }
    FilterMapDistinct(products, BuiltUnder(cat.vendor), ToLower, ProductComponent);
    forall c <- cpes
      ensures Listed(dir, c) && VendorMatchString(c) == cat.vendor
      ensures MatchString(c) == Some(cat.vendor + ":" + ProductComponent(c))
    {
      var i :| 0 <= i < |products| && BuiltUnder(cat.vendor)(products[i]) == Some(c);
      assert products[i] in products;
      BuiltIsListed(dir, products[i], cat);
    }
  }

  lemma BuiltIsListed(dir: Directory, p: string, cat: Catalogue)
    requires VendorPrefix(cat.vendor) && dir(cat.vendor) == Answered(cat) && cat.Exists()
    requires p in cat.products && ':' !in p
    ensures BuiltUnder(cat.vendor)(p).Some? <==> Concrete(p)
    ensures BuiltUnder(cat.vendor)(p).Some? ==>
      var c := BuiltUnder(cat.vendor)(p).value;
      Listed(dir, c) && ProductComponent(c) == ToLower(p) && VendorMatchString(c) == cat.vendor &&
      MatchString(c) == Some(cat.vendor + ":" + ProductComponent(c))
  {
    BuiltShape(cat.vendor, p);
    ConcreteIgnoresCase(p);
    LowerTwice(p);
    if Concrete(p) {
      PartsOfBuilt(cat.vendor, ToLower(p));
    }
  }

  /** CPEs with distinct products under one vendor have as many match strings as there are CPEs. */
  lemma OneMatchStringEach(cpes: seq<string>, vendor: string)
    requires DistinctKeys(cpes, ProductComponent)
    requires forall c <- cpes :: MatchString(c) == Some(vendor + ":" + ProductComponent(c))
    ensures |MatchStrings(cpes)| == |cpes|
    ensures forall i :: 0 <= i < |cpes| ==> MatchString(cpes[i]) == Some(MatchStrings(cpes)[i])
  {
    FilterMapTotal(cpes, MatchString);
    var found := FilterMap(cpes, MatchString);
    forall i, j | 0 <= i < j < |found| ensures found[i] != found[j] {
      var a, b := ProductComponent(cpes[i]), ProductComponent(cpes[j]);
      assert found[i] == (vendor + ":") + a && found[j] == (vendor + ":") + b;
      assert found[i][|vendor| + 1..] == a && found[j][|vendor| + 1..] == b;
    }
    FirstByKeyIdentity(found, Itself);
  }

  /**
   No CPE from outside: unless the dictionary could not be read, every CPE left is well formed
   and is listed in the catalogue of its own vendor. A selection is small enough, and its products
   distinct enough, that NVD's own cap never cuts it. The catalogue is the one the origin names.
   */
  lemma CatalogueCeiling(
    server: DictionaryServer, service: string, choose: Catalogue -> Reply<seq<string>>, res: Resolution)
    requires Proposed(res)
    ensures var out := Grounded(Some(Reading(server, service)), choose, res);
      && (!out.cpeOrigin.Unreachable? ==> forall c <- out.entity.cpes :: Listed(Reading(server, service), c))
      && (out.cpeOrigin.Confirmed? || out.cpeOrigin.Chosen? ==>
            forall c <- out.entity.cpes :: VendorMatchString(c) == out.cpeOrigin.vendor)
      && (out.cpeOrigin.Chosen? ==>
            |MatchStrings(out.entity.cpes)| == |out.entity.cpes| == out.cpeOrigin.count <= 8 == Nvd.DEFAULT_MAX_CPES)
  {
    var dir := Reading(server, service);
    var candidates := VendorsToTry(res);
    var search := SearchFor(dir, candidates);
    if search.Found? {
      var cat := search.catalogue;
      var v := FoundIsCandidate(dir, candidates);
      CandidatesArePrefixes(res);
      NarrowingKeepsExistence(server, v, service);
      CatalogueTokens(server, v, service);
      ConfirmedAreListed(dir, res.entity.cpes, cat);
      if choose(cat).Answered? {
        ChosenWithinCeiling(dir, choose(cat).value, cat);
      }
    }
  }

  lemma ChosenWithinCeiling(dir: Directory, selected: seq<string>, cat: Catalogue)
    requires VendorPrefix(cat.vendor) && dir(cat.vendor) == Answered(cat) && cat.Exists()
    requires forall p <- cat.products :: ':' !in p
    ensures var cpes := ChosenCpes(selected, cat);
      (forall c <- cpes :: Listed(dir, c) && VendorMatchString(c) == cat.vendor) &&
      |MatchStrings(cpes)| == |cpes| <= MAX_PRODUCTS
  {
    AcceptedAreProducts(selected, cat);
    var products := Take(Accepted(selected, cat), MAX_PRODUCTS);
    BuiltAreListed(dir, products, cat);
    OneMatchStringEach(ChosenCpes(selected, cat), cat.vendor);
    FilterMapShorter(products, BuiltUnder(cat.vendor));
  }

  /** A default-configured NVD leaves a chosen CPE unqueried only when a reply fails it, never by its own cap. */
  lemma CapNeverCuts(
    server: DictionaryServer, service: string, choose: Catalogue -> Reply<seq<string>>, res: Resolution,
    nvd: Nvd.Upstream) returns (asked: nat)
    requires Proposed(res) && nvd.maxCpes == Nvd.DEFAULT_MAX_CPES
    requires Grounded(Some(Reading(server, service)), choose, res).cpeOrigin.Chosen?
    ensures var out := Grounded(Some(Reading(server, service)), choose, res);
      var matches, section := MatchStrings(out.entity.cpes), Nvd.NvdFetch(nvd, out.entity).section;
      && asked <= |matches|
      && (section.data.NvdData? ==> section.data.nvd.unqueried == matches[asked..])
      && (asked < |matches| ==> !Nvd.Asking(nvd)(matches[asked]).Answered?)
  {
    CatalogueCeiling(server, service, choose, res);
    hide *;
    var out := Grounded(Some(Reading(server, service)), choose, res);
    asked := Nvd.SectionReports(nvd, out.entity);
    UnqueriedIsTail(nvd, out.entity, asked);
  }

  lemma UnqueriedIsTail(nvd: Nvd.Upstream, ent: Entity, asked: nat)
    requires var matches, section := MatchStrings(ent.cpes), Nvd.NvdFetch(nvd, ent).section;
      && asked <= |matches| && |matches| <= nvd.maxCpes
      && (matches != [] ==> Nvd.Stopped(Nvd.Asking(nvd), matches, nvd.maxCpes, asked, section.data.NoData?))
      && (section.data.NvdData? ==>
            |section.data.nvd.queries| == asked &&
            Nvd.QueriedCpes(section.data.nvd.queries) + section.data.nvd.unqueried == matches)
    ensures var matches, section := MatchStrings(ent.cpes), Nvd.NvdFetch(nvd, ent).section;
      && (section.data.NvdData? ==> section.data.nvd.unqueried == matches[asked..])
      && (asked < |matches| ==> !Nvd.Asking(nvd)(matches[asked]).Answered?)
  {
    hide MatchStrings, Nvd.NvdFetch, Nvd.Asking;
    var matches, section := MatchStrings(ent.cpes), Nvd.NvdFetch(nvd, ent).section;
    if section.data.NvdData? {
      var queried := Nvd.QueriedCpes(section.data.nvd.queries);
      assert matches[asked..] == (queried + section.data.nvd.unqueried)[|queried|..];
    }
  }

  // --- Nothing vanishes unnamed -----------------------------------------------------------------

  /** The proposed CPE is still there, or a note says why not. */
  ghost predicate Accounted(out: Resolution, cpe: string) {
    || cpe in out.entity.cpes
    || CpeVendorUnknown(cpe) in out.dropped
    || (exists vendor :: NotRegistered(cpe, vendor) in out.dropped)
    || (exists vendor :: ProductNotRegistered(cpe, vendor) in out.dropped)
  }

  /** On every path, what validation let through is kept or named, and no earlier note is lost. */
  lemma ProposedAccounted(dir: Option<Directory>, choose: Catalogue -> Reply<seq<string>>, res: Resolution)
    requires Proposed(res)
    ensures var out := Grounded(dir, choose, res);
      res.dropped <= out.dropped && forall c <- res.entity.cpes :: Accounted(out, c)
  {
    if dir.Some? {
      var tried := VendorsToTry(res);
      var search := SearchFor(dir.value, tried);
      if search.Found? {
        var confirmed := FilterMap(res.entity.cpes, ConfirmedBy(search.catalogue));
        if confirmed != [] {
          ConfirmingAccounts(res, search.catalogue);
        } else {
          ChoosingAccounts(res, search.catalogue, choose(search.catalogue));
        }
      } else {
        NoCandidatesNoCpes(res);
        SearchedAccounts(res, search, tried);
      }
    }
  }

  lemma SearchedAccounts(res: Resolution, search: Search, tried: seq<string>)
    requires search.NoCandidates? ==> res.entity.cpes == []
    ensures res.dropped <= Searched(res, search, tried).dropped
    ensures forall c <- res.entity.cpes :: Accounted(Searched(res, search, tried), c)
  {
    var out := Searched(res, search, tried);
    forall c <- res.entity.cpes ensures Accounted(out, c) {
      var i :| 0 <= i < |res.entity.cpes| && res.entity.cpes[i] == c;
      assert Orphans(res.entity.cpes)[i] == CpeVendorUnknown(c);
      assert search.Unregistered? ==> CpeVendorUnknown(c) in out.dropped;
    }
  }

  lemma ConfirmingAccounts(res: Resolution, cat: Catalogue)
    ensures res.dropped <= Confirming(res, cat).dropped
    ensures forall c <- res.entity.cpes :: Accounted(Confirming(res, cat), c)
  {
    var out := Confirming(res, cat);
    var cpes, confirmed := res.entity.cpes, FilterMap(res.entity.cpes, ConfirmedBy(cat));
    FilterMapMembers(cpes, LeftBehind(confirmed, cat.vendor));
    forall c <- cpes ensures Accounted(out, c) {
      var i :| 0 <= i < |cpes| && cpes[i] == c;
      if c !in confirmed {
        assert LeftBehind(confirmed, cat.vendor)(cpes[i]) == Some(NotRegistered(c, cat.vendor));
        assert NotRegistered(c, cat.vendor) in out.dropped;
      }
    }
  }

  lemma ChoosingAccounts(res: Resolution, cat: Catalogue, reply: Reply<seq<string>>)
    ensures res.dropped <= Choosing(res, cat, reply).dropped
    ensures forall c <- res.entity.cpes :: Accounted(Choosing(res, cat, reply), c)
  {
    var out := Choosing(res, cat, reply);
    NotesStay(res, cat, reply);
    hide Choosing;
    forall c <- res.entity.cpes ensures Accounted(out, c) {
      var i :| 0 <= i < |res.entity.cpes| && res.entity.cpes[i] == c;
      assert Unlisted(res.entity.cpes, cat.vendor)[i] == ProductNotRegistered(c, cat.vendor);
    }
  }

  lemma NotesStay(res: Resolution, cat: Catalogue, reply: Reply<seq<string>>)
    ensures res.dropped <= Choosing(res, cat, reply).dropped
    ensures forall n <- Unlisted(res.entity.cpes, cat.vendor) :: n in Choosing(res, cat, reply).dropped
  {
    hide ChoiceNotes, ChosenCpes, Unlisted;
  }

  predicate Rejection(note: Note) {
    note.NotRegistered? || note.ProductNotRegistered?
  }

  /**
   A CPE is rejected in a vendor's name only when the catalogue consulted is that vendor's and does not
   confirm it: the CPE is another vendor's, or the page read does not list its product. It is its product
   that is said to be missing exactly when the catalogue confirms no CPE at all.
   */
  lemma RejectionsAreTrue(dir: Option<Directory>, choose: Catalogue -> Reply<seq<string>>, res: Resolution, note: Note)
    requires Proposed(res) && Rejection(note) && note in Grounded(dir, choose, res).dropped
    ensures note.cpe in res.entity.cpes && dir.Some?
    ensures var search := SearchFor(dir.value, VendorsToTry(res));
      && search.Found? && search.catalogue.vendor == note.vendor && !Confirms(search.catalogue, note.cpe)
      && (note.ProductNotRegistered? <==> forall c <- res.entity.cpes :: !Confirms(search.catalogue, c))
  {
    RejectionNeedsCatalogue(dir, choose, res, note);
    var cat := SearchFor(dir.value, VendorsToTry(res)).catalogue;
    NoneConfirmed(res.entity.cpes, cat);
    if FilterMap(res.entity.cpes, ConfirmedBy(cat)) != [] {
      LeftBehindTrue(res.entity.cpes, cat, note);
    } else {
      UnlistedTrue(res.entity.cpes, cat, note);
    }
  }

  lemma NoneConfirmed(cpes: seq<string>, cat: Catalogue)
    ensures FilterMap(cpes, ConfirmedBy(cat)) == [] <==> forall c <- cpes :: !Confirms(cat, c)
  {
    FilterMapMembers(cpes, ConfirmedBy(cat));
    var confirmed := FilterMap(cpes, ConfirmedBy(cat));
    if c :| c in cpes && Confirms(cat, c) {
      var i :| 0 <= i < |cpes| && cpes[i] == c;
      assert ConfirmedBy(cat)(cpes[i]) == Some(c);
    }
    if confirmed != [] {
      assert confirmed[0] in confirmed;
    }
  }

  lemma RejectionNeedsCatalogue(
    dir: Option<Directory>, choose: Catalogue -> Reply<seq<string>>, res: Resolution, note: Note)
    requires Rejection(note) && note !in res.dropped && note in Grounded(dir, choose, res).dropped
    ensures dir.Some? && SearchFor(dir.value, VendorsToTry(res)).Found?
    ensures var cat, cpes := SearchFor(dir.value, VendorsToTry(res)).catalogue, res.entity.cpes;
      var confirmed := FilterMap(cpes, ConfirmedBy(cat));
      if confirmed != [] then note in FilterMap(cpes, LeftBehind(confirmed, cat.vendor))
      else note in Unlisted(cpes, cat.vendor)
  {
    var search := SearchFor(dir.value, VendorsToTry(res));
    if search.Found? {
      ChoosingRejections(res, search.catalogue, choose(search.catalogue), note);
    }
  }

  lemma ChoosingRejections(res: Resolution, cat: Catalogue, reply: Reply<seq<string>>, note: Note)
    requires Rejection(note) && note !in res.dropped
    ensures note in Choosing(res, cat, reply).dropped ==> note in Unlisted(res.entity.cpes, cat.vendor)
  {
    if reply.Answered? {
      assert note !in ChoiceNotes(reply.value, cat);
    }
  }

  lemma LeftBehindTrue(cpes: seq<string>, cat: Catalogue, note: Note)
    requires note in FilterMap(cpes, LeftBehind(FilterMap(cpes, ConfirmedBy(cat)), cat.vendor))
    ensures note.NotRegistered? && note.cpe in cpes && note.vendor == cat.vendor && !Confirms(cat, note.cpe)
  {
    var confirmed := FilterMap(cpes, ConfirmedBy(cat));
    FilterMapMembers(cpes, ConfirmedBy(cat));
    FilterMapMembers(cpes, LeftBehind(confirmed, cat.vendor));
    var i :| 0 <= i < |cpes| && LeftBehind(confirmed, cat.vendor)(cpes[i]) == Some(note);
    assert note == NotRegistered(cpes[i], cat.vendor) && cpes[i] !in confirmed;
    assert ConfirmedBy(cat)(cpes[i]).None?;
  }

  lemma UnlistedTrue(cpes: seq<string>, cat: Catalogue, note: Note)
    requires FilterMap(cpes, ConfirmedBy(cat)) == [] && note in Unlisted(cpes, cat.vendor)
    ensures note.ProductNotRegistered? && note.cpe in cpes && note.vendor == cat.vendor && !Confirms(cat, note.cpe)
  {
    FilterMapMembers(cpes, ConfirmedBy(cat));
    var i :| 0 <= i < |cpes| && Unlisted(cpes, cat.vendor)[i] == note;
    assert ConfirmedBy(cat)(cpes[i]).None?;
  }

  /** A CPE is said to have an unknown vendor only when the dictionary answered for every vendor tried and knew none. */
  lemma OrphansAreTrue(dir: Option<Directory>, choose: Catalogue -> Reply<seq<string>>, res: Resolution, cpe: string)
    requires Proposed(res) && CpeVendorUnknown(cpe) in Grounded(dir, choose, res).dropped
    ensures cpe in res.entity.cpes && dir.Some?
    ensures forall v <- VendorsToTry(res) :: dir.value(v).Answered? && !dir.value(v).value.Exists()
  {
    OrphanNeedsSearch(dir, choose, res, CpeVendorUnknown(cpe));
    UnregisteredAll(dir.value, VendorsToTry(res));
  }

  lemma OrphanNeedsSearch(
    dir: Option<Directory>, choose: Catalogue -> Reply<seq<string>>, res: Resolution, note: Note)
    requires note.CpeVendorUnknown? && note !in res.dropped && note in Grounded(dir, choose, res).dropped
    ensures dir.Some? && SearchFor(dir.value, VendorsToTry(res)).Unregistered?
    ensures note.cpe in res.entity.cpes && VendorsToTry(res) != []
  {
    var search := SearchFor(dir.value, VendorsToTry(res));
    if search.Found? {
      FoundNamesNoOrphan(res, search.catalogue, choose(search.catalogue), note);
    }
  }

  lemma FoundNamesNoOrphan(res: Resolution, cat: Catalogue, reply: Reply<seq<string>>, note: Note)
    requires note.CpeVendorUnknown? && note !in res.dropped
    ensures note !in Choosing(res, cat, reply).dropped && note !in Confirming(res, cat).dropped
  {
    var confirmed := FilterMap(res.entity.cpes, ConfirmedBy(cat));
    FilterMapMembers(res.entity.cpes, LeftBehind(confirmed, cat.vendor));
    if reply.Answered? {
      assert note !in ChoiceNotes(reply.value, cat);
    }
  }

  // --- When the notes are true ------------------------------------------------------------------

  /** A dictionary that holds one row under one prefix, and claims `total`. */
  function OneRow(prefix: string, row: string, total: nat): DictionaryServer {
    (p: string, term: string) => Answered(if p == prefix then Rows(total, [row]) else Rows(0, []))
  }

  /** What a reader makes of it: the whole of what it claims, unless it claims more than it sends. */
  lemma OneRowReads(prefix: string, row: string, total: nat, service: string, v: string)
    requires Readable(row) && 0 < total && (total == 1 || Blank(service))
    ensures VendorProducts(OneRow(prefix, row, total), v, service) ==
      Answered(if v == prefix then Catalogue(v, [ProductOf(row).value], total, "", total == 1)
               else Catalogue(v, [], 0, "", true))
  {
    assert TrimSpace("") == "";
    SingleProduct(row);
    hide Products, ProductOf, Readable, TrimSpace;
  }

  lemma SingleProduct(row: string)
    requires Readable(row)
    ensures Products([row]) == Some([ProductOf(row).value]) && Products([]) == Some([])
  {
    assert Products([]) == Some([]);
    ReadableRows([row]);
    OfOne(row, ProductOf, Itself, StringLeq);
    hide *;
  }

  lemma {:induction false} NoneRegistered(dir: Directory, candidates: seq<string>)
    requires forall v <- candidates :: dir(v).Answered? && !dir(v).value.Exists()
    ensures FirstRegistered(dir, candidates).Unregistered?
  {
    if candidates != [] {
      NoneRegistered(dir, candidates[1..]);
    }
  }

  /** NVD holds just this CPE, of a vendor never tried: the vendor is registered, and the note says otherwise. */
  lemma UntriedVendorIsMisreported(
    res: Resolution, c: string, service: string, choose: Catalogue -> Reply<seq<string>>)
    requires Proposed(res) && c in res.entity.cpes && VendorMatchString(c) !in VendorsToTry(res)
    ensures var dir := Reading(OneRow(VendorMatchString(c), c, 1), service);
      && CpeVendorUnknown(c) in Grounded(Some(dir), choose, res).dropped
      && dir(VendorMatchString(c)).Answered? && dir(VendorMatchString(c)).value.Exists()
  {
    var own, tried := VendorMatchString(c), VendorsToTry(res);
    var dir := Reading(OneRow(own, c, 1), service);
    assert Readable(c);
    NoCandidatesNoCpes(res);
    forall v ensures dir(v).Answered? && (dir(v).value.Exists() <==> v == own) {
      OneRowReads(own, c, 1, service, v);
    }
    NoneRegistered(dir, tried);
    hide VendorsToTry, VendorMatchString, Reading;
    var i :| 0 <= i < |res.entity.cpes| && res.entity.cpes[i] == c;
    assert Orphans(res.entity.cpes)[i] == CpeVendorUnknown(c);
    assert CpeVendorUnknown(c) in Searched(res, Unregistered, tried).dropped;
  }

  /**
   "Its vendor is unknown to NVD" is true of a proposed CPE, whatever NVD replies, exactly when the CPE's own
   vendor is among the few that are tried.
   */
  lemma OrphanNoteTrueExactly(res: Resolution, c: string, service: string)
    requires Proposed(res) && c in res.entity.cpes
    ensures (forall server: DictionaryServer, choose: Catalogue -> Reply<seq<string>> ::
               CpeVendorUnknown(c) in Grounded(Some(Reading(server, service)), choose, res).dropped ==>
                 var own := VendorProducts(server, VendorMatchString(c), service);
                 own.Answered? && !own.value.Exists()) <==>
            VendorMatchString(c) in VendorsToTry(res)
  {
    hide Grounded, VendorsToTry, VendorMatchString, VendorProducts;
    if VendorMatchString(c) in VendorsToTry(res) {
      forall server: DictionaryServer, choose: Catalogue -> Reply<seq<string>>
        | CpeVendorUnknown(c) in Grounded(Some(Reading(server, service)), choose, res).dropped
        ensures var own := VendorProducts(server, VendorMatchString(c), service);
                own.Answered? && !own.value.Exists()
      {
        OrphansAreTrue(Some(Reading(server, service)), choose, res, c);
      }
    } else {
      var choose: Catalogue -> Reply<seq<string>> := _ => TimedOut;
      UntriedVendorIsMisreported(res, c, service, choose);
    }
  }

  /** Two vendors of the model's own leave no turn for the one a CPE implies. */
  lemma OwnVendorsComeFirst(res: Resolution, a: string, b: string)
    requires res.cpeVendors == [a, b] && a != b
    ensures VendorsToTry(res) == ["cpe:2.3:a:" + a, "cpe:2.3:a:" + b]
  {
    var own := Applications(res.cpeVendors);
    SamePrefix("cpe:2.3:a:", a, b);
    assert |own| == 2 && own[0] == "cpe:2.3:a:" + a && own[1] == "cpe:2.3:a:" + b;
    FirstTwo(own, Implied(res.entity.cpes));
  }

  lemma SamePrefix(p: string, a: string, b: string)
    requires a != b
    ensures p + a != p + b
  {
    assert (p + a)[|p|..] == a && (p + b)[|p|..] == b;
  }

  lemma FirstTwo(own: seq<string>, implied: seq<string>)
    requires |own| == 2 && own[0] != own[1] && own[0] != "" && own[1] != ""
    ensures Capped(own + implied) == own
  {
    assert DistinctKeys(own, Itself);
    assert forall i :: 0 <= i < 2 ==> NonEmpty(own[i]) == Some(own[i]);
    hide NonEmpty, Itself, FirstByKey, FilterMap;
    var all := FilterMap(own + implied, NonEmpty);
    FilterMapIdentity(own, NonEmpty);
    FilterMapPrefix(own + implied, 2, NonEmpty);
    assert (own + implied)[..2] == own;
    FirstByKeyPrefix(all, 2, Itself);
    FirstByKeyIdentity(own, Itself);
    assert all[..2] == own;
  }

  /** Given the vendors aa and bb and a CPE of Okta's, Okta is never looked up, and yet may be said to be unknown. */
  lemma OrphanNoteCanBeFalse(res: Resolution, service: string, choose: Catalogue -> Reply<seq<string>>)
    returns (server: DictionaryServer)
    requires Proposed(res)
    requires res.cpeVendors == ["aa", "bb"] && res.entity.cpes == ["cpe:2.3:a:okta" + ":" + "okta" + StarTail()]
    ensures server("cpe:2.3:a:okta", "") == Answered(Rows(1, res.entity.cpes))
    ensures CpeVendorUnknown(res.entity.cpes[0]) in Grounded(Some(Reading(server, service)), choose, res).dropped
  {
    hide Proposed, Grounded, VendorsToTry, WellFormed, VendorMatchString, Reading;
    var c := res.entity.cpes[0];
    assert c in res.entity.cpes;
    OktaRow("cpe:2.3:a:okta", "a", "okta");
    OwnVendorsComeFirst(res, "aa", "bb");
    assert |VendorsToTry(res)[0]| == |VendorsToTry(res)[1]| == 12;
    server := OneRow("cpe:2.3:a:okta", c, 1);
    UntriedVendorIsMisreported(res, c, service, choose);
  }

  // --- What a page that was read says about one that was not -----------------------------------

  /**
   The rows a vendor may really have, given the page it was read through: those sent, and others of its
   own up to the number claimed.
   */
  ghost predicate Consistent(page: Rows, vendor: string, held: seq<string>) {
    && |held| == (if page.total < |page.names| then |page.names| else page.total)
    && page.names <= held
    && (forall n <- held :: Readable(n))
    && forall i :: |page.names| <= i < |held| ==> VendorMatchString(held[i]) == vendor
  }

  /** Some row of the vendor is for this CPE's product. */
  ghost predicate Registered(held: seq<string>, cpe: string) {
    exists n <- held :: ProductOf(n).Some? && EqualFold(ProductOf(n).value, ProductComponent(cpe))
  }

  /** Whatever the vendor holds beyond the page, it has no row for this CPE's product. */
  ghost predicate NeverRegistered(page: Rows, vendor: string, cpe: string) {
    forall held :: Consistent(page, vendor, held) ==> !Registered(held, cpe)
  }

  /**
   "Product not registered under" a vendor is true of a proposed CPE, of that vendor or another, whatever the
   dictionary holds beyond the page it sent, exactly when the catalogue consulted was read whole - complete,
   and not narrowed to a keyword - and does not list the product.
   */
  lemma RejectionTrueExactly(
    server: DictionaryServer, service: string, choose: Catalogue -> Reply<seq<string>>, res: Resolution,
    cpe: string, vendor: string)
    requires Proposed(res)
    requires ProductNotRegistered(cpe, vendor) in Grounded(Some(Reading(server, service)), choose, res).dropped
    ensures VendorProducts(server, vendor, service).Answered? && server(vendor, "").Answered?
    ensures var cat := VendorProducts(server, vendor, service).value;
      NeverRegistered(server(vendor, "").value, vendor, cpe) <==>
        cat.complete && cat.narrowed == "" && !cat.Has(ProductComponent(cpe))
  {
    RejectionFromPage(server, service, choose, res, ProductNotRegistered(cpe, vendor));
    hide *;
    PageDecides(server, service, cpe, vendor);
  }

  /**
   "Not registered under" a vendor, said of a CPE left behind by others that were confirmed, is true exactly
   when the CPE is another vendor's or the catalogue was read whole.
   */
  lemma LeftBehindTrueExactly(
    server: DictionaryServer, service: string, choose: Catalogue -> Reply<seq<string>>, res: Resolution,
    cpe: string, vendor: string)
    requires Proposed(res)
    requires NotRegistered(cpe, vendor) in Grounded(Some(Reading(server, service)), choose, res).dropped
    ensures VendorProducts(server, vendor, service).Answered? && server(vendor, "").Answered?
    ensures var cat := VendorProducts(server, vendor, service).value;
      (VendorMatchString(cpe) == vendor ==> NeverRegistered(server(vendor, "").value, vendor, cpe)) <==>
        VendorMatchString(cpe) != vendor || (cat.complete && cat.narrowed == "")
  {
    RejectionFromPage(server, service, choose, res, NotRegistered(cpe, vendor));
    hide VendorProducts, NeverRegistered, VendorMatchString, Grounded, VendorPrefix, Proposed;
    PageDecides(server, service, cpe, vendor);
    assert |Split(cpe, ':')| == 13;
  }

  lemma RejectionFromPage(
    server: DictionaryServer, service: string, choose: Catalogue -> Reply<seq<string>>, res: Resolution, note: Note)
    requires Proposed(res) && Rejection(note)
    requires note in Grounded(Some(Reading(server, service)), choose, res).dropped
    ensures WellFormed(note.cpe) && VendorPrefix(note.vendor)
    ensures VendorProducts(server, note.vendor, service).Answered?
    ensures !Confirms(VendorProducts(server, note.vendor, service).value, note.cpe)
    ensures VendorProducts(server, note.vendor, service).value.vendor == note.vendor
  {
    var dir := Reading(server, service);
    RejectionsAreTrue(Some(dir), choose, res, note);
    var v := FoundIsCandidate(dir, VendorsToTry(res));
    CandidatesArePrefixes(res);
    NarrowingKeepsExistence(server, v, service);
  }

  lemma PageDecides(server: DictionaryServer, service: string, cpe: string, vendor: string)
    requires WellFormed(cpe) && VendorPrefix(vendor)
    requires VendorProducts(server, vendor, service).Answered?
    ensures server(vendor, "").Answered?
    ensures var cat := VendorProducts(server, vendor, service).value;
      NeverRegistered(server(vendor, "").value, vendor, cpe) <==>
        cat.complete && cat.narrowed == "" && !cat.Has(ProductComponent(cpe))
  {
    WholePage(server, vendor, service);
    var cat, page := VendorProducts(server, vendor, service).value, server(vendor, "").value;
    hide VendorProducts, CataloguePage, VendorMatchString, WellFormed, VendorPrefix;
    if |page.names| >= page.total {
      ListedIsRegistered(page.names, cpe);
      assert Consistent(page, vendor, page.names);
      forall held | Consistent(page, vendor, held) ensures held == page.names {}
    } else {
      HiddenRow(page, cpe, vendor);
    }
  }

  lemma ListedIsRegistered(names: seq<string>, cpe: string)
    requires Products(names).Some?
    ensures Registered(names, cpe) <==> exists p <- Products(names).value :: EqualFold(p, ProductComponent(cpe))
  {
    ProductsExact(names);
    hide Products, ProductOf, ProductComponent, EqualFold;
  }

  /** The first page is always parsed; when it holds every row, it is the catalogue. */
  lemma WholePage(server: DictionaryServer, vendor: string, narrow: string)
    requires VendorProducts(server, vendor, narrow).Answered?
    ensures server(vendor, "").Answered? && Products(server(vendor, "").value.names).Some?
    ensures forall n <- server(vendor, "").value.names :: Readable(n)
    ensures var cat, page := VendorProducts(server, vendor, narrow).value, server(vendor, "").value;
      && (|page.names| >= page.total <==> cat.complete && cat.narrowed == "")
      && (|page.names| >= page.total ==> cat.products == Products(page.names).value)
  {
    assert TrimSpace("") == "";
  }

  /** A page that holds back a row of the vendor may hold back this product's. */
  lemma HiddenRow(page: Rows, cpe: string, vendor: string)
    requires WellFormed(cpe) && VendorPrefix(vendor)
    requires |page.names| < page.total && forall n <- page.names :: Readable(n)
    ensures !NeverRegistered(page, vendor, cpe)
  {
    var row := RowFor(cpe, vendor);
    var rest := seq(page.total - |page.names|, i requires 0 <= i < page.total - |page.names| => row);
    var held := page.names + rest;
    hide VendorMatchString, ProductComponent, WellFormed, VendorPrefix, ProductOf, EqualFold, Readable;
    assert held[|page.names|] == row && row in held;
    assert forall n <- held :: n in page.names || n == row;
    assert Consistent(page, vendor, held) && Registered(held, cpe);
  }

  /** The row the vendor would have for the product. */
  lemma RowFor(cpe: string, vendor: string) returns (row: string)
    requires WellFormed(cpe) && VendorPrefix(vendor)
    ensures Readable(row) && VendorMatchString(row) == vendor
    ensures ProductOf(row).Some? && EqualFold(ProductOf(row).value, ProductComponent(cpe))
  {
    var p := ProductComponent(cpe);
    assert Concrete(p) && p in Split(cpe, ':');
    BuiltShape(vendor, p);
    ConcreteIgnoresCase(p);
    row := vendor + ":" + ToLower(p) + StarTail();
    PartsOfBuilt(vendor, ToLower(p));
    LowerTwice(p);
    assert ProductOf(row) == Some(ProductComponent(row));
  }

  /** One row of the first vendor tried, and one proposed CPE it is not for: the CPE is named. */
  lemma OneRowRejects(
    res: Resolution, v: string, row: string, total: nat, service: string, choose: Catalogue -> Reply<seq<string>>)
    requires VendorsToTry(res) != [] && VendorsToTry(res)[0] == v && |res.entity.cpes| == 1
    requires Readable(row) && 0 < total && (total == 1 || Blank(service))
    requires var c := res.entity.cpes[0];
             VendorMatchString(c) != v || !EqualFold(ProductOf(row).value, ProductComponent(c))
    ensures ProductNotRegistered(res.entity.cpes[0], v) in
            Grounded(Some(Reading(OneRow(v, row, total), service)), choose, res).dropped
  {
    OneRowReads(v, row, total, service, v);
    hide VendorsToTry, Grounded, VendorMatchString, ProductComponent, ProductOf, VendorProducts;
    FoundFirst(res, Reading(OneRow(v, row, total), service), v, choose, res.entity.cpes[0]);
  }

  /** Okta's gate as an operating system, while NVD lists it as an application: the product is registered. */
  lemma ProductNoteCanBeFalse(res: Resolution, service: string, choose: Catalogue -> Reply<seq<string>>)
    returns (server: DictionaryServer)
    requires Proposed(res)
    requires res.cpeVendors == ["okta"] && res.entity.cpes == ["cpe:2.3:o:okta" + ":" + "gate" + StarTail()]
    ensures server("cpe:2.3:a:okta", "") == Answered(Rows(1, ["cpe:2.3:a:okta" + ":" + "gate" + StarTail()]))
    ensures VendorProducts(server, "cpe:2.3:a:okta", service) ==
            Answered(Catalogue("cpe:2.3:a:okta", ["gate"], 1, "", true))
    ensures ProductNotRegistered(res.entity.cpes[0], "cpe:2.3:a:okta") in
            Grounded(Some(Reading(server, service)), choose, res).dropped
  {
    var row := "cpe:2.3:a:okta" + ":" + "gate" + StarTail();
    OktaRow("cpe:2.3:a:okta", "a", "gate");
    OktaRow("cpe:2.3:o:okta", "o", "gate");
    OktaFirst(res);
    assert "cpe:2.3:o:okta"[8] != "cpe:2.3:a:okta"[8];
    server := OneRow("cpe:2.3:a:okta", row, 1);
    hide *;
    OneRowReads("cpe:2.3:a:okta", row, 1, service, "cpe:2.3:a:okta");
    OneRowRejects(res, "cpe:2.3:a:okta", row, 1, service, choose);
  }

  /** Okta's gate is the second of two rows, and the page sends only the first. */
  lemma ProductNoteCanBeHasty(res: Resolution, choose: Catalogue -> Reply<seq<string>>)
    returns (server: DictionaryServer, first: string)
    requires Proposed(res)
    requires res.cpeVendors == ["okta"] && res.entity.cpes == ["cpe:2.3:a:okta" + ":" + "gate" + StarTail()]
    ensures server("cpe:2.3:a:okta", "") == Answered(Rows(2, [first]))
    ensures Consistent(Rows(2, [first]), "cpe:2.3:a:okta", [first] + res.entity.cpes)
    ensures Registered([first] + res.entity.cpes, res.entity.cpes[0])
    ensures ProductNotRegistered(res.entity.cpes[0], "cpe:2.3:a:okta") in
            Grounded(Some(Reading(server, "")), choose, res).dropped
  {
    first := "cpe:2.3:a:okta" + ":" + "verify" + StarTail();
    server := OneRow("cpe:2.3:a:okta", first, 2);
    OktaRow("cpe:2.3:a:okta", "a", "verify");
    OktaRow("cpe:2.3:a:okta", "a", "gate");
    OktaFirst(res);
    assert |ToLower("verify")| != |ToLower("gate")|;
    assert Blank("");
    SecondRow(first, res.entity.cpes[0], "cpe:2.3:a:okta");
    assert [first] + res.entity.cpes == [first, res.entity.cpes[0]];
    assert !EqualFold("verify", "gate");
    hide *;
    OneRowRejects(res, "cpe:2.3:a:okta", first, 2, "", choose);
  }

  lemma SecondRow(first: string, second: string, vendor: string)
    requires Readable(first) && Readable(second) && VendorMatchString(second) == vendor
    ensures Consistent(Rows(2, [first]), vendor, [first, second]) && Registered([first, second], second)
  {
    assert [first, second][1] == second;
    assert ProductOf(second) == Some(ProductComponent(second));
  }

  lemma OktaFirst(res: Resolution)
    requires res.cpeVendors == ["okta"]
    ensures VendorsToTry(res) != [] && VendorsToTry(res)[0] == "cpe:2.3:a:okta"
  {
    assert "cpe:2.3:a:" + "okta" == "cpe:2.3:a:okta";
    OnlyVendorComesFirst(res, "okta");
  }

  lemma OktaRow(prefix: string, part: string, product: string)
    requires part == "a" || part == "o" || part == "h"
    requires prefix == "cpe:2.3:" + part + ":okta"
    requires Concrete(product) && ':' !in product && ToLower(product) == product
    ensures var row := prefix + ":" + product + StarTail();
      Readable(row) && ProductOf(row) == Some(product) && ProductComponent(row) == product &&
      VendorMatchString(row) == prefix
  {
    SplitFour("cpe", "2.3", part, "okta", ':');
    assert prefix == "cpe" + [':'] + "2.3" + [':'] + part + [':'] + "okta";
    assert ToLower(prefix) == prefix;
    BuiltShape(prefix, product);
    PartsOfBuilt(prefix, product);
  }

  /** When the first vendor tried is registered and confirms nothing, every proposed CPE is named in its name. */
  lemma FoundFirst(res: Resolution, dir: Directory, v: string, choose: Catalogue -> Reply<seq<string>>, c: string)
    requires VendorsToTry(res) != [] && VendorsToTry(res)[0] == v && c in res.entity.cpes
    requires dir(v).Answered? && dir(v).value.Exists() && dir(v).value.vendor == v
    requires forall c <- res.entity.cpes :: !Confirms(dir(v).value, c)
    ensures ProductNotRegistered(c, v) in Grounded(Some(dir), choose, res).dropped
  {
    var cat := dir(v).value;
    NoneConfirmed(res.entity.cpes, cat);
    var i :| 0 <= i < |res.entity.cpes| && res.entity.cpes[i] == c;
    assert Unlisted(res.entity.cpes, v)[i] == ProductNotRegistered(c, v);
    hide VendorsToTry, Confirms, Choosing, Confirming, Unlisted, FilterMap;
    NotesStay(res, cat, choose(cat));
  }

  lemma OnlyVendorComesFirst(res: Resolution, token: string)
    requires res.cpeVendors == [token]
    ensures VendorsToTry(res) != [] && VendorsToTry(res)[0] == "cpe:2.3:a:" + token
  {
    var own, implied := Applications(res.cpeVendors), Implied(res.entity.cpes);
    assert own == ["cpe:2.3:a:" + token];
    FirstOne(own, implied);
  }

  lemma FirstOne(own: seq<string>, implied: seq<string>)
    requires |own| == 1 && own[0] != ""
    ensures own <= Capped(own + implied)
  {
    assert NonEmpty(own[0]) == Some(own[0]);
    hide NonEmpty, Itself, FirstByKey, FilterMap;
    var all := FilterMap(own + implied, NonEmpty);
    FilterMapIdentity(own, NonEmpty);
    FilterMapPrefix(own + implied, 1, NonEmpty);
    assert (own + implied)[..1] == own;
    FirstByKeyPrefix(all, 1, Itself);
    FirstByKeyIdentity(own, Itself);
    assert all[..1] == own;
  }

  // --- Every choice is accounted for ------------------------------------------------------------

  /** The choice became a CPE, or is named as invented or as cut by the limit. */
  ghost predicate ChoiceAccounted(selected: seq<string>, cat: Catalogue, s: string) {
    || Invented(s, cat.vendor) in ChoiceNotes(selected, cat)
    || (exists p :: OverLimit(p, cat.vendor) in ChoiceNotes(selected, cat) && EqualFold(p, Token(s)))
    || (exists c :: c in ChosenCpes(selected, cat) && ProductComponent(c) == Token(s))
  }

  lemma InventedNotesOf(tokens: seq<string>, vendor: string, s: string)
    ensures Invented(s, vendor) in InventedNotes(tokens, vendor) <==> s in tokens
  {
    if s in tokens {
      var i :| 0 <= i < |tokens| && tokens[i] == s;
      assert InventedNotes(tokens, vendor)[i] == Invented(s, vendor);
    }
  }

  lemma LimitNotesOf(tokens: seq<string>, vendor: string, p: string)
    ensures OverLimit(p, vendor) in LimitNotes(tokens, vendor) <==> p in tokens
  {
    if p in tokens {
      var i :| 0 <= i < |tokens| && tokens[i] == p;
      assert LimitNotes(tokens, vendor)[i] == OverLimit(p, vendor);
    }
  }

  /** The notes of a selection, read off the selection. */
  lemma ChoiceNotesOf(selected: seq<string>, cat: Catalogue, s: string)
    ensures Invented(s, cat.vendor) in ChoiceNotes(selected, cat) <==> s in FilterMap(selected, InventedFor(cat))
    ensures OverLimit(s, cat.vendor) in ChoiceNotes(selected, cat) <==>
            s in Beyond(Accepted(selected, cat), MAX_PRODUCTS)
  {
    InventedNotesOf(FilterMap(selected, InventedFor(cat)), cat.vendor, s);
    LimitNotesOf(Beyond(Accepted(selected, cat), MAX_PRODUCTS), cat.vendor, s);
  }

  /** A choice is named as invented exactly when the catalogue has no such token in any spelling. */
  lemma InventedExactly(selected: seq<string>, cat: Catalogue, s: string)
    ensures Invented(s, cat.vendor) in ChoiceNotes(selected, cat) <==>
            s in selected && Token(s) != "" && !cat.Has(Token(s))
  {
    ChoiceNotesOf(selected, cat, s);
    FilterMapMembers(selected, InventedFor(cat));
    PickSpells(cat.products, Token(s));
    if s in selected {
      var j :| 0 <= j < |selected| && selected[j] == s;
      assert InventedFor(cat)(selected[j]).Some? ==> InventedFor(cat)(s) == Some(s);
    }
  }

  /** The catalogue's own spelling of the choice is a wildcard, and it got under the limit. */
  ghost predicate Vanishes(selected: seq<string>, cat: Catalogue, s: string) {
    var p := Pick(cat.products, Token(s));
    p.Some? && !Concrete(p.value) && p.value in Take(Accepted(selected, cat), MAX_PRODUCTS)
  }

  lemma ChoiceIsAccepted(selected: seq<string>, cat: Catalogue, s: string)
    requires s in selected && Token(s) != "" && Pick(cat.products, Token(s)).Some?
    ensures var p := Pick(cat.products, Token(s)).value;
      && ToLower(p) == Token(s)
      && (p in Take(Accepted(selected, cat), MAX_PRODUCTS) || p in Beyond(Accepted(selected, cat), MAX_PRODUCTS))
  {
    var p := Pick(cat.products, Token(s)).value;
    var picks := FilterMap(selected, PickedFrom(cat));
    PickSpells(cat.products, Token(s));
    LowerTwice(TrimSpace(s));
    FilterMapMembers(selected, PickedFrom(cat));
    var j :| 0 <= j < |selected| && selected[j] == s;
    assert PickedFrom(cat)(selected[j]) == Some(p);
    FirstByKeyCovers(picks, Itself, p);
    SplitAtLimit(Accepted(selected, cat), MAX_PRODUCTS, p);
  }

  lemma SplitAtLimit(s: seq<string>, n: nat, p: string)
    ensures p in s <==> p in Take(s, n) || p in Beyond(s, n)
    ensures DistinctKeys(s, ToLower) ==>
              forall q :: q in s && ToLower(q) == ToLower(p) && p in s ==> q == p
    ensures DistinctKeys(s, ToLower) && p in Take(s, n) ==> p !in Beyond(s, n)
  {
    assert |s| >= n ==> s == s[..n] + s[n..];
  }

  lemma ChosenFrom(selected: seq<string>, cat: Catalogue, c: string) returns (q: string)
    requires VendorPrefix(cat.vendor) && (forall p <- cat.products :: ':' !in p)
    requires c in ChosenCpes(selected, cat)
    ensures q in Take(Accepted(selected, cat), MAX_PRODUCTS) && Concrete(q) && ProductComponent(c) == ToLower(q)
  {
    var products := Take(Accepted(selected, cat), MAX_PRODUCTS);
    FilterMapMembers(products, BuiltUnder(cat.vendor));
    AcceptedAreProducts(selected, cat);
    var i :| 0 <= i < |products| && BuiltUnder(cat.vendor)(products[i]) == Some(c);
    q := products[i];
    BuiltProduct(cat.vendor, q);
  }

  lemma BuiltProduct(v: string, p: string)
    requires VendorPrefix(v) && ':' !in p
    ensures BuiltUnder(v)(p).Some? <==> Concrete(p)
    ensures Concrete(p) ==> ProductComponent(BuiltUnder(v)(p).value) == ToLower(p)
  {
    BuiltShape(v, p);
    ConcreteIgnoresCase(p);
    if Concrete(p) {
      PartsOfBuilt(v, ToLower(p));
    }
  }

  lemma ConcreteIsChosen(selected: seq<string>, cat: Catalogue, p: string)
    requires VendorPrefix(cat.vendor) && ':' !in p
    requires p in Take(Accepted(selected, cat), MAX_PRODUCTS) && Concrete(p)
    ensures exists c :: c in ChosenCpes(selected, cat) && ProductComponent(c) == ToLower(p)
  {
    var products := Take(Accepted(selected, cat), MAX_PRODUCTS);
    FilterMapMembers(products, BuiltUnder(cat.vendor));
    BuiltProduct(cat.vendor, p);
    var i :| 0 <= i < |products| && products[i] == p;
    assert BuiltUnder(cat.vendor)(products[i]).value in ChosenCpes(selected, cat);
  }

  lemma VanishedIsNowhere(selected: seq<string>, cat: Catalogue, s: string)
    requires VendorPrefix(cat.vendor) && (forall p <- cat.products :: ':' !in p)
    requires s in selected && Token(s) != "" && Vanishes(selected, cat, s)
    ensures !ChoiceAccounted(selected, cat, s)
  {
    var p := Pick(cat.products, Token(s)).value;
    var accepted := Accepted(selected, cat);
    ChoiceIsAccepted(selected, cat, s);
    AcceptedAreProducts(selected, cat);
    PickSpells(cat.products, Token(s));
    InventedExactly(selected, cat, s);
    LowerTwice(TrimSpace(s));
    SplitAtLimit(accepted, MAX_PRODUCTS, p);
    forall q ensures !(OverLimit(q, cat.vendor) in ChoiceNotes(selected, cat) && EqualFold(q, Token(s))) {
      ChoiceNotesOf(selected, cat, q);
      SplitAtLimit(accepted, MAX_PRODUCTS, q);
    }
    forall c | c in ChosenCpes(selected, cat) ensures ProductComponent(c) != Token(s) {
      var q := ChosenFrom(selected, cat, c);
      SplitAtLimit(accepted, MAX_PRODUCTS, q);
    }
  }

  /** A non-blank choice is accounted for unless it spelled a wildcard the catalogue itself lists. */
  lemma ChoiceFate(selected: seq<string>, cat: Catalogue, s: string)
    requires VendorPrefix(cat.vendor) && (forall p <- cat.products :: ':' !in p)
    requires s in selected && Token(s) != ""
    ensures ChoiceAccounted(selected, cat, s) <==> !Vanishes(selected, cat, s)
  {
    PickSpells(cat.products, Token(s));
    if Vanishes(selected, cat, s) {
      VanishedIsNowhere(selected, cat, s);
    } else if Pick(cat.products, Token(s)).None? {
      InventedExactly(selected, cat, s);
    } else {
      var p := Pick(cat.products, Token(s)).value;
      ChoiceIsAccepted(selected, cat, s);
      ChoiceNotesOf(selected, cat, p);
      LowerTwice(TrimSpace(s));
      if p in Take(Accepted(selected, cat), MAX_PRODUCTS) {
        ConcreteIsChosen(selected, cat, p);
      }
    }
  }

  /**
   Every choice the model could make from a catalogue is accounted for exactly when the catalogue lists
   neither wildcard; one that does loses that choice without a word.
   */
  lemma AllChoicesAccounted(cat: Catalogue)
    requires VendorPrefix(cat.vendor) && forall p <- cat.products :: ':' !in p
    ensures (forall selected, s :: s in selected && Token(s) != "" ==> ChoiceAccounted(selected, cat, s)) <==>
            "*" !in cat.products && "-" !in cat.products
  {
    if "*" in cat.products {
      WildcardVanishes(cat, "*");
      ChoiceFate(["*"], cat, "*");
    }
    if "-" in cat.products {
      WildcardVanishes(cat, "-");
      ChoiceFate(["-"], cat, "-");
    }
    if "*" !in cat.products && "-" !in cat.products {
      forall selected, s | s in selected && Token(s) != "" ensures ChoiceAccounted(selected, cat, s) {
        PickSpells(cat.products, Token(s));
        ChoiceFate(selected, cat, s);
      }
    }
  }

  lemma WildcardVanishes(cat: Catalogue, w: string)
    requires (w == "*" || w == "-") && w in cat.products
    ensures Token(w) == w && Vanishes([w], cat, w)
  {
    TrimOfTrimmed(w);
    assert ToLower(w) == w;
    PickSpells(cat.products, w);
    assert EqualFold(w, w);
    var p := Pick(cat.products, w).value;
    assert |p| == 1 && p == [p[0]];
    assert p == w;
    ChoiceIsAccepted([w], cat, w);
    FilterMapShorter([w], PickedFrom(cat));
    FirstByKeyShorter(FilterMap([w], PickedFrom(cat)), Itself);
  }
}
