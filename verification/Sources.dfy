/** Every cached source's Fetch, as one function of the query, the entity and the replies. */
module Sources {
  import opened Domain
  import opened Service
  import opened Fingerprint
  import BitSight
  import Nvd
  import Osv
  import FedRamp
  import CaAg
  import Store
  import Vendor

  /** The world one fetch meets: each service's replies, and how much of each the run is set to read. */
  datatype Services = Services(
    bitsight: BitSight.Upstream, nvd: Nvd.Upstream, osv: Osv.Upstream, fedramp: FedRamp.Upstream, caag: CaAg.Upstream,
    research: (Query, Entity) -> Section)

  /** What a source asks and what it makes of the answers. Research is a model's word, given as it comes. */
  function Fetch(source: string, q: Query, ent: Entity, s: Services): Fetched {
    if source == BITSIGHT then BitSight.BitSightFetch(s.bitsight, ent)
    else if source == NVD then Nvd.NvdFetch(s.nvd, ent)
    else if source == OSV then Osv.OsvFetch(s.osv, ent)
    else if source == FEDRAMP then FedRamp.FedRampFetch(s.fedramp, q, ent)
    else if source == CAAG then CaAg.CaAgFetch(s.caag, q, ent)
    else Fetched([], s.research(q, ent))
  }

  predicate Deterministic(source: string) {
    source in {BITSIGHT, NVD, OSV, FEDRAMP, CAAG}
  }

  /** Equal fingerprints mean equal requests and, from equal replies, equal sections. */
  lemma EqualFingerprintSameFetch(
    hash: string -> string, source: string, q1: Query, e1: Entity, q2: Query, e2: Entity, s: Services)
    requires IdealHash(hash) && Deterministic(source)
    requires Resolved(e1) && Resolved(e2)
    requires SectionInputs(hash, source, q1, e1) == SectionInputs(hash, source, q2, e2)
    ensures Fetch(source, q1, e1, s) == Fetch(source, q2, e2, s)
  {
    FingerprintExact(hash, source, q1, e1, q2, e2);
    EqualInputsSameFetch(source, q1, e1, q2, e2, s);
  }

  lemma EqualInputsSameFetch(source: string, q1: Query, e1: Entity, q2: Query, e2: Entity, s: Services)
    requires Deterministic(source) && Resolved(e1) && Resolved(e2)
    requires Inputs(source, q1, e1) == Inputs(source, q2, e2)
    ensures Fetch(source, q1, e1, s) == Fetch(source, q2, e2, s)
  {
    hide Inputs, Resolved, Fetch;
    if source == BITSIGHT {
      DomainsDecide(q1, e1, q2, e2, s);
    } else if source == NVD {
      CpesDecide(q1, e1, q2, e2, s);
    } else if source == OSV {
      PackagesDecide(q1, e1, q2, e2, s);
    } else if source == FEDRAMP {
      NamesDecideFedRamp(q1, e1, q2, e2, s);
    } else {
      NamesDecideCaAg(q1, e1, q2, e2, s);
    }
  }

  lemma DomainsDecide(q1: Query, e1: Entity, q2: Query, e2: Entity, s: Services)
    requires Inputs(BITSIGHT, q1, e1) == Inputs(BITSIGHT, q2, e2)
    ensures Fetch(BITSIGHT, q1, e1, s) == Fetch(BITSIGHT, q2, e2, s)
  {
    assert e1.domains == e2.domains;
  }

  lemma CpesDecide(q1: Query, e1: Entity, q2: Query, e2: Entity, s: Services)
    requires Inputs(NVD, q1, e1) == Inputs(NVD, q2, e2)
    ensures Fetch(NVD, q1, e1, s) == Fetch(NVD, q2, e2, s)
  {
    assert e1.cpes == e2.cpes;
  }

  /** The texts that are hashed say which packages they came from; the section carries the packages. */
  lemma PackagesDecide(q1: Query, e1: Entity, q2: Query, e2: Entity, s: Services)
    requires Resolved(e1) && Resolved(e2)
    requires Inputs(OSV, q1, e1) == Inputs(OSV, q2, e2)
    ensures Fetch(OSV, q1, e1, s) == Fetch(OSV, q2, e2, s)
  {
    PackageInputsInjective(e1.packages, e2.packages);
  }

  lemma NamesDecideFedRamp(q1: Query, e1: Entity, q2: Query, e2: Entity, s: Services)
    requires Inputs(FEDRAMP, q1, e1) == Inputs(FEDRAMP, q2, e2)
    ensures Fetch(FEDRAMP, q1, e1, s) == Fetch(FEDRAMP, q2, e2, s)
  {
    assert Vendor.VendorNames(q1, e1) == Vendor.VendorNames(q2, e2);
  }

  lemma NamesDecideCaAg(q1: Query, e1: Entity, q2: Query, e2: Entity, s: Services)
    requires Inputs(CAAG, q1, e1) == Inputs(CAAG, q2, e2)
    ensures Fetch(CAAG, q1, e1, s) == Fetch(CAAG, q2, e2, s)
  {
    assert Vendor.VendorNames(q1, e1) == Vendor.VendorNames(q2, e2);
  }

  // --- What a fetch may be stored as ----------------------------------------------------------

  /** A live section of `source`, with data only that source's codec accepts. */
  predicate Storable(source: string, section: Section) {
    section.source == source && !section.cached && Store.CodecAccepts(source, section.data)
  }

  /** The cache never refuses what a deterministic source built. */
  lemma FetchIsStorable(source: string, q: Query, ent: Entity, s: Services)
    requires Deterministic(source)
    ensures Storable(source, Fetch(source, q, ent, s).section)
  {
    hide Fetch;
    if source == BITSIGHT {
      BitSightStorable(q, ent, s);
    } else if source == NVD {
      NvdStorable(q, ent, s);
    } else if source == OSV {
      OsvStorable(q, ent, s);
    } else if source == FEDRAMP {
      FedRampStorable(q, ent, s);
    } else {
      CaAgStorable(q, ent, s);
    }
  }

  lemma BitSightBuilds(u: BitSight.Upstream, ent: Entity)
    ensures var section := BitSight.BitSightFetch(u, ent).section;
      section.source == BITSIGHT && !section.cached && (section.data.NoData? || section.data.BitSightData?)
  {
    hide BitSight.Selected, BitSight.RatingOf, BitSight.FirstNonEmpty, BitSight.Other;
  }

  lemma BitSightStorable(q: Query, ent: Entity, s: Services)
    ensures Storable(BITSIGHT, Fetch(BITSIGHT, q, ent, s).section)
  {
    BitSightBuilds(s.bitsight, ent);
    hide BitSight.BitSightFetch;
  }

  lemma NvdBuilds(u: Nvd.Upstream, ent: Entity)
    ensures var section := Nvd.NvdFetch(u, ent).section;
      section.source == NVD && !section.cached && (section.data.NoData? || section.data.NvdData?)
  {
    hide Nvd.QueryCpe, Nvd.Counts, Nvd.UnverifiedLines;
  }

  lemma NvdStorable(q: Query, ent: Entity, s: Services)
    ensures Storable(NVD, Fetch(NVD, q, ent, s).section)
  {
    NvdBuilds(s.nvd, ent);
    hide Nvd.NvdFetch;
  }

  lemma OsvBuilds(u: Osv.Upstream, ent: Entity)
    ensures var section := Osv.OsvFetch(u, ent).section;
      section.source == OSV && !section.cached && (section.data.NoData? || section.data.OsvData?)
  {
    hide Osv.Gather, Osv.GatherCalls, Osv.Counts;
  }

  lemma OsvStorable(q: Query, ent: Entity, s: Services)
    ensures Storable(OSV, Fetch(OSV, q, ent, s).section)
  {
    OsvBuilds(s.osv, ent);
    hide Osv.OsvFetch;
  }

  lemma FedRampBuilds(u: FedRamp.Upstream, q: Query, ent: Entity)
    ensures var section := FedRamp.FedRampFetch(u, q, ent).section;
      section.source == FEDRAMP && !section.cached && (section.data.NoData? || section.data.FedRampData?)
  {
    hide FedRamp.Records, FedRamp.Matched, Vendor.VendorNames;
  }

  lemma FedRampStorable(q: Query, ent: Entity, s: Services)
    ensures Storable(FEDRAMP, Fetch(FEDRAMP, q, ent, s).section)
  {
    FedRampBuilds(s.fedramp, q, ent);
    hide FedRamp.FedRampFetch;
  }

  lemma CaAgBuilds(u: CaAg.Upstream, q: Query, ent: Entity)
    ensures var section := CaAg.CaAgFetch(u, q, ent).section;
      section.source == CAAG && !section.cached && (section.data.NoData? || section.data.CaagData?)
  {
    hide CaAg.Gather, CaAg.GatherCalls, Vendor.VendorNames;
  }

  lemma CaAgStorable(q: Query, ent: Entity, s: Services)
    ensures Storable(CAAG, Fetch(CAAG, q, ent, s).section)
  {
    CaAgBuilds(s.caag, q, ent);
    hide CaAg.CaAgFetch;
  }
}
