/** The values that travel through an assessment. */
module Domain {

  datatype Query = Query(company: string, service: string)

  datatype Package = Package(ecosystem: string, name: string) {
    function Text(): string { ecosystem + ":" + name }
  }

  datatype Entity = Entity(
    canonicalName: string,
    domains: seq<string>,
    cpes: seq<string>,
    packages: seq<Package>,
    aliases: seq<string>)

  /** What resolution discarded, and why. The report prints one line per note. */
  datatype Note =
    | NotADomain(raw: string)
    | NotACpe(raw: string)
    | NotAVendor(raw: string)
    | NotAPackage(ecosystem: string, raw: string)
    | DictionaryUnreachable
    | VendorUnknown(vendor: string)
    | CpeVendorUnknown(cpe: string)
    | NotRegistered(cpe: string, vendor: string)
    | ProductNotRegistered(cpe: string, vendor: string)
    | SelectionFailed
    | Invented(token: string, vendor: string)
    | OverLimit(token: string, vendor: string)

  datatype Origin =
    | Unset
    | NotChecked
    | NoVendorProposed
    | Unreachable
    | NoSuchVendor(tried: seq<string>)
    | Confirmed(vendor: string)
    | ChoiceFailed(vendor: string)
    | Chosen(vendor: string, count: nat)

  datatype Resolution = Resolution(
    entity: Entity,
    dropped: seq<Note>,
    cpeVendors: seq<string>,
    cpeOrigin: Origin)
  {
    /** Only a mapping with a name and a CPE may be stored. */
    predicate Cacheable() {
      entity.canonicalName != "" && entity.cpes != []
    }
  }

  datatype Status = OK | Failed | Skipped

  datatype Citation = Citation(title: string, url: string)

  datatype Verification = HasCves | InDictionary | Unverified

  datatype NvdQuery = NvdQuery(
    cpe: string,
    totalResults: int,
    verification: Verification,
    knownProducts: seq<string>)

  datatype Vuln = Vuln(id: string, baseScore: real, severity: string, url: string)

  datatype SeverityCounts = SeverityCounts(critical: nat, high: nat, medium: nat, low: nat, unscored: nat)

  datatype NvdResult = NvdResult(
    queries: seq<NvdQuery>,
    unqueried: seq<string>,
    totalCves: nat,
    severity: SeverityCounts,
    cves: seq<Vuln>)

  datatype Rating = Rating(
    companyName: string, companyGuid: string, primaryDomain: string, industry: string,
    rating: int, range: string, date: string, industryMedian: string, reportUrl: string,
    queriedDomain: string, alternatives: seq<string>)

  /** One advisory, carrying the package whose query first surfaced it. */
  datatype Advisory = Advisory(
    id: string, package: Package, summary: string, published: string, modified: string,
    aliases: seq<string>, cves: seq<string>, severity: string, vectorType: string, vector: string, url: string)

  datatype OsvQuery = OsvQuery(package: Package, totalVulns: nat, truncated: bool)

  datatype OsvCounts = OsvCounts(critical: nat, high: nat, moderate: nat, low: nat, unrated: nat)

  datatype OsvResult = OsvResult(
    queries: seq<OsvQuery>, totalVulns: nat, severity: OsvCounts, vulns: seq<Advisory>)

  datatype Offering = Offering(
    id: string, provider: string, offering: string, status: string, phase: string, authType: string,
    authCategory: string, impactLevel: string, url: string, matchedAlias: string)

  datatype FedRampResult = FedRampResult(offerings: seq<Offering>, searched: seq<string>, totalRecords: nat)

  datatype Breach = Breach(
    organization: string, dates: seq<string>, reported: string, reportUrl: string, searchedAs: string)

  datatype CaagResult = CaagResult(entries: seq<Breach>, searched: seq<string>)

  /** A section's payload; research's is a text no property here looks inside. */
  datatype Data =
    | NoData
    | BitSightData(rating: Rating)
    | NvdData(nvd: NvdResult)
    | OsvData(osv: OsvResult)
    | FedRampData(fedramp: FedRampResult)
    | CaagData(caag: CaagResult)
    | ResearchData(content: string)

  datatype Section = Section(
    source: string,
    status: Status,
    data: Data,
    citations: seq<Citation>,
    note: string,
    err: string,
    cached: bool)

  function OkSection(source: string, data: Data, citations: seq<Citation>): Section {
    Section(source, OK, data, citations, "", "", false)
  }

  function SkippedSection(source: string, note: string): Section {
    Section(source, Skipped, NoData, [], note, "", false)
  }

  function FailedSection(source: string, err: string): Section {
    Section(source, Failed, NoData, [], "", err, false)
  }
}
