# vrm: a model of the assessment pipeline

`vrm` takes a company and one of its services, asks a model and NVD's dictionary which machine
identifiers they go by, queries its sources side by side under one budget, caches what the
sources return in a table it shares with an analyst's own entries, and streams a report to a browser.
This project states what that machinery promises and proves it, for every input, reply, schedule and
sequence of runs.

`dafny verify dfyconfig.toml` checks the whole project.

## How it is laid out

| file | what it models |
|---|---|
| `FanOut.dfy` | the fan-out as a protocol: a goroutine sends, the clock expires, the collector receives, walks away, drains, expires |
| `Assess.dfy` | the collector as written, run against an arbitrary schedule, and the report's order |
| `Fingerprint.dfy` | the fingerprint stored with a cached section, and what the research prompt adds to it |
| `Store.dfy` | the one table and its two populations of rows |
| `Cache.dfy` | a source behind that table: a fetch as written, and any interleaving of the reads, answers and writes of any number of fetches |
| `Sources.dfy`, `Agreement.dfy` | every cached source's Fetch as one function of query, entity and replies; the cache serves what that function builds |
| `Pipeline.dfy` | one run as written, and any interleaving of runs over one table |
| `Limiter.dfy` | NVD's rate limiter |
| `Nvd.dfy`, `NvdAnswer.dfy` | NVD's paged walk, its verdicts and its section; what that section says when NVD answers truthfully |
| `BitSight.dfy`, `Osv.dfy`, `OsvAnswer.dfy`, `FedRamp.dfy`, `CaAg.dfy` | the other four sources, from the entity and the replies to the requests made and the section built |
| `Service.dfy` | replies, requests, and one fetch |
| `Dictionary.dfy` | a vendor's product catalogue |
| `Proposal.dfy`, `Grounding.dfy`, `Ceiling.dfy`, `Paths.dfy`, `Choice.dfy` | the model's proposal, its grounding in the catalogue, what grounding guarantees, which way it goes, and what a choice becomes |
| `Cpe.dfy`, `Handoff.dfy` | CPE strings (section 6.2 of NIST IR 7695, split on every colon as the code does), and the override's way from form to stream |
| `EventStream.dfy` | the event writer against the parser of sections 9.2.5 and 9.2.6 of the WHATWG HTML Living Standard |
| `Research.dfy`, `Checklist.dfy` | the citation validator, and the whole checklist read off the reply |
| `Vendor.dfy` | the names a vendor is looked up under |
| `Domain.dfy`, `Sequences.dfy`, `Text.dfy` | shared values; first-occurrence deduplication, stable sorts, append-or-skip loops; ASCII text |

Code that updates state step by step is a class or a method with loops; what it computes is a function
named in its `ensures`, and the promises are lemmas about that function. Where an operation decides between
outcomes, a lemma or a further `ensures` ending in Exact, Means or Settled says which one it is in terms of the
inputs, the replies or the table, without that function. Upstream services are arbitrary
functions from requests to replies. The hash is an arbitrary injective function whose values are not
empty. Discarded items are values of a datatype (`Note`, `Drop`) rather than sentences. Times are
integers. Strings are ASCII.

## Where the code and its comments differ

- `internal/sources/codec.go:97-98` says the research prompt holds the same names as the fingerprint. The
  fingerprint folds names that differ by case, punctuation or corporate suffix, and the prompt does not.
  `Fingerprint.ResearchAsksMoreThanItsInputs` says exactly when one more alias changes the prompt and not
  the fingerprint: when it normalises to nothing, to a name already there, or is the company as typed. For the
  other five sources `Sources.EqualFingerprintSameFetch` holds without exception.
- `internal/sources/resolve_cpe.go:187-189` says of every proposed CPE that its vendor is unknown to NVD, but at
  most two vendors are looked up. `Ceiling.OrphanNoteTrueExactly`: the note is true of a CPE, whatever NVD
  replies, exactly when its own vendor was one of them; `Ceiling.OrphanNoteCanBeFalse` is a case (vendors
  `aa` and `bb`, and a CPE of Okta's).
- `internal/sources/resolve_cpe.go:108-112` says of every proposed CPE, when the catalogue confirms none, that its
  product is not registered under the catalogue's vendor. `Ceiling.RejectionTrueExactly`: that is true exactly when
  the page read held every row, was not narrowed to a keyword, and does not list the product. It is false of a CPE
  of another part or vendor whose product the catalogue lists (`Ceiling.ProductNoteCanBeFalse`), and may be false
  when a row was not sent (`Ceiling.ProductNoteCanBeHasty`). The note for a CPE left behind by others that were
  confirmed, `internal/sources/resolve_cpe.go:241-249`, speaks of the CPE, and
  `Ceiling.LeftBehindTrueExactly` gives its condition.
- `internal/sources/resolve_cpe.go:26-29` promises that a choice outside the catalogue is reported as such.
  A choice inside it can still be lost without a note: the code builds no CPE from a product token `*` or
  `-`, and says nothing. `Ceiling.AllChoicesAccounted` shows that this is the only way to lose one.

## Model

| member | source | states |
|---|---|---|
| FanOut.RunOne | internal/assess/assess.go:275-308 | a good section is passed on unchanged, its source filled in when it names none; a panic, or an error the section does not admit to, yields a failed section in the source's own name with nothing else in it |
| FanOut.MoveInv | internal/assess/assess.go:180-238 | every step of every goroutine, the clock and the collector keeps the protocol's invariant: channel contents, results, reported set and observer stay consistent |
| FanOut.ReturnedIsComplete | internal/assess/assess.go:180-251 | after any interleaving, a fan-out that has returned holds exactly one result per source, the source's own section if it was sent before the drain found the channel empty and the expiry notice otherwise, and the observer saw the same list in the same order |
| FanOut.ReturnedIsFaithful | internal/assess/assess.go:180-260 | after any interleaving, a fan-out that has returned holds exactly one result per source: what became of its outcome if it was sent before the drain found the channel empty, and otherwise a failure in its name without data, never a skip |
| FanOut.SendNeverBlocks | internal/assess/assess.go:189-206 | in every reachable state the channel has room for the send of every started source that has not sent, also after the collector has gone |
| FanOut.DeadOnEntryStartsNothing | internal/assess/assess.go:180-188 | a context that is dead on entry starts no source |
| FanOut.CollectorProgress | internal/assess/assess.go:207-226 | the collector always has a next step unless it waits for a source that is still running and the budget has not expired |
| FanOut.CollectorBounded | internal/assess/assess.go:207-238 | however the sources behave, the collector takes at most 3n + 5 steps |
| Assess.Assessment.Deliver | internal/assess/assess.go:196-205 | a finished source's section is appended to the channel without waiting |
| Assess.Assessment.CollectAll | internal/assess/assess.go:207-226 | the receive loop ends, collected or walked away, and each of its steps is a step of the protocol |
| Assess.Assessment.WriteOff | internal/assess/assess.go:213-223 | walking away drains what was delivered before anything is written off |
| Assess.Assessment.ExpireOutstanding | internal/assess/assess.go:229-238 | the expiry pass visits every source and ends the protocol |
| Assess.Assessment.FanOut | internal/assess/assess.go:180-226 | for every schedule the collector as written ends complete: its fields are a state the protocol reaches |
| Assess.OrderSections | internal/assess/assess.go:315-342 | the nested loops compute the ordered report |
| Assess.OrderedSorts | internal/assess/assess.go:26-41 | the report is a permutation of the results, sorted by documented position and then by registration |
| Assess.DocumentedOrder | internal/assess/assess.go:26-41 | the documented positions, from ratings to research |
| Assess.OrderedIgnoresArrival | internal/assess/assess.go:310-342 | the same results in any arrival order give the same report |
| Assess.ReportIgnoresSchedule | internal/assess/assess.go:143-162 | two schedules under which every source is owed the same section end in the same report |
| Assess.Run | internal/assess/assess.go:143-162 | for every schedule the sections report on every source once and faithfully to some interleaving, by documented position and then registration; and the sources named as cached are exactly those whose section was |
| Fingerprint.ParsePreimage | internal/sources/codec.go:122-132 | the length-prefixed preimage decodes back to the list of identifiers it was written from |
| Fingerprint.HashInputs | internal/sources/codec.go:127-131 | feeding the hasher one field at a time hashes that preimage |
| Fingerprint.FingerprintExact | internal/sources/codec.go:114-132 | two fingerprints of a source are equal exactly when the identifier lists are, and only an unregistered source has the empty one |
| Fingerprint.InputsExact | internal/sources/codec.go:80-106 | two runs share a source's identifiers exactly when they share its domains, CPEs, packages or lookup names, and nothing else counts |
| Fingerprint.ListPackages | internal/sources/codec.go:83-89 | the package inputs are the texts of the packages in order |
| Fingerprint.PackageTextInjective | internal/sources/source.go:55 | with colon-free ecosystems a package's text determines the package, whatever colons its name holds |
| Fingerprint.PackageInputsInjective | internal/sources/codec.go:83-89 | for canonical ecosystems, equal package inputs mean equal package lists |
| Fingerprint.PackageTextNeedsCanonical | internal/sources/source.go:55 | an ecosystem with a colon in it would let two packages share a text |
| Fingerprint.NormalizePackageExact | internal/sources/llm.go:440-485 | a package is accepted exactly when it has a name and one of the known spellings of a registry, and becomes that registry's |
| Fingerprint.ResearchAsksMoreThanItsInputs | internal/sources/research.go:431-446 | one more alias always changes the research prompt, and leaves the fingerprint alone exactly when it normalises to nothing, to a name already there, or is the company as typed |
| Fingerprint.RespellingEscapes | internal/sources/codec.go:95-106 | so for every query and entity the canonical name, respelled as an alias, changes the prompt and not the fingerprint |
| Sources.EqualFingerprintSameFetch | internal/sources/codec.go:80-132 | for bitsight, nvd, osv, fedramp and caag, equal fingerprints mean the same requests in the same order and, whatever the replies, the same section, when both entities have canonical ecosystems |
| Sources.FetchIsStorable | internal/sources/codec.go:80-106 | what a deterministic source builds is always accepted by its own codec |
| BitSight.Fetch | internal/sources/bitsight.go:98-130 | the code as written makes the requests and builds the section of the function named: skipped without a domain or a company, failed on an error, else the picked company's rating |
| BitSight.FetchExact | internal/sources/bitsight.go:98-130 | the first non-blank domain is searched, the company picked is the one whose page is asked for, and the section is skipped, failed or OK exactly as the two replies say, repeating that page's rating and naming the other companies in order |
| BitSight.SelectedIsFirstExact | internal/sources/bitsight.go:281-308 | the company picked is the first whose own domain is the one searched for, and the first of all when there is none |
| BitSight.RatingIsCurrent | internal/sources/bitsight.go:336-376 | however the series arrives, date and band are those of an entry no other is later than, and a current rating overrules the entry's |
| FedRamp.Fetch | internal/sources/fedramp.go:143-165 | the code as written, its grouping and matching loops included, builds the section of the function named, with one request |
| FedRamp.LastAssignmentWins | internal/sources/fedramp.go:195-251 | however the assignments interleave, every field of a record is the value last assigned to it |
| FedRamp.RecordsExact | internal/sources/fedramp.go:195-251 | the records are those of the variables whose last values name a provider and an offering, one each with all its last values, and the page is refused exactly when they are too few |
| FedRamp.OfferingsExact | internal/sources/fedramp.go:254-275 | the offerings are the matching records in order, each naming the alias that matched unless the canonical name did |
| FedRamp.FetchExact | internal/sources/fedramp.go:143-165 | the section fails exactly without a readable listing of the expected size, and otherwise counts its records |
| FedRamp.SectionExact | internal/sources/fedramp.go:143-275 | the section holds a record of the listing exactly when its provider, normalised, is one of the vendor's names |
| CaAg.Fetch | internal/sources/caag.go:109-140 | the code as written searches at most four names, one after the other, stops at the first error, and builds the section of the function named |
| CaAg.UnrepeatedExact | internal/sources/caag.go:120-134 | the section keeps, in order, exactly the breaches without a report and the first breach of each report |
| CaAg.SectionExact | internal/sources/caag.go:109-140 | the first four names are searched, up to the first page that can not be read; the section is OK exactly when every page lists something or says that there is nothing, and lists every breach turned up, once per report |
| Vendor.StripSuffixes | internal/sources/fedramp.go:316-332 | exactly the trailing corporate suffixes go, and never the last word |
| Vendor.CollectVendorNames | internal/sources/fedramp.go:279-300 | the loop keeps the first spelling of every normalised name |
| Vendor.VendorNamesCover | internal/sources/fedramp.go:279-332 | no two lookup names mean the same vendor, and every nameable input is covered by one |
| Vendor.VendorNamesExact | internal/sources/fedramp.go:279-300 | the lookup names are the first of each meaning among canonical name, aliases and company, trimmed and in that order |
| Vendor.NormalizedWords | internal/sources/fedramp.go:303-332 | a normalised name is its words, letters and digits only, and does not end in a corporate suffix unless that is all there is |
| Vendor.NormalizeTwice | internal/sources/fedramp.go:303-332 | normalising again changes nothing |
| Store.NormalizeKeyExact | internal/store/store.go:409-411 | two names address one row exactly when they are the same words up to case |
| Store.EncodeExact | internal/sources/codec.go:174-262 | a section is encoded exactly for a registered source with identifiers and with its own kind of data or none, and decodes to itself without the cached mark |
| Store.Store.SetManual | internal/store/store.go:196-212 | the analyst's answer replaces whatever row the key had |
| Store.Store.ManualEntry | internal/store/store.go:168-190 | only an analyst's row is read back as an entry |
| Store.Store.PutSection | internal/store/store.go:282-309 | an encodable section is upserted unless an analyst holds the row, and success is reported exactly when it was |
| Store.Store.PutResolution | internal/store/store.go:368-402 | a cacheable resolution is upserted unless an analyst holds the row |
| Store.Store.CachedSection | internal/store/store.go:229-271 | a hit is an automated, fresh, decodable row recorded for the same fingerprint |
| Store.Store.CachedResolution | internal/store/store.go:320-362 | a hit is an automated, fresh, cacheable resolution |
| Store.ManualForever | internal/store/store.go:192-309 | after any sequence of writes a manual row is still manual, and unchanged if the writes were automated |
| Store.ManualEntryIsLastAnswer | internal/store/store.go:168-212 | after any run, reading an entry gives the last committed answer for that normalised key and when it was given |
| Cache.CachedSource.Fetch | internal/sources/cache.go:87-102 | a section is served exactly when the read is not bypassed and the table holds it; otherwise, bypassed or not, the source's own answer is returned and, if it is OK and no analyst holds the row, is what the table then holds; every other row is untouched |
| Cache.CachedSource.Lookup | internal/sources/cache.go:108-124 | what is read is precisely the OK section that the table holds for this question: a live automated row, recorded with the same inputs by that source |
| Cache.AlwaysTraced | internal/sources/cache.go:87-139 | however fetches interleave, each a read, an answer and a write with anything in between, every stored section copies an answer its source gave, and what a fetch holds is an OK answer |
| Cache.ServedIsAnAnswer | internal/sources/cache.go:87-139 | however fetches interleave, every section ever served is, apart from its cached mark, one the source returned as OK for the same company, service and identifiers, recorded within the lifetime before it was read |
| Cache.LiveWasReceived | internal/sources/cache.go:87-102 | a fetch that was not a hit returns, and hands to the cache, exactly what its own source said to it |
| Cache.AnalystKeepsTheRow | internal/store/store.go:282-309 | a row an analyst wrote, also while a fetch was between its read and its write, stays the analyst's and unchanged until an analyst writes again |
| Cache.FetchIsSteps | internal/sources/cache.go:87-139 | a fetch as written is its three steps with nothing in between |
| Cache.RecordedIsServed | internal/sources/cache.go:72-139 | an answer that was written, also by a bypassed fetch, is what the next fetch of the same question serves, however the names are spelled, until its lifetime has passed |
| Agreement.ServedIsWhatAFetchBuilds | internal/sources/cache.go:72-139 | however fetches interleave, a served section of a deterministic source is, apart from its cached mark, what a live fetch for this query and entity builds from the replies of the fetch that recorded it, with the same requests, within its lifetime |
| Agreement.BuiltIsServed | internal/sources/cache.go:72-139 | once a fetch that built an OK section has been written, bypassed or not, the next fetch of the same question is answered with that section until its lifetime has passed |
| Limiter.Limiter.Wait | internal/sources/nvd.go:533-556 | a caller gets the next slot, waits exactly until it, and leaves it taken when it gives up |
| Limiter.SlotsEarliest | internal/sources/nvd.go:533-556 | every slot is the earliest time that is not before its caller and an interval after every earlier slot |
| Limiter.SlotsSpaced | internal/sources/nvd.go:533-556 | slots are pairwise at least an interval apart under any interleaving of callers |
| Limiter.PublishedLimits | internal/sources/nvd.go:29-35 | any 30 s window holds at most 5 unkeyed slots, and at most 50 keyed ones |
| Nvd.FetchCves | internal/sources/nvd.go:352-390 | the loop computes the walk and the requests it makes, and leaves any server after at most as many as results wanted |
| Nvd.RequestsContinue | internal/sources/nvd.go:352-390 | each request starts where what has arrived ends, and asks for a full page or for what is still wanted |
| Nvd.CallsDecide | internal/sources/nvd.go:321-409 | the verdict on a match string depends on the service only through the calls listed for it |
| Nvd.WalkGathersItsPages | internal/sources/nvd.go:352-390 | an answered walk returns every page received, whole and in order, each request starting where the page before ended, and stopped at the limit, an empty page or the claimed total |
| Nvd.HonestWalk | internal/sources/nvd.go:352-390 | against contiguous non-empty slices of a list with its true total, the walk returns exactly the first entries up to the limit |
| Nvd.QueryAll | internal/sources/nvd.go:269-299 | the loop answers a prefix of the match strings and leaves the rest, stops for the list, the cap, the deadline or an error, keeps each CVE once, and makes the calls of every match string it asked |
| Nvd.Fetch | internal/sources/nvd.go:259-317 | the code as written, from the CVE pages and dictionary pages of every match string, makes the requests and builds the section of the function named |
| Nvd.FetchCallsExact | internal/sources/nvd.go:259-317 | the calls of a fetch are those of each match string queried, in order, and of the one that ended it, if any |
| Nvd.SectionReports | internal/sources/nvd.go:259-317 | unless an error other than the deadline occurs, queried and unqueried together are exactly the distinct match strings in order; a section whose queries are all unverified fails; an OK one holds each CVE once, by score descending and then id, cites each, and counts them by severity |
| NvdAnswer.HonestVerdict | internal/sources/nvd.go:321-409 | against honest servers a match string has CVEs exactly when its list is not empty, else is listed exactly when the dictionary holds a row for it, and its CVEs are the first entries up to the limit |
| NvdAnswer.SuggestionsExact | internal/sources/nvd.go:321-349 | only an unknown product comes with suggestions, and they are exactly the products on its vendor's page |
| NvdAnswer.HonestSection | internal/sources/nvd.go:259-419 | against honest servers every match string up to the cap is queried and truly judged, the section is OK exactly when one of them is real, and its CVE ids are exactly those of the first entries, up to the limit, of each list |
| Nvd.CountSeverities | internal/sources/nvd.go:654-671 | each of four counts is the number of CVEs whose severity is that word up to case, and the fifth that of all others |
| Sequences.SortKeepsKeys | internal/sources/nvd.go:675-682 | sorting CVEs, or catalogue tokens, loses, repeats and invents none |
| Osv.QueryPackage | internal/sources/osv.go:169-191 | the loop computes the walk of its page tokens, and sends at most five |
| Osv.TokensDecide | internal/sources/osv.go:169-191 | the walk depends on the service only through its replies to the tokens sent |
| Osv.FollowGathersItsPages | internal/sources/osv.go:169-191 | each request carries the token before it, every advisory received is returned in order, and truncation is reported exactly when the fifth page still carried a token |
| Osv.HonestPages | internal/sources/osv.go:169-191 | against a server holding a list of pages, the first five are returned and more are reported |
| Osv.Fetch | internal/sources/osv.go:125-166 | the code as written queries the packages in order, stops at the first error, and builds the section of the function named |
| Osv.SectionSound | internal/sources/osv.go:125-166 | the section is OK exactly when every package's walk was answered; it then has one outcome per package in order, with its advisory count and whether more were left, and each advisory once as first surfaced, by rating and then id, counted by rating and cited |
| Osv.SectionNamed | internal/sources/osv.go:290-300 | every advisory of an OK section has an id and names a package that was asked about |
| Osv.FetchCallsExact | internal/sources/osv.go:125-191 | the calls of a fetch are those of each package's walk, in order, up to and including the first that failed |
| OsvAnswer.HonestSection | internal/sources/osv.go:125-191 | against a service that hands out each package's pages in turn the section is OK, each outcome counts the first five pages and says whether there were more, and the ids are exactly those on these pages |
| OsvAnswer.AdvisoryExact | internal/sources/osv.go:290-343 | an advisory carries its CVE aliases and the first vector of revision 4, or else of revision 3 |
| Dictionary.ParseRows | internal/sources/nvd.go:867-901 | a page with a malformed row is an error; otherwise its distinct product tokens, sorted |
| Text.EqualFoldExact | internal/sources/nvd.go:90-99 | a token is listed in another spelling exactly when the two differ by the case of letters and nothing else |
| Dictionary.ProductsExact | internal/sources/nvd.go:861-901 | the catalogue lists the product of every row and nothing else, once each |
| Dictionary.VendorProductsExact | internal/sources/nvd.go:435-489 | the first page stands when it is an error, is all there is, or there is no keyword; otherwise the keyword's page does, errors included, unless it finds nothing; and a page's catalogue is exactly the fifth components of its rows, sorted |
| Dictionary.NarrowingKeepsExistence | internal/sources/nvd.go:435-489 | narrowing by keyword never turns a registered vendor into an unknown one, and a complete unnarrowed catalogue read every row claimed |
| Proposal.NormalizeDomainExact | internal/sources/llm.go:405-425 | a domain is accepted exactly when it is two or more non-empty labels without URL characters, once trimmed, lowered and freed of a final dot |
| Proposal.FinalDotDropped | internal/sources/llm.go:405-425 | a hostname stands for itself with or without one final dot, and is refused with two |
| Proposal.ParseResolution | internal/sources/llm.go:320-381 | the reply is validated field by field, and a reply without a name is an error |
| Proposal.ParsedIsSound | internal/sources/llm.go:315-381 | domains, CPEs, vendor tokens and packages that pass have the shape their source needs |
| Proposal.ParsedExact | internal/sources/llm.go:320-381 | each part of the entity is what is valid in its own part of the reply, in order, and a note is there exactly for what is not valid |
| Proposal.NothingDroppedSilently | internal/sources/llm.go:194-197 | every identifier the model returned is in the entity or named as dropped |
| Grounding.VendorCandidates | internal/sources/resolve_cpe.go:198-222 | the first two distinct prefixes, the model's own vendors before those its CPEs imply |
| Grounding.Draft.FindVendor | internal/sources/resolve_cpe.go:155-194 | the first registered candidate, or what its absence or an unreachable dictionary makes of the resolution |
| Grounding.ConfirmedCpes | internal/sources/resolve_cpe.go:225-238 | exactly the proposed CPEs of the catalogue's vendor whose product it lists, in order |
| Grounding.UnconfirmedNotes | internal/sources/resolve_cpe.go:241-249 | one note for each proposed CPE left behind |
| Grounding.PartitionSelection | internal/sources/resolve_cpe.go:257-282 | choices in the catalogue's spelling, each once, and the ones it does not list |
| Grounding.PickSpells | internal/sources/resolve_cpe.go:263-271 | a choice matches exactly when the catalogue lists it up to case, and the match is the catalogue's own token |
| Choice.ChosenExact | internal/sources/resolve_cpe.go:115-145 | the accepted products are the catalogue's spellings of the choices first listed, in order; the CPEs are built from the first eight, and exactly those after the eighth are named as over the limit |
| Grounding.Draft.Choose | internal/sources/resolve_cpe.go:108-147 | the selection path: drop and name the proposed CPEs, partition, cut at the limit, build |
| Grounding.Draft.GroundCpes | internal/sources/resolve_cpe.go:85-148 | every path through grounding, as one function of the dictionary, the choice and the proposal |
| Paths.GroundedExact | internal/sources/resolve_cpe.go:85-194 | grounding touches only CPEs, notes and origin; the origin says which vendor was the first registered, that none was or that one could not be read, whether proposed CPEs were confirmed, and which CPEs are left in each case |
| Paths.NarrowedIsConfirmed | internal/sources/nvd.go:435-456 | a proposed CPE of a vendor too large for one page, whose product only the keyword's page lists, is confirmed |
| Ceiling.ParsedIsProposed | internal/sources/llm.go:320-381 | what validation yields meets everything grounding relies on |
| Ceiling.BuiltShape | internal/sources/resolve_cpe.go:141-145 | a product of a well-formed vendor prefix becomes a well-formed CPE exactly when it is not empty, `*` or `-` |
| Ceiling.NoCandidatesNoCpes | internal/sources/resolve_cpe.go:155-161 | with no vendor to look up there was no proposed CPE to lose |
| Ceiling.CatalogueCeiling | internal/sources/resolve_cpe.go:85-148 | unless the dictionary was unreachable, every CPE left is well formed, listed in the catalogue of its vendor, and of the vendor the origin names; chosen CPEs have pairwise distinct match strings, at most eight, as many as NVD will query by default |
| Ceiling.CapNeverCuts | internal/sources/resolve_cpe.go:47-52 | a default-configured NVD leaves a chosen CPE unqueried only because a match string was not answered |
| Ceiling.ProposedAccounted | internal/sources/resolve_cpe.go:85-194 | on every path each proposed CPE is kept or named in the notes, and no earlier note is lost |
| Ceiling.RejectionsAreTrue | internal/sources/resolve_cpe.go:85-112 | a CPE is rejected in a vendor's name only when that vendor's catalogue was the one consulted and does not confirm it, and it is its product that is said to be missing exactly when no CPE was confirmed |
| Ceiling.RejectionTrueExactly | internal/sources/resolve_cpe.go:108-112 | of any proposed CPE, of that vendor or another, "product not registered" is true, whatever the dictionary holds beyond the page it sent, exactly when the page was complete, was not narrowed, and does not list the product |
| Ceiling.LeftBehindTrueExactly | internal/sources/resolve_cpe.go:241-249 | of a CPE left behind, "not registered" is true exactly when it is another vendor's or the page was complete and not narrowed |
| Ceiling.ProductNoteCanBeFalse | internal/sources/resolve_cpe.go:108-112 | with the vendor okta, a proposed operating system of Okta's and an application of that name in the dictionary, the page is whole and lists the product the note says is missing |
| Ceiling.ProductNoteCanBeHasty | internal/sources/resolve_cpe.go:108-112 | with a page that sends one of two rows, the product the note says is missing may be in the other |
| Ceiling.OrphansAreTrue | internal/sources/resolve_cpe.go:181-193 | a CPE is said to have an unknown vendor only when every vendor tried was answered and none is registered |
| Ceiling.OrphanNoteTrueExactly | internal/sources/resolve_cpe.go:181-193 | of a proposed CPE this is true, whatever the dictionary replies, exactly when its own vendor was among those tried |
| Ceiling.OrphanNoteCanBeFalse | internal/sources/resolve_cpe.go:187-189 | with the vendors aa and bb and a dictionary that holds just the proposed Okta CPE, Okta is said to be unknown |
| Ceiling.InventedExactly | internal/sources/resolve_cpe.go:123-130 | a choice is named as invented exactly when it is not blank and the catalogue lists it in no spelling |
| Ceiling.ChoiceFate | internal/sources/resolve_cpe.go:115-145 | a non-blank choice becomes a CPE or is named as invented or over the limit, unless it spelled a wildcard the catalogue lists |
| Ceiling.AllChoicesAccounted | internal/sources/resolve_cpe.go:115-145 | every possible choice from a catalogue is accounted for if and only if the catalogue lists neither `*` nor `-` |
| Pipeline.CpesVerified | internal/assess/assess.go:62-74 | the verdict is known exactly when the first NVD section has queries, and positive exactly when one of them was verified |
| Pipeline.VerdictOf | internal/assess/assess.go:53-74 | a known verdict is positive exactly when a query of an NVD section was verified |
| Pipeline.VerdictIgnoresOrder | internal/assess/assess.go:62-74 | with one NVD section the verdict does not depend on the order of the report |
| Pipeline.FanOutDecidesPinning | internal/assess/run.go:236-261 | of everything a fan-out reports, in whatever order, only NVD's own section decides whether the mapping is pinned, and an NVD that was not heard in time decides as no verdict |
| Pipeline.Runner.Resolve | internal/assess/run.go:198-228 | the run starts from a stored mapping exactly when the table holds a fresh one, it may be read and the cache is not bypassed; otherwise from the model's answer, or not at all |
| Pipeline.Runner.RecordResolution | internal/assess/run.go:236-261 | the mapping's row becomes the run's mapping exactly when it was resolved afresh, its CPEs not overridden, it is cacheable and NVD did not refute it; every other row is untouched |
| Pipeline.Runner.Run | internal/assess/run.go:133-191 | a blank company or service, or a failed resolution, is an error that leaves the table alone; a bypassed run always uses what the model said; otherwise NVD's section is served or fetched and recorded as its cache settles it, the other sections follow, and the mapping's row is settled as above |
| Pipeline.OverridesReachTheirSource | internal/assess/run.go:156-170 | whatever the services reply, NVD makes the requests and section of the analyst's CPEs, BitSight those of the analyst's domain, and every other source those of the mapping |
| Pipeline.RunIsActions | internal/assess/run.go:133-191 | a run, with NVD configured or switched off, is one of the machine's runs: its steps, taken together, leave the same table and the same result |
| Pipeline.FetchedOnTopic | internal/assess/run.go:242-251 | after any interleaving of runs, whatever a fetch of NVD returned is about the CPEs it was given, even when another run recorded it |
| Pipeline.StoredMappingsAreEarned | internal/assess/run.go:230-261 | after any interleaving of runs, and of the steps of their fetches, every stored mapping is cacheable, is the model's own answer to an uncached run without a CPE override, and NVD, if it judged, judged exactly its CPEs and did not find them all invented |
| Pipeline.PinnedIsReused | internal/assess/run.go:193-228 | a pinned mapping is what the next run starts from while it is fresh, however the names are spelled |
| Cpe.CpeMatchStrings | internal/sources/nvd.go:585-601 | the loops compute the match strings of a CPE list |
| Cpe.MatchStringsExact | internal/sources/nvd.go:585-601 | the match strings are those of the listed CPEs, each at the place of the first CPE that reduces to it |
| Cpe.MatchStringExact | internal/sources/nvd.go:585-601 | a text has a match string exactly when its fifth component is there and not empty, and it is the first five components |
| Cpe.NormalizeCpeExact | internal/sources/llm.go:508-532 | a CPE is accepted exactly when it is well formed once trimmed and lowered, and unchanged otherwise |
| Cpe.VendorTokenExact | internal/sources/llm.go:394-403 | a vendor is accepted exactly when it is a bare token once trimmed and lowered |
| Cpe.OverrideIdempotent | internal/sources/llm.go:487-500 | an accepted override is well formed, and giving it back yields itself |
| Cpe.ShortFormAccepted | internal/sources/llm.go:487-500 | the five-component form is accepted exactly when its own components are sound |
| Cpe.ShortFormRoundTrip | internal/sources/nvd.go:580-601 | reducing a padded short form to its match string gives the short form back |
| Cpe.MatchStringOfWellFormed | internal/sources/nvd.go:585-601 | a well-formed CPE always has a match string, its first five components |
| Handoff.ParseCpes | internal/web/web.go:167-179 | accepted and rejected entries, in order, blanks skipped |
| Handoff.Assess | internal/web/web.go:90-127 | a form is refused exactly for a blank name or an entry that is neither blank nor a CPE; otherwise the stream handler reads back its words, trimmed, its CPEs in order, and whether its box was ticked |
| Handoff.OverrideSurvives | internal/web/web.go:96-121 | the accepted CPEs joined by commas are parsed again to the same list with nothing rejected |
| EventStream.EventWriter.Retry | internal/web/sse.go:154-157 | writes the delay as one field and a blank line, and flushes |
| EventStream.EventWriter.Send | internal/web/sse.go:165-172 | writes the event's lines, one data line per payload line, and flushes |
| EventStream.Stream | internal/web/sse.go:33-92 | the delay, the entity, each section as it lands, the report, and the end; or the error and the end |
| EventStream.StreamSurvives | internal/web/sse.go:154-172 | read by a conforming parser, the stream of one retry and any sends yields the delay and exactly the sent events in order, losing only carriage returns that end a payload's lines |
| EventStream.CrFreeIsWhole | internal/web/sse.go:159-172 | a payload without carriage returns arrives whole, also when it is empty |
| EventStream.SendRoundTrips | internal/web/sse.go:165-172 | one send arrives as exactly that event if and only if its name is a non-empty line and its payload has no carriage return |
| EventStream.BrowserSees | internal/web/sse.go:33-92 | a browser sees the entity, every section in order, the report and the end, each with its own fragment; or the error and the end |
| Research.NewResultIndex | internal/sources/research_parse.go:216-224 | the loop builds the index of the search results by normalised URL, leaving out unusable URLs |
| Research.IndexIsIndexed | internal/sources/research_parse.go:216-224 | every entry is a search result filed under its own URL, and every usable result's URL has an entry |
| Checklist.LastResultWins | internal/sources/research_parse.go:216-224 | of several results with one URL the index holds the last |
| Research.Validator.Citations | internal/sources/research_parse.go:103-133 | the first two distinct results the URLs name, with a note for every unmatched URL looked at |
| Research.LookedExact | internal/sources/research_parse.go:103-133 | URLs are looked at exactly until two distinct results are found, and those are the ones cited |
| Checklist.CitedExact | internal/sources/research_parse.go:103-133 | the citations are the results named first and second, in the order of the URLs that first name them |
| Research.UnmatchedAreNamed | internal/sources/research_parse.go:107-118 | a URL is named as not in the results exactly when it was looked at, is not blank and has no match |
| Research.FindingsAreSupported | internal/sources/research_parse.go:85-100 | a claim is kept exactly when it is not blank and one of its URLs came from search, and then carries one or two distinct search results |
| Research.Validator.Judge | internal/sources/research_parse.go:140-159 | the three-valued answer and its evidence, with a note for every downgrade |
| Research.YesNeedsEvidence | internal/sources/research_parse.go:135-159 | an answer is yes exactly when evidence survived |
| Research.Validator.Lawsuits | internal/sources/research_parse.go:162-185 | the concluded and supported lawsuits, in order, and the notes about the rest |
| Research.Validator.Locations | internal/sources/research_parse.go:188-213 | the labelled and supported locations, in order, and the notes about the rest |
| Research.KeptItemsAreSound | internal/sources/research_parse.go:161-213 | a kept lawsuit has an outcome and a date, a kept location a label, and all of them evidence |
| Research.UncitedExactly | internal/sources/research_parse.go:85-100 | a claim is named as uncited exactly when it said something and was not kept |
| Research.DowngradesAreNamed | internal/sources/research_parse.go:140-159 | a downgraded yes, and an answer that is not one of the three, is named, and only those are |
| Research.LawsuitsAccounted | internal/sources/research_parse.go:162-185 | each lawsuit not kept is named as unconcluded or as uncited, exactly when it is, unless it said nothing |
| Research.LocationsAccounted | internal/sources/research_parse.go:188-213 | each location not kept is named as unlabelled or as uncited, exactly when it is, unless it said nothing |
| Research.ParseResearch | internal/sources/research_parse.go:30-69 | an undecodable reply is an error; otherwise the parsed checklist, the search results and all notes, as one function of the reply and the search results |
| Research.EveryFindingSupported | internal/sources/research_parse.go:9-69 | no finding anywhere in a parsed checklist stands without one or two distinct sources the search tool returned |
| Checklist.ResultExact | internal/sources/research_parse.go:30-69 | every field, item and answer of the checklist is what its own part of the reply amounts to: kept exactly when backed by search, with its own text and citations, a yes only if backed |
| Checklist.NotesExact | internal/sources/research_parse.go:30-69 | a note is among those of the result exactly when what it says is so at its own place of the reply |

## Left out

- Nvd.Fetch: the calls are those attempted, so a deadline that ends the limiter's wait is counted as a call although nothing is sent; the limiter is proved separately, and HTTP, JSON, CVSS metric selection and the wording of errors are not modelled.
- Limiter.Limiter.Wait: bounds the slots reserved, not the moment a timer fires.
- Pipeline.Runner.Run: is a run that nothing interrupts, while `Pipeline.StoredMappingsAreEarned` lets its steps interleave with anything; the fan-out appears as the sections it yields, NVD's first and alone through the cache; `Pipeline.FanOutDecidesPinning` covers its order and its expiry. Timeouts, contexts and progress callbacks are not modelled there.
- Pipeline.StoredMappingsAreEarned: covers safety over any interleaving, not that a run is ever finished.
- Assess.Run: does not model what an observer does.
- FanOut.RunOne: a panic's text is a parameter, and the wording of notes is not compared.
- Grounding.Draft.GroundCpes: notes and origins are values rather than sentences, and product titles, which only the prompt shows, are left out.
- Sources.EqualFingerprintSameFetch: a service's reply depends on the request alone, and limits and addresses are the configuration of the fetch that recorded the section; research, a model's word, is outside.
- NvdAnswer.HonestSection: assumes no row of the dictionary is malformed; what a malformed row does is in `Dictionary.ParseRows`.
- FedRamp.Fetch: starts from the assignments the page holds; the regular expression that finds them and string unescaping are left out.
- CaAg.Fetch: starts from the rows of a page; reading them off the HTML is left out.
- BitSight.Fetch: starts from the decoded company list and company page; tokens and status codes are left out.
- Osv.Fetch: starts from decoded pages; status codes are left out.
- EventStream.Stream: fragments are given as rendered text; templates, headers, the byte order mark and UTF-8 decoding are left out.
- Handoff.Assess: URL encoding is taken to be faithful.
- Research.ParseResearch: URL normalisation is an arbitrary function, and JSON decoding is a parameter.
- Dictionary.ParseRows: a product's title, which only the prompt shows, is left out.
- Store.Store.PutSection: SQL, connection pools, migrations and the JSON text of a row are left out; a statement is atomic, and may be lost or may commit without its acknowledgement arriving.
- Prompts, schemas and the Anthropic client: two oracles, the model's reply and its choice.
- Report rendering, the command line, configuration, secrets, manual sources' instructions: presentation and one-branch checks.
- Unicode: letter case, white space and field splitting are ASCII's.
