/**
 The one table. An analyst's rows and automated rows share its key; Postgres is a map whose upserts
 are atomic, with a clock of its own. JSON encoding is taken to be faithful.
 */
module Store {
  import opened Text
  import opened Sequences
  import opened Domain
  import Fingerprint

  const RESOLUTION := "resolution"

  function NormalizeKey(s: string): string {
    ToLower(Join(Fields(s), ' '))
  }

  /** Two names address one row exactly when they are the same words up to case. */
  lemma NormalizeKeyExact(a: string, b: string)
    ensures NormalizeKey(a) == NormalizeKey(b) <==> LowerAll(Fields(a)) == LowerAll(Fields(b))
    ensures NormalizeKey(NormalizeKey(a)) == NormalizeKey(a)
  {
    KeyWords(a);
    KeyWords(b);
    LowerTwice(Join(Fields(a), ' '));
    LowerJoin(Fields(a), ' ');
    LowerJoin(Fields(b), ' ');
  }

  /** The words of a key are the words of the name, lowered; normalising again finds nothing to do. */
  lemma KeyWords(s: string)
    ensures Fields(NormalizeKey(s)) == LowerAll(Fields(s))
    ensures NormalizeKey(s) == Join(LowerAll(Fields(s)), ' ')
  {
    FieldsJoin(Fields(s));
    FieldsLower(Join(Fields(s), ' '));
    LowerJoin(Fields(s), ' ');
  }

  datatype Key = Key(company: string, service: string, source: string)

  function KeyOf(company: string, service: string, source: string): Key {
    Key(NormalizeKey(company), NormalizeKey(service), source)
  }

  datatype Payload =
    | ManualPayload(value: string)
    | SectionPayload(section: Section, inputs: string)
    | ResolutionPayload(resolution: Resolution)

  datatype Row = Row(payload: Payload, fetchedAt: int, manual: bool)

  type Table = map<Key, Row>

  /** How a statement can go wrong: it never ran, or it committed and the answer was lost. */
  datatype Fault = Healthy | Lost | Unacknowledged

  datatype Lookup<+T> = Hit(value: T) | Miss | Unreadable

  datatype Recorded = Recorded(value: string, at: int)

  // --- Encoding -----------------------------------------------------------------------------

  /** The payload type registered for a source. */
  predicate CodecAccepts(source: string, data: Data) {
    match data
    case NoData => true
    case BitSightData(_) => source == Fingerprint.BITSIGHT
    case NvdData(_) => source == Fingerprint.NVD
    case OsvData(_) => source == Fingerprint.OSV
    case FedRampData(_) => source == Fingerprint.FEDRAMP
    case CaagData(_) => source == Fingerprint.CAAG
    case ResearchData(_) => source == Fingerprint.RESEARCH
  }

  /** The stored section does not carry how the run that wrote it obtained it. */
  function EncodeSection(section: Section, inputs: string): Option<Payload> {
    if !Fingerprint.CacheableSource(section.source) || inputs == "" || !CodecAccepts(section.source, section.data)
    then None
    else Some(SectionPayload(section.(cached := false), inputs))
  }

  /** A section is stored exactly for a registered source, with identifiers, and with that source's own data or none. */
  lemma EncodeExact(section: Section, inputs: string)
    ensures EncodeSection(section, inputs).Some? <==>
      && section.source in {"bitsight", "nvd", "osv", "fedramp", "caag", "llm_research"} && inputs != ""
      && (section.data.BitSightData? ==> section.source == "bitsight")
      && (section.data.NvdData? ==> section.source == "nvd")
      && (section.data.OsvData? ==> section.source == "osv")
      && (section.data.FedRampData? ==> section.source == "fedramp")
      && (section.data.CaagData? ==> section.source == "caag")
      && (section.data.ResearchData? ==> section.source == "llm_research")
    ensures EncodeSection(section, inputs).Some? ==>
      DecodeSection(section.source, EncodeSection(section, inputs).value) == Some((section.(cached := false), inputs))
  {}

  function DecodeSection(source: string, payload: Payload): Option<(Section, string)> {
    if Fingerprint.CacheableSource(source) && payload.SectionPayload? && payload.section.source == source
    then Some((payload.section, payload.inputs))
    else None
  }

  // --- The statements -----------------------------------------------------------------------

  function UpsertManual(rows: Table, now: int, key: Key, value: string): Table {
    rows[key := Row(ManualPayload(value), now, true)]
  }

  predicate HeldByAnalyst(rows: Table, key: Key) {
    key in rows && rows[key].manual
  }

  /** The automated upsert, guarded by WHERE NOT manual. */
  function Upsert(rows: Table, now: int, key: Key, payload: Payload): Table {
    if HeldByAnalyst(rows, key) then rows else rows[key := Row(payload, now, false)]
  }

  predicate Fresh(rows: Table, now: int, key: Key, ttl: int) {
    key in rows && !rows[key].manual && rows[key].fetchedAt > now - ttl
  }

  function ReadManual(rows: Table, key: Key): Option<Recorded> {
    if !HeldByAnalyst(rows, key) then None else
    Some(Recorded(if rows[key].payload.ManualPayload? then rows[key].payload.value else "", rows[key].fetchedAt))
  }

  function ReadSection(rows: Table, now: int, key: Key, ttl: int, inputs: string): Lookup<Section> {
    if ttl <= 0 || !Fresh(rows, now, key, ttl) then Miss else
    match DecodeSection(key.source, rows[key].payload)
    case None => Unreadable
    case Some((section, stored)) => if stored != inputs then Miss else Hit(section)
  }

  function ReadResolution(rows: Table, now: int, key: Key, ttl: int): Lookup<Resolution> {
    if ttl <= 0 || !Fresh(rows, now, key, ttl) then Miss
    else if !rows[key].payload.ResolutionPayload? then Unreadable
    else
      var res := rows[key].payload.resolution;
      if res.entity.canonicalName == "" then Unreadable
      else if !res.Cacheable() then Miss
      else Hit(res)
  }

  /** The row is the cache's own, fresh, and holds this mapping, which is one worth storing. */
  ghost predicate MappingHeld(rows: Table, now: int, key: Key, ttl: int, res: Resolution) {
    && ttl > 0 && key in rows && !rows[key].manual && rows[key].fetchedAt > now - ttl
    && rows[key].payload == ResolutionPayload(res) && res.entity.canonicalName != "" && res.entity.cpes != []
  }

  lemma MappingIsHeld(rows: Table, now: int, key: Key, ttl: int, res: Resolution)
    ensures ReadResolution(rows, now, key, ttl) == Hit(res) <==> MappingHeld(rows, now, key, ttl, res)
  {}

  class Store {
    var rows: Table
    var now: int

    constructor ()
      ensures rows == map[] && now == 0
    {
      rows, now := map[], 0;
    }

    method SetManual(company: string, service: string, source: string, value: string, fault: Fault)
      returns (ok: bool)
      modifies this`rows
      ensures ok <==> fault == Healthy
      ensures fault == Lost ==> rows == old(rows)
      ensures fault != Lost ==> rows == UpsertManual(old(rows), now, KeyOf(company, service, source), value)
    {
      if fault != Lost {
        rows := rows[KeyOf(company, service, source) := Row(ManualPayload(value), now, true)];
      }
      ok := fault == Healthy;
    }

    method ManualEntry(company: string, service: string, source: string) returns (entry: Option<Recorded>)
      ensures entry == ReadManual(rows, KeyOf(company, service, source))
    {
      var key := KeyOf(company, service, source);
      entry := None;
      if key in rows {
        var row := rows[key];
        if row.manual {
          entry := Some(Recorded(if row.payload.ManualPayload? then row.payload.value else "", row.fetchedAt));
        }
      }
    }

    /** The automated write: refused, without effect, when an analyst's entry holds the row. */
    method Write(key: Key, payload: Payload, fault: Fault) returns (ok: bool)
      modifies this`rows
      ensures rows == if fault == Lost then old(rows) else Upsert(old(rows), now, key, payload)
      ensures ok <==> fault == Healthy && !HeldByAnalyst(old(rows), key)
    {
      var affected := false;
      if fault != Lost && (key !in rows || !rows[key].manual) {
        rows := rows[key := Row(payload, now, false)];
        affected := true;
      }
      ok := fault == Healthy && affected;
    }

    method PutSection(
        company: string, service: string, source: string, section: Section, inputs: string, fault: Fault)
      returns (ok: bool)
      modifies this`rows
      ensures rows == SectionWritten(old(rows), now, KeyOf(company, service, source), section, inputs, fault)
      ensures ok <==> EncodeSection(section, inputs).Some? && fault == Healthy &&
                      !HeldByAnalyst(old(rows), KeyOf(company, service, source))
    {
      var payload := EncodeSection(section, inputs);
      if payload.None? {
        return false;
      }
      ok := Write(KeyOf(company, service, source), payload.value, fault);
    }

    method PutResolution(company: string, service: string, res: Resolution, fault: Fault) returns (ok: bool)
      modifies this`rows
      ensures rows == ResolutionWritten(old(rows), now, company, service, res, fault)
      ensures ok <==> res.Cacheable() && fault == Healthy &&
                      !HeldByAnalyst(old(rows), KeyOf(company, service, RESOLUTION))
    {
      if res.entity.canonicalName == "" {
        return false;
      }
      if !res.Cacheable() {
        return false;
      }
      ok := Write(KeyOf(company, service, RESOLUTION), ResolutionPayload(res), fault);
    }

    method CachedSection(company: string, service: string, source: string, ttl: int, inputs: string)
      returns (found: Lookup<Section>)
      ensures found == ReadSection(rows, now, KeyOf(company, service, source), ttl, inputs)
      ensures found.Hit? ==> !HeldByAnalyst(rows, KeyOf(company, service, source))
    {
      if ttl <= 0 {
        return Miss;
      }
      var key := KeyOf(company, service, source);
      if key !in rows || rows[key].manual || rows[key].fetchedAt <= now - ttl {
        return Miss;
      }
      match DecodeSection(source, rows[key].payload) {
        case None => return Unreadable;
        case Some((section, stored)) =>
          if stored != inputs {
            return Miss;
          }
          return Hit(section);
      }
    }

    method CachedResolution(company: string, service: string, ttl: int) returns (found: Lookup<Resolution>)
      ensures found == ReadResolution(rows, now, KeyOf(company, service, RESOLUTION), ttl)
      ensures found.Hit? ==> found.value.Cacheable() && !HeldByAnalyst(rows, KeyOf(company, service, RESOLUTION))
    {
      if ttl <= 0 {
        return Miss;
      }
      var key := KeyOf(company, service, RESOLUTION);
      if key !in rows || rows[key].manual || rows[key].fetchedAt <= now - ttl {
        return Miss;
      }
      if !rows[key].payload.ResolutionPayload? {
        return Unreadable;
      }
      var res := rows[key].payload.resolution;
      if res.entity.canonicalName == "" {
        return Unreadable;
      }
      if !res.Cacheable() {
        return Miss;
      }
      return Hit(res);
    }
  }

  function SectionWritten(rows: Table, now: int, key: Key, section: Section, inputs: string, fault: Fault): Table {
    match EncodeSection(section, inputs)
    case None => rows
    case Some(payload) => if fault == Lost then rows else Upsert(rows, now, key, payload)
  }

  function ResolutionWritten(
    rows: Table, now: int, company: string, service: string, res: Resolution, fault: Fault): Table
  {
    if !res.Cacheable() || fault == Lost then rows
    else Upsert(rows, now, KeyOf(company, service, RESOLUTION), ResolutionPayload(res))
  }

  // --- Runs ---------------------------------------------------------------------------------

  datatype Op =
    | SetManual(company: string, service: string, source: string, value: string, fault: Fault)
    | PutSection(company: string, service: string, source: string, section: Section, inputs: string, fault: Fault)
    | PutResolution(company: string, service: string, res: Resolution, fault: Fault)
    | Tick(elapsed: nat)

  datatype World = World(rows: Table, now: int)

  function Step(w: World, op: Op): World {
    match op
    case SetManual(c, s, source, value, fault) =>
      if fault == Lost then w else w.(rows := UpsertManual(w.rows, w.now, KeyOf(c, s, source), value))
    case PutSection(c, s, source, section, inputs, fault) =>
      w.(rows := SectionWritten(w.rows, w.now, KeyOf(c, s, source), section, inputs, fault))
    case PutResolution(c, s, res, fault) =>
      w.(rows := ResolutionWritten(w.rows, w.now, c, s, res, fault))
    case Tick(elapsed) => w.(now := w.now + elapsed)
  }

  function Run(w: World, ops: seq<Op>): World {
    if ops == [] then w else Step(Run(w, ops[..|ops| - 1]), ops[|ops| - 1])
  }

  predicate Automated(op: Op) {
    !op.SetManual?
  }

  /** An automated write that names this key. */
  predicate Addressed(op: Op, key: Key) {
    || (op.PutSection? && key == KeyOf(op.company, op.service, op.source))
    || (op.PutResolution? && key == KeyOf(op.company, op.service, RESOLUTION))
  }

  /** An automated write addressed to an analyst's row changes nothing at all. */
  lemma AutomatedWriteRefused(w: World, op: Op, key: Key)
    requires HeldByAnalyst(w.rows, key)
    requires Addressed(op, key)
    ensures Step(w, op) == w
  {}

  /** Once manual, manual forever: no sequence of writes gives the row back to the cache. */
  lemma {:induction false} ManualForever(w: World, ops: seq<Op>, key: Key)
    requires HeldByAnalyst(w.rows, key)
    ensures HeldByAnalyst(Run(w, ops).rows, key)
    ensures (forall op <- ops :: Automated(op)) ==> Run(w, ops).rows[key] == w.rows[key]
  {
    if ops != [] {
      var before, op := ops[..|ops| - 1], ops[|ops| - 1];
      ManualForever(w, before, key);
      if Addressed(op, key) {
        AutomatedWriteRefused(Run(w, before), op, key);
      }
      hide KeyOf;
      assert op in ops && forall earlier <- before :: earlier in ops;
    }
  }

  /** The analyst's last committed answer for a key, with the time it was given. */
  function LastAnswer(ops: seq<Op>, key: Key): Option<Recorded> {
    if ops == [] then None else
    var op := ops[|ops| - 1];
    if op.SetManual? && op.fault != Lost && KeyOf(op.company, op.service, op.source) == key
    then Some(Recorded(op.value, Clock(ops)))
    else LastAnswer(ops[..|ops| - 1], key)
  }

  function Clock(ops: seq<Op>): int {
    if ops == [] then 0 else
    Clock(ops[..|ops| - 1]) + if ops[|ops| - 1].Tick? then ops[|ops| - 1].elapsed else 0
  }

  const EMPTY := World(map[], 0)

  lemma {:induction false} ManualRowsHoldAnswers(ops: seq<Op>)
    ensures Run(EMPTY, ops).now == Clock(ops)
    ensures forall key <- Run(EMPTY, ops).rows ::
              Run(EMPTY, ops).rows[key].manual <==> Run(EMPTY, ops).rows[key].payload.ManualPayload?
  {
    if ops != [] {
      ManualRowsHoldAnswers(ops[..|ops| - 1]);
    }
  }

  /** Reading an analyst's entry gives the last answer recorded for that name, however it was spelled. */
  lemma {:induction false} ManualEntryIsLastAnswer(ops: seq<Op>, key: Key)
    ensures ReadManual(Run(EMPTY, ops).rows, key) == LastAnswer(ops, key)
  {
    ManualRowsHoldAnswers(ops);
    if ops != [] {
      var before, op := ops[..|ops| - 1], ops[|ops| - 1];
      ManualRowsHoldAnswers(before);
      ManualEntryIsLastAnswer(before, key);
      assert Run(EMPTY, ops) == Step(Run(EMPTY, before), op);
    }
  }
}
