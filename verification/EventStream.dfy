/**
 The server-sent event writer, against the stream parser of the WHATWG HTML Living Standard: lines
 as in section 9.2.5, their interpretation as in section 9.2.6.
 */
module EventStream {
  import opened Text
  import opened Sequences
  import opened Fingerprint

  // --- The writer -----------------------------------------------------------------------------

  function TrimCr(line: string): string {
    if line != [] && line[|line| - 1] == '\r' then TrimCr(line[..|line| - 1]) else line
  }

  function TrimAllCr(lines: seq<string>): (trimmed: seq<string>)
    ensures |trimmed| == |lines|
  {
    seq(|lines|, i requires 0 <= i < |lines| => TrimCr(lines[i]))
  }

  /** Each line, ended by a line feed. */
  function Written(lines: seq<string>): string {
    if lines == [] then "" else Written(lines[..|lines| - 1]) + lines[|lines| - 1] + "\n"
  }

  function FieldText(name: string, value: string): string {
    name + ": " + value
  }

  function DataLines(values: seq<string>): (lines: seq<string>)
    ensures |lines| == |values|
  {
    seq(|values|, i requires 0 <= i < |values| => FieldText("data", values[i]))
  }

  /** The lines of one event, the blank one that ends it included. */
  function EventLines(event: string, payload: string): seq<string> {
    [FieldText("event", event)] + DataLines(TrimAllCr(Split(payload, '\n'))) + [""]
  }

  function RetryLines(ms: nat): seq<string> {
    [FieldText("retry", Decimal(ms)), ""]
  }

  class EventWriter {
    var out: string      // what the response body holds
    var flushed: nat     // how much of it has left the server

    constructor ()
      ensures out == "" && flushed == 0
    {
      out, flushed := "", 0;
    }

    /** One line of the wire format, after the `lines` written since `before`. */
    method WriteLine(line: string, ghost before: string, ghost lines: seq<string>)
      requires out == before + Written(lines)
      modifies this`out
      ensures out == before + Written(lines + [line])
    {
      AppendLine(before, lines, line);
      out := out + line + "\n";
    }

    method Retry(ms: nat)
      modifies this
      ensures out == old(out) + Written(RetryLines(ms)) && flushed == |out|
    {
      ghost var first := [FieldText("retry", Decimal(ms))];
      WriteLine(FieldText("retry", Decimal(ms)), out, []);
      assert [] + first == first;
      WriteLine("", old(out), first);
      assert first + [""] == RetryLines(ms);
      flushed := |out|;
    }

    /** Appends the lines of one event, blank line included, and leaves nothing unflushed. */
    method Send(event: string, payload: string)
      modifies this
      ensures out == old(out) + Written(EventLines(event, payload)) && flushed == |out|
    {
      ghost var head := [FieldText("event", event)];
      WriteLine(FieldText("event", event), out, []);
      assert [] + head == head;
      var lines := Split(payload, '\n');
      ghost var data := DataLines(TrimAllCr(lines));
      assert head + data[..0] == head;
      for i := 0 to |lines|
        invariant out == old(out) + Written(head + data[..i])
      {
        WriteLine(FieldText("data", TrimCr(lines[i])), old(out), head + data[..i]);
        assert (head + data[..i]) + [data[i]] == head + data[..i + 1];
      }
      assert data[..|lines|] == data;
      WriteLine("", old(out), head + data);
      flushed := |out|;
    }
  }

  lemma AppendLine(before: string, lines: seq<string>, line: string)
    ensures before + Written(lines) + line + "\n" == before + Written(lines + [line])
  {
    WrittenOneMore(lines, line);
  }

  lemma WrittenOneMore(lines: seq<string>, line: string)
    ensures Written(lines + [line]) == Written(lines) + line + "\n"
  {
    assert (lines + [line])[..|lines|] == lines;
  }

  // --- The parser -----------------------------------------------------------------------------

  function LineEnd(s: string): (k: nat)
    ensures k <= |s|
    ensures '\r' !in s[..k] && '\n' !in s[..k]
    ensures k < |s| ==> s[k] == '\n' || s[k] == '\r'
  {
    if s == [] || s[0] == '\n' || s[0] == '\r' then 0 else
    var k := 1 + LineEnd(s[1..]);
    assert s[..k] == [s[0]] + s[1..][..k - 1];
    k
  }

  /** The complete lines of a stream: each ends with a line feed, a carriage return, or the pair. */
  function Lines(s: string): (lines: seq<string>)
    ensures forall line <- lines :: '\r' !in line && '\n' !in line
  {
    var k := LineEnd(s);
    if k == |s| then []
    else if s[k] == '\r' && k + 1 < |s| && s[k + 1] == '\n' then [s[..k]] + Lines(s[k + 2..])
    else [s[..k]] + Lines(s[k + 1..])
  }

  datatype Event = Event(kind: string, data: string, id: string)

  /** The buffers of the interpreter, the reconnection time, and the events dispatched so far. */
  datatype Reader = Reader(kind: string, data: string, id: string, retry: Option<int>, events: seq<Event>)

  const FRESH := Reader("", "", "", None, [])

  function Dispatch(r: Reader): Reader {
    if r.data == "" then r.(kind := "") else
    var data := if r.data[|r.data| - 1] == '\n' then r.data[..|r.data| - 1] else r.data;
    r.(kind := "", data := "", events := r.events + [Event(if r.kind == "" then "message" else r.kind, data, r.id)])
  }

  function Process(r: Reader, name: string, value: string): Reader {
    if name == "event" then r.(kind := value)
    else if name == "data" then r.(data := r.data + value + "\n")
    else if name == "id" then (if '\0' in value then r else r.(id := value))
    else if name == "retry" then (if value != "" && Digits(value) then r.(retry := Some(Value(value))) else r)
    else r
  }

  function WithoutSpace(value: string): string {
    if value != [] && value[0] == ' ' then value[1..] else value
  }

  function Interpret(r: Reader, line: string): Reader {
    if line == "" then Dispatch(r)
    else if line[0] == ':' then r
    else
      var k := UntilColon(line);
      Process(r, line[..k], if k == |line| then "" else WithoutSpace(line[k + 1..]))
  }

  function InterpretAll(r: Reader, lines: seq<string>): Reader {
    if lines == [] then r else Interpret(InterpretAll(r, lines[..|lines| - 1]), lines[|lines| - 1])
  }

  /** What an event source makes of a whole stream. */
  function Read(stream: string): Reader {
    InterpretAll(FRESH, Lines(stream))
  }

  // --- Lines survive --------------------------------------------------------------------------

  predicate OneLine(s: string) {
    '\r' !in s && '\n' !in s
  }

  lemma {:induction false} LineEndAt(line: string, rest: string)
    requires OneLine(line)
    ensures LineEnd(line + "\n" + rest) == |line|
  {
    var s := line + "\n" + rest;
    if line != [] {
      assert s[1..] == line[1..] + "\n" + rest;
      LineEndAt(line[1..], rest);
    }
  }

  lemma LinesOfLine(line: string, rest: string)
    requires OneLine(line)
    ensures Lines(line + "\n" + rest) == [line] + Lines(rest)
  {
    var s := line + "\n" + rest;
    LineEndAt(line, rest);
    assert s[..|line|] == line && s[|line| + 1..] == rest;
  }

  lemma WrittenThen(lines: seq<string>, line: string, rest: string)
    ensures Written(lines + [line]) + rest == Written(lines) + (line + "\n" + rest)
  {
    WrittenOneMore(lines, line);
  }

  /** Lines without carriage returns are read back as written. */
  lemma {:induction false} LinesOfWritten(lines: seq<string>, rest: string)
    requires forall line <- lines :: OneLine(line)
    ensures Lines(Written(lines) + rest) == lines + Lines(rest)
  {
    if lines == [] {
      assert Written(lines) + rest == rest;
    } else {
      var init, last := lines[..|lines| - 1], lines[|lines| - 1];
      WrittenThen(init, last, rest);
      assert init + [last] == lines;
      LinesOfWritten(init, last + "\n" + rest);
      LinesOfLine(last, rest);
      Regroup(init, [last], Lines(rest));
    }
  }

  lemma LinesWritten(lines: seq<string>)
    requires forall line <- lines :: OneLine(line)
    ensures Lines(Written(lines)) == lines
  {
    LinesOfWritten(lines, "");
    assert Written(lines) + "" == Written(lines);
  }

  lemma InterpretOne(r: Reader, line: string)
    ensures InterpretAll(r, [line]) == Interpret(r, line)
  {
    assert [line][..0] == [];
  }

  lemma {:induction false} InterpretAppend(r: Reader, a: seq<string>, b: seq<string>)
    ensures InterpretAll(r, a + b) == InterpretAll(InterpretAll(r, a), b)
  {
    if b == [] {
      assert a + b == a;
    } else {
      InterpretAppend(r, a, b[..|b| - 1]);
      assert (a + b)[..|a + b| - 1] == a + b[..|b| - 1];
    }
  }

  lemma FieldLine(r: Reader, name: string, value: string)
    requires name != "" && ':' !in name
    ensures Interpret(r, FieldText(name, value)) == Process(r, name, value)
  {
    var line := FieldText(name, value);
    assert line == name + ":" + (" " + value);
    UntilColonAt(name, " " + value);
    assert line[..|name|] == name && line[|name| + 1..] == " " + value;
    assert (" " + value)[1..] == value;
  }

  lemma NameHeard(r: Reader, event: string)
    ensures InterpretAll(r, [FieldText("event", event)]) == r.(kind := event)
  {
    InterpretOne(r, FieldText("event", event));
    FieldLine(r, "event", event);
  }

  lemma DataHeard(r: Reader, value: string)
    ensures Interpret(r, FieldText("data", value)) == Buffer(r, value)
  {
    FieldLine(r, "data", value);
  }

  lemma DelayHeard(r: Reader, ms: nat)
    ensures InterpretAll(r, [FieldText("retry", Decimal(ms))]) == r.(retry := Some(ms as int))
  {
    InterpretOne(r, FieldText("retry", Decimal(ms)));
    FieldLine(r, "retry", Decimal(ms));
    DecimalValue(ms);
  }

  function Buffered(r: Reader, values: seq<string>): Reader {
    r.(data := r.data + Written(values))
  }

  function Buffer(r: Reader, value: string): Reader {
    r.(data := r.data + value + "\n")
  }

  lemma BufferedOneMore(r: Reader, values: seq<string>, value: string)
    ensures Buffer(Buffered(r, values), value) == Buffered(r, values + [value])
  {
    AppendLine(r.data, values, value);
  }

  /** Lines that each add their value to the data buffer together add all of them. */
  lemma {:induction false} Accumulates(r: Reader, lines: seq<string>, values: seq<string>)
    requires |lines| == |values|
    requires forall i, q :: 0 <= i < |lines| ==> Interpret(q, lines[i]) == Buffer(q, values[i])
    ensures InterpretAll(r, lines) == Buffered(r, values)
  {
    if values == [] {
      assert r.data + "" == r.data;
    } else {
      var n := |values| - 1;
      Accumulates(r, lines[..n], values[..n]);
      BufferedOneMore(r, values[..n], values[n]);
      assert values[..n] + [values[n]] == values;
    }
  }

  lemma DataAccumulates(r: Reader, values: seq<string>)
    ensures InterpretAll(r, DataLines(values)) == Buffered(r, values)
  {
    forall i, q | 0 <= i < |values| ensures Interpret(q, DataLines(values)[i]) == Buffer(q, values[i]) {
      DataHeard(q, values[i]);
    }
    Accumulates(r, DataLines(values), values);
  }

  lemma {:induction false} WrittenIsJoin(values: seq<string>)
    requires values != []
    ensures Written(values) == Join(values, '\n') + "\n"
  {
    if |values| == 1 {
      assert values[..0] == [];
    } else {
      var init, last := values[..|values| - 1], values[|values| - 1];
      WrittenIsJoin(init);
      JoinAppend(init, [last], '\n');
      assert init + [last] == values;
    }
  }

  // --- Events survive -------------------------------------------------------------------------

  /** The payload without the carriage returns that end its lines. */
  function Delivered(payload: string): string {
    Join(TrimAllCr(Split(payload, '\n')), '\n')
  }

  /** Every carriage return of the payload stands at the end of one of its lines. */
  predicate CrOnlyAtLineEnds(payload: string) {
    forall line <- Split(payload, '\n') :: '\r' !in TrimCr(line)
  }

  predicate Nameable(event: string) {
    event != "" && OneLine(event)
  }

  lemma {:induction false} TrimCrKeeps(line: string)
    ensures forall c <- TrimCr(line) :: c in line
    ensures '\r' !in line ==> TrimCr(line) == line
    ensures TrimCr(line) <= line && forall i :: |TrimCr(line)| <= i < |line| ==> line[i] == '\r'
    ensures TrimCr(line) != [] ==> TrimCr(line)[|TrimCr(line)| - 1] != '\r'
  {
    if line != [] && line[|line| - 1] == '\r' {
      TrimCrKeeps(line[..|line| - 1]);
    }
  }

  lemma EventLinesAreLines(event: string, payload: string)
    requires OneLine(event) && CrOnlyAtLineEnds(payload)
    ensures forall line <- EventLines(event, payload) :: OneLine(line)
  {
    var lines := Split(payload, '\n');
    forall i | 0 <= i < |lines| ensures OneLine(FieldText("data", TrimCr(lines[i]))) {
      assert lines[i] in lines;
      TrimCrKeeps(lines[i]);
    }
  }

  lemma DispatchDelivers(r: Reader, data: string)
    requires r.kind != "" && r.data == data + "\n"
    ensures Dispatch(r) == r.(kind := "", data := "", events := r.events + [Event(r.kind, data, r.id)])
  {
    assert r.data[..|r.data| - 1] == data;
  }

  lemma EventDelivered(r: Reader, event: string, payload: string)
    requires r.kind == "" && r.data == "" && event != ""
    ensures InterpretAll(r, EventLines(event, payload)) ==
            r.(events := r.events + [Event(event, Delivered(payload), r.id)])
  {
    var values := TrimAllCr(Split(payload, '\n'));
    var head, data := [FieldText("event", event)], DataLines(values);
    InterpretAppend(r, head + data, [""]);
    InterpretAppend(r, head, data);
    NameHeard(r, event);
    var named := r.(kind := event);
    DataAccumulates(named, values);
    WrittenIsJoin(values);
    var full := named.(data := Delivered(payload) + "\n");
    assert "" + Written(values) == full.data;
    InterpretOne(full, "");
    DispatchDelivers(full, Delivered(payload));
  }

  datatype Sent = Sent(event: string, payload: string)

  /** The stream of one `retry` and any list of sends. */
  function StreamLines(ms: nat, sends: seq<Sent>): seq<string> {
    if sends == [] then RetryLines(ms)
    else StreamLines(ms, sends[..|sends| - 1]) + EventLines(sends[|sends| - 1].event, sends[|sends| - 1].payload)
  }

  function Received(sends: seq<Sent>): (events: seq<Event>)
    ensures |events| == |sends|
  {
    seq(|sends|, i requires 0 <= i < |sends| => Event(sends[i].event, Delivered(sends[i].payload), ""))
  }

  lemma RetryHeard(ms: nat)
    ensures InterpretAll(FRESH, RetryLines(ms)) == Hearing(ms, [])
  {
    DelayHeard(FRESH, ms);
    InterpretAppend(FRESH, [FieldText("retry", Decimal(ms))], [""]);
    InterpretOne(FRESH.(retry := Some(ms as int)), "");
    assert RetryLines(ms) == [FieldText("retry", Decimal(ms))] + [""];
  }

  lemma RetryLinesAreLines(ms: nat)
    ensures forall line <- RetryLines(ms) :: OneLine(line)
  {
    DecimalValue(ms);
  }

  lemma {:induction false} StreamLinesAreLines(ms: nat, sends: seq<Sent>)
    requires forall s <- sends :: Nameable(s.event) && CrOnlyAtLineEnds(s.payload)
    ensures forall line <- StreamLines(ms, sends) :: OneLine(line)
  {
    if sends == [] {
      RetryLinesAreLines(ms);
    } else {
      var last := sends[|sends| - 1];
      StreamLinesAreLines(ms, sends[..|sends| - 1]);
      EventLinesAreLines(last.event, last.payload);
    }
  }

  function Hearing(ms: nat, sends: seq<Sent>): Reader {
    FRESH.(retry := Some(ms as int), events := Received(sends))
  }

  lemma HearOneMore(ms: nat, sends: seq<Sent>, s: Sent)
    requires s.event != ""
    ensures InterpretAll(Hearing(ms, sends), EventLines(s.event, s.payload)) == Hearing(ms, sends + [s])
  {
    EventDelivered(Hearing(ms, sends), s.event, s.payload);
    ReceivedSnoc(sends, s);
  }

  lemma {:induction false} StreamRead(ms: nat, sends: seq<Sent>)
    requires forall s <- sends :: s.event != ""
    ensures InterpretAll(FRESH, StreamLines(ms, sends)) == Hearing(ms, sends)
  {
    hide EventLines, RetryLines, Hearing;
    if sends == [] {
      RetryHeard(ms);
    } else {
      var init, last := sends[..|sends| - 1], sends[|sends| - 1];
      StreamRead(ms, init);
      InterpretAppend(FRESH, StreamLines(ms, init), EventLines(last.event, last.payload));
      HearOneMore(ms, init, last);
      assert init + [last] == sends;
    }
  }

  /**
   The browser sees the events that were sent, in order, and the delay that was asked for. The only
   loss is the carriage returns that ended a payload's lines.
   */
  lemma StreamSurvives(ms: nat, sends: seq<Sent>)
    requires forall s <- sends :: Nameable(s.event) && CrOnlyAtLineEnds(s.payload)
    ensures Read(Written(StreamLines(ms, sends))).retry == Some(ms as int)
    ensures Read(Written(StreamLines(ms, sends))).events == Received(sends)
  {
    StreamRead(ms, sends);
    StreamLinesAreLines(ms, sends);
    LinesWritten(StreamLines(ms, sends));
  }

  lemma {:induction false} TrimNothing(lines: seq<string>)
    requires forall line <- lines :: '\r' !in line
    ensures TrimAllCr(lines) == lines
  {
    forall i | 0 <= i < |lines| ensures TrimCr(lines[i]) == lines[i] {
      assert lines[i] in lines;
      TrimCrKeeps(lines[i]);
    }
  }

  /** A payload without carriage returns is delivered whole, whatever its line breaks, even if empty. */
  lemma CrFreeIsWhole(payload: string)
    requires '\r' !in payload
    ensures CrOnlyAtLineEnds(payload) && Delivered(payload) == payload
  {
    var lines := Split(payload, '\n');
    SplitFree(payload, '\n', '\r');
    JoinSplit(payload, '\n');
    TrimNothing(lines);
    forall line <- lines ensures '\r' !in TrimCr(line) {
      TrimCrKeeps(line);
    }
  }

  lemma {:induction false} SplitFree(s: string, sep: char, c: char)
    requires c !in s
    ensures forall part <- Split(s, sep) :: c !in part
  {
    if s != [] {
      SplitFree(s[1..], sep, c);
      var rest := Split(s[1..], sep);
      assert rest[0] in rest && c !in [s[0]] + rest[0];
    }
  }

  // --- And nothing else does ------------------------------------------------------------------

  /** No event read from any stream has a carriage return in it, or a type that is empty or not one line. */
  ghost predicate CleanReader(r: Reader) {
    && OneLine(r.kind) && '\r' !in r.data
    && forall e <- r.events :: '\r' !in e.data && Nameable(e.kind)
  }

  lemma InterpretIsClean(r: Reader, line: string)
    requires CleanReader(r) && OneLine(line)
    ensures CleanReader(Interpret(r, line))
  {
    if line == "" {
      assert OneLine("message");
    }
  }

  lemma {:induction false} ReadIsClean(lines: seq<string>)
    requires forall line <- lines :: OneLine(line)
    ensures CleanReader(InterpretAll(FRESH, lines))
  {
    if lines != [] {
      ReadIsClean(lines[..|lines| - 1]);
      InterpretIsClean(InterpretAll(FRESH, lines[..|lines| - 1]), lines[|lines| - 1]);
    }
  }

  /** One send arrives as exactly that event when, and only when, its name is one and its payload has no CR. */
  lemma SendRoundTrips(event: string, payload: string)
    ensures Read(Written(EventLines(event, payload))).events == [Event(event, payload, "")] <==>
            Nameable(event) && '\r' !in payload
  {
    var stream := Written(EventLines(event, payload));
    ReadIsClean(Lines(stream));
    if Nameable(event) && '\r' !in payload {
      CrFreeIsWhole(payload);
      EventLinesAreLines(event, payload);
      LinesWritten(EventLines(event, payload));
      EventDelivered(FRESH, event, payload);
    }
    assert Event(event, payload, "") in [Event(event, payload, "")];
  }

  // --- One assessment's stream ----------------------------------------------------------------

  const RETRY_MS: nat := 60000

  /** How the assessment went, with every fragment already rendered. */
  datatype Assessed = Refused(error: string) | Finished(entity: string, sections: seq<string>, report: string)

  function SectionEvents(sections: seq<string>): seq<Sent> {
    seq(|sections|, i requires 0 <= i < |sections| => Sent("section", sections[i]))
  }

  function Fragments(a: Assessed): seq<Sent> {
    match a
    case Refused(error) => [Sent("report", error)]
    case Finished(entity, sections, report) =>
      [Sent("entity", entity)] + SectionEvents(sections) + [Sent("report", report)]
  }

  function Streamed(a: Assessed): seq<Sent> {
    Fragments(a) + [Sent("done", "")]
  }

  lemma {:induction false} WrittenAppend(a: seq<string>, b: seq<string>)
    ensures Written(a + b) == Written(a) + Written(b)
  {
    if b == [] {
      assert a + b == a;
    } else {
      var init, last := b[..|b| - 1], b[|b| - 1];
      WrittenAppend(a, init);
      WrittenOneMore(a + init, last);
      AppendLine(Written(a), init, last);
      assert a + b == (a + init) + [last] && init + [last] == b;
    }
  }

  lemma StreamOneMore(ms: nat, sends: seq<Sent>, s: Sent)
    ensures Written(StreamLines(ms, sends + [s])) ==
            Written(StreamLines(ms, sends)) + Written(EventLines(s.event, s.payload))
  {
    assert (sends + [s])[..|sends|] == sends;
    WrittenAppend(StreamLines(ms, sends), EventLines(s.event, s.payload));
  }

  method SendNext(sse: EventWriter, ms: nat, ghost sent: seq<Sent>, s: Sent)
    requires sse.out == Written(StreamLines(ms, sent))
    modifies sse
    ensures sse.out == Written(StreamLines(ms, sent + [s])) && sse.flushed == |sse.out|
  {
    StreamOneMore(ms, sent, s);
    sse.Send(s.event, s.payload);
  }

  /** Each section as it lands. */
  method SendSections(sse: EventWriter, ms: nat, ghost sent: seq<Sent>, sections: seq<string>)
    requires sse.out == Written(StreamLines(ms, sent))
    modifies sse
    ensures sse.out == Written(StreamLines(ms, sent + SectionEvents(sections)))
  {
    assert sent + SectionEvents(sections[..0]) == sent;
    for i := 0 to |sections|
      invariant sse.out == Written(StreamLines(ms, sent + SectionEvents(sections[..i])))
    {
      SendNext(sse, ms, sent + SectionEvents(sections[..i]), Sent("section", sections[i]));
      SectionOneMore(sent, sections, i);
    }
    assert sections[..|sections|] == sections;
  }

  lemma SectionOneMore(sent: seq<Sent>, sections: seq<string>, i: nat)
    requires i < |sections|
    ensures sent + SectionEvents(sections[..i]) + [Sent("section", sections[i])] ==
            sent + SectionEvents(sections[..i + 1])
  {}

  method SendBody(sse: EventWriter, ms: nat, a: Assessed)
    requires sse.out == Written(StreamLines(ms, []))
    modifies sse
    ensures sse.out == Written(StreamLines(ms, Fragments(a)))
  {
    match a {
      case Refused(error) =>
        assert [] + [Sent("report", error)] == Fragments(a);
        SendNext(sse, ms, [], Sent("report", error));
      case Finished(entity, sections, report) =>
        assert [] + [Sent("entity", entity)] == [Sent("entity", entity)];
        SendNext(sse, ms, [], Sent("entity", entity));
        SendSections(sse, ms, [Sent("entity", entity)], sections);
        SendNext(sse, ms, [Sent("entity", entity)] + SectionEvents(sections), Sent("report", report));
    }
  }

  /** The handler: the delay, the entity, each section as it lands, the whole report, and the end. */
  method Stream(a: Assessed, ms: nat := RETRY_MS) returns (sse: EventWriter)
    ensures sse.out == Written(StreamLines(ms, Streamed(a))) && sse.flushed == |sse.out|
  {
    sse := new EventWriter();
    sse.Retry(ms);
    assert "" + Written(RetryLines(ms)) == Written(StreamLines(ms, []));
    SendBody(sse, ms, a);
    SendNext(sse, ms, Fragments(a), Sent("done", ""));
  }

  /** What the browser is to see of an assessment: the events by name, each with its own fragment. */
  ghost predicate Shows(a: Assessed, events: seq<Event>) {
    match a
    case Refused(error) =>
      |events| == 2 && events[0] == Event("report", Delivered(error), "") && events[1] == Event("done", "", "")
    case Finished(entity, sections, report) =>
      && |events| == |sections| + 3
      && events[0] == Event("entity", Delivered(entity), "")
      && (forall i :: 0 <= i < |sections| ==> events[i + 1] == Event("section", Delivered(sections[i]), ""))
      && events[|sections| + 1] == Event("report", Delivered(report), "")
      && events[|sections| + 2] == Event("done", "", "")
  }

  /** A browser reading the whole response sees the fragments in order, one report, and then the end. */
  lemma BrowserSees(a: Assessed, ms: nat)
    requires forall s <- Fragments(a) :: CrOnlyAtLineEnds(s.payload)
    ensures var r := Read(Written(StreamLines(ms, Streamed(a))));
      && r.retry == Some(ms as int)
      && r.events == Received(Fragments(a)) + [Event("done", "", "")]
      && Shows(a, r.events)
  {
    FragmentsNamed(a);
    DoneDelivered();
    FragmentsShown(a);
    hide Fragments, Delivered, CrOnlyAtLineEnds, Nameable, Read, Written, StreamLines, Shows;
    StreamSurvives(ms, Streamed(a));
    ReceivedSnoc(Fragments(a), Sent("done", ""));
  }

  lemma FragmentsShown(a: Assessed)
    ensures Shows(a, Received(Fragments(a)) + [Event("done", "", "")])
  {
    hide Delivered;
  }

  lemma ReceivedSnoc(sends: seq<Sent>, s: Sent)
    ensures Received(sends + [s]) == Received(sends) + [Event(s.event, Delivered(s.payload), "")]
  {}

  lemma DoneDelivered()
    ensures Nameable("done") && CrOnlyAtLineEnds("") && Delivered("") == ""
  {
    assert OneLine("done");
    CrFreeIsWhole("");
  }

  /** The entity first, then the sections, and one report, last before the end. */
  lemma FragmentsNamed(a: Assessed)
    ensures forall s <- Fragments(a) :: Nameable(s.event)
    ensures forall i :: 0 <= i < |Fragments(a)| ==>
      Fragments(a)[i].event == if i == |Fragments(a)| - 1 then "report" else if i == 0 then "entity" else "section"
  {
    assert OneLine("report") && OneLine("entity") && OneLine("section");
  }
}
