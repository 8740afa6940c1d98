/**
 POST /assess validates a form and hands its values, as URL parameters, to GET /assess/stream,
 which parses them again. URL encoding itself is taken to be faithful.
 */
module Handoff {
  import opened Text
  import opened Sequences
  import opened Cpe

  datatype Form = Form(company: string, service: string, domain: string, cpe: string, noCache: string)

  /** The URL parameters the two handlers share. */
  datatype Param = Company | Service | Domain | Cpe | NoCache

  datatype Request = Request(company: string, service: string, domain: string, cpes: seq<string>, noCache: bool)

  function AcceptedEntry(entry: string): Option<string> {
    if Blank(entry) then None else ParseCpeOverride(entry)
  }

  function RejectedEntry(entry: string): Option<string> {
    if Blank(entry) || ParseCpeOverride(entry).Some? then None else Some(TrimSpace(entry))
  }

  function Accepted(entries: seq<string>): seq<string> {
    FilterMap(entries, AcceptedEntry)
  }

  function Rejected(entries: seq<string>): seq<string> {
    FilterMap(entries, RejectedEntry)
  }

  method ParseCpes(raw: string) returns (accepted: seq<string>, rejected: seq<string>)
    ensures accepted == Accepted(Split(raw, ','))
    ensures rejected == Rejected(Split(raw, ','))
  {
    accepted, rejected := [], [];
    var entries := Split(raw, ',');
    for i := 0 to |entries|
      invariant accepted == Accepted(entries[..i])
      invariant rejected == Rejected(entries[..i])
    {
      assert entries[..i + 1] == entries[..i] + [entries[i]];
      FilterMapSnoc(entries[..i], entries[i], AcceptedEntry);
      FilterMapSnoc(entries[..i], entries[i], RejectedEntry);
      if Blank(entries[i]) {
        continue;
      }
      var cpe := ParseCpeOverride(entries[i]);
      if cpe.Some? {
        accepted := accepted + [cpe.value];
      } else {
        rejected := rejected + [TrimSpace(entries[i])];
      }
    }
    assert entries[..|entries|] == entries;
  }

  function Get(params: map<Param, string>, name: Param): string {
    if name in params then params[name] else ""
  }

  /** What the stream handler makes of its URL; None is its 400 answer. */
  function StreamRequest(params: map<Param, string>): Option<Request> {
    var entries := Split(Get(params, Cpe), ',');
    if Rejected(entries) != [] then None
    else Some(Request(TrimSpace(Get(params, Company)), TrimSpace(Get(params, Service)),
                      TrimSpace(Get(params, Domain)), Accepted(entries), Get(params, NoCache) != ""))
  }

  /** The assessment the analyst asked for. */
  function Intended(form: Form): Request {
    Request(TrimSpace(form.company), TrimSpace(form.service), TrimSpace(form.domain),
            Accepted(Split(form.cpe, ',')), form.noCache != "")
  }

  /** A form is refused exactly for a malformed CPE or a missing name; otherwise the stream runs what was asked. */
  method Assess(form: Form) returns (params: Option<map<Param, string>>)
    ensures params.None? <==>
      Rejected(Split(form.cpe, ',')) != [] || Blank(form.company) || Blank(form.service)
    ensures params.Some? ==> StreamRequest(params.value) == Some(Intended(form))
    ensures params.None? <==>
      || Blank(form.company) || Blank(form.service)
      || exists entry <- Split(form.cpe, ',') :: !Blank(entry) && ParseCpeOverride(entry).None?
    ensures params.Some? ==> StreamRequest(params.value).Some? && Asks(StreamRequest(params.value).value, form)
  {
    RejectedExact(Split(form.cpe, ','));
    IntendedAsks(form);
    NothingJoined();
    hide StreamRequest, Asks, Intended, ListsAccepted, Accepted, Rejected, Split, ParseCpeOverride, TrimSpace, Join;
    var cpes, bad := ParseCpes(form.cpe);
    if |bad| > 0 {
      return None;
    }
    var company, service := TrimSpace(form.company), TrimSpace(form.service);
    if company == "" || service == "" {
      return None;
    }
    var p: map<Param, string> := map[Company := company, Service := service];
    var d := TrimSpace(form.domain);
    if d != "" {
      p := p[Domain := d];
    }
    if |cpes| > 0 {
      p := p[Cpe := Join(cpes, ',')];
    }
    if form.noCache != "" {
      p := p[NoCache := "1"];
    }
    StreamReads(form, p);
    return Some(p);
  }

  /** The CPEs are what the entries that are not blank parse to, one for each and in order. */
  ghost predicate ListsAccepted(cpes: seq<string>, entries: seq<string>) {
    exists at: seq<int> ::
      && Increasing(at) && |at| == |cpes|
      && (forall j :: 0 <= j < |entries| ==>
            (j in at <==> !Blank(entries[j]) && ParseCpeOverride(entries[j]).Some?))
      && forall i :: 0 <= i < |at| ==> 0 <= at[i] < |entries| && ParseCpeOverride(entries[at[i]]) == Some(cpes[i])
  }

  /** The request carries the form's words, trimmed, its CPEs, and whether its box was ticked. */
  ghost predicate Asks(r: Request, form: Form) {
    && r.company == TrimSpace(form.company) && r.service == TrimSpace(form.service)
    && r.domain == TrimSpace(form.domain) && (r.noCache <==> form.noCache != "")
    && ListsAccepted(r.cpes, Split(form.cpe, ','))
  }

  lemma IntendedAsks(form: Form)
    ensures Asks(Intended(form), form)
  {
    AcceptedExact(Split(form.cpe, ','));
    hide ListsAccepted, Accepted, Split, TrimSpace;
  }

  lemma NothingJoined()
    ensures Join([], ',') == ""
  {}

  lemma AcceptedExact(entries: seq<string>)
    ensures ListsAccepted(Accepted(entries), entries)
  {
    var at := FilterMapExact(entries, AcceptedEntry);
    hide ParseCpeOverride, TrimSpace;
    forall j | 0 <= j < |entries|
      ensures AcceptedEntry(entries[j]).Some? <==> !Blank(entries[j]) && ParseCpeOverride(entries[j]).Some?
    {}
  }

  lemma RejectedExact(entries: seq<string>)
    ensures Rejected(entries) != [] <==> exists entry <- entries :: !Blank(entry) && ParseCpeOverride(entry).None?
  {
    FilterMapMembers(entries, RejectedEntry);
    hide ParseCpeOverride, TrimSpace;
    if entry :| entry in entries && !Blank(entry) && ParseCpeOverride(entry).None? {
      var i :| 0 <= i < |entries| && entries[i] == entry;
      assert RejectedEntry(entries[i]).Some?;
    }
    if Rejected(entries) != [] {
      assert Rejected(entries)[0] in Rejected(entries);
      var i :| 0 <= i < |entries| && RejectedEntry(entries[i]) == Some(Rejected(entries)[0]);
      assert entries[i] in entries;
    }
  }

  lemma StreamReads(form: Form, p: map<Param, string>)
    requires Rejected(Split(form.cpe, ',')) == []
    requires Get(p, Company) == TrimSpace(form.company)
    requires Get(p, Service) == TrimSpace(form.service)
    requires Get(p, Domain) == TrimSpace(form.domain)
    requires Get(p, Cpe) == Join(Accepted(Split(form.cpe, ',')), ',')
    requires Get(p, NoCache) != "" <==> form.noCache != ""
    ensures StreamRequest(p) == Some(Intended(form))
  {
    TrimTwice(form.company);
    TrimTwice(form.service);
    TrimTwice(form.domain);
    OverrideSurvives(form.cpe);
  }

  /** The accepted list, joined by commas and parsed again, is the same list with nothing rejected. */
  lemma OverrideSurvives(raw: string)
    ensures var again := Split(Join(Accepted(Split(raw, ',')), ','), ',');
            Accepted(again) == Accepted(Split(raw, ',')) && Rejected(again) == []
  {
    var cpes := Accepted(Split(raw, ','));
    FilterMapMembers(Split(raw, ','), AcceptedEntry);
    forall i | 0 <= i < |cpes|
      ensures ',' !in cpes[i] && AcceptedEntry(cpes[i]) == Some(cpes[i]) && RejectedEntry(cpes[i]) == None
    {
      assert cpes[i] in cpes;
      var j :| 0 <= j < |Split(raw, ',')| && AcceptedEntry(Split(raw, ',')[j]) == Some(cpes[i]);
      assert Split(raw, ',')[j] in Split(raw, ',');
      OverrideIsStable(Split(raw, ',')[j]);
    }
    if cpes == [] {
      assert Split("", ',') == [""];
      FilterMapNothing([""], AcceptedEntry);
      FilterMapNothing([""], RejectedEntry);
    } else {
      SplitJoin(cpes, ',');
      FilterMapIdentity(cpes, AcceptedEntry);
      FilterMapNothing(cpes, RejectedEntry);
    }
  }

  lemma OverrideIsStable(entry: string)
    requires ',' !in entry && AcceptedEntry(entry).Some?
    ensures var cpe := AcceptedEntry(entry).value;
            ',' !in cpe && AcceptedEntry(cpe) == Some(cpe) && RejectedEntry(cpe) == None
  {
    OverrideIdempotent(entry);
    OverrideCommaFree(entry);
    WellFormedNotBlank(ParseCpeOverride(entry).value);
  }

  lemma WellFormedNotBlank(cpe: string)
    requires WellFormed(cpe)
    ensures !Blank(cpe)
  {
    TrimOfTrimmed(cpe);
  }

  lemma CleanedCommaFree(s: string)
    requires ',' !in s
    ensures ',' !in ToLower(TrimSpace(s))
  {
    TrimShape(s);
  }

  /** Nothing on the way to an accepted CPE introduces a comma. */
  lemma OverrideCommaFree(entry: string)
    requires ',' !in entry && ParseCpeOverride(entry).Some?
    ensures ',' !in ParseCpeOverride(entry).value
  {
    var c := ToLower(TrimSpace(entry));
    var full := if |Split(c, ':')| == 5 then c + StarTail() else c;
    CleanedCommaFree(entry);
    CleanedCommaFree(full);
    assert ParseCpeOverride(entry) == NormalizeCpe(full);
  }
}
