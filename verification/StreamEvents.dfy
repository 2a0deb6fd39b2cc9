/**
 What the inspector of StreamErrors.dfy makes of the events of a stream, said of the bytes: which
 lines gather an event, and what follows from it at the blank line. How the bytes are cut into
 chunks and how lines end does not matter.
 */
module StreamEvents {
  import opened Collections
  import opened Json
  import opened StreamErrors

  // ---------- the lines of an event ----------

  predicate IsBlank(b: byte) { 9 <= b <= 13 || b == 32 }

  predicate AllBlank(s: seq<byte>) {
    forall i :: 0 <= i < |s| ==> IsBlank(s[i])
  }

  // No blank at either end.
  predicate Tight(s: seq<byte>) {
    s == [] || (!IsBlank(s[0]) && !IsBlank(s[|s| - 1]))
  }

  predicate OneLine(s: seq<byte>) {
    forall i :: 0 <= i < |s| ==> !IsBreak(s[i])
  }

  function Spaces(n: nat): seq<byte> {
    seq(n, i => SPACE)
  }

  /** A line of an event. The name stands between blanks, data behind spaces; comments, ids and
      retry times are of no interest to the inspector. */
  datatype Field =
    | Name(before: seq<byte>, name: seq<byte>, after: seq<byte>)
    | Data(spaces: nat, part: seq<byte>)
    | Comment(text: seq<byte>)
    | Id(text: seq<byte>)
    | Retry(text: seq<byte>)
  {
    function Written(): seq<byte> {
      match this
      case Name(before, name, after) => EVENT_FIELD + (before + name + after)
      case Data(spaces, part) => DATA_FIELD + (Spaces(spaces) + part)
      case Comment(text) => [COLON] + text
      case Id(text) => ID_FIELD + text
      case Retry(text) => RETRY_FIELD + text
    }

    predicate WellFormed() {
      && OneLine(Written()) && |Written()| <= MAX_EVENT_BYTES
      && (Name? ==> AllBlank(before) && Tight(name) && AllBlank(after))
      && (Data? ==> (part == [] || part[0] != SPACE) && part != DONE)
    }
  }

  predicate WellFormed(fields: seq<Field>) {
    forall i :: 0 <= i < |fields| ==> fields[i].WellFormed()
  }

  // The bytes of these lines, each ended by LF.
  function Written(fields: seq<Field>): seq<byte> {
    if fields == [] then [] else Written(fields[..|fields| - 1]) + (fields[|fields| - 1].Written() + [LF])
  }

  // The data of the event: its parts, each with a LF behind it.
  function Payload(fields: seq<Field>): seq<byte> {
    if fields == [] then []
    else Payload(fields[..|fields| - 1]) + (if fields[|fields| - 1].Data? then fields[|fields| - 1].part + [LF] else [])
  }

  // The name given last, at most 128 characters of it.
  function EventName(p: Protocol, fields: seq<Field>): string {
    if fields == [] then ""
    else if fields[|fields| - 1].Name? then
      var name := p.decode(fields[|fields| - 1].name);
      if |name| <= 128 then name else name[..128]
    else EventName(p, fields[..|fields| - 1])
  }

  /** What follows from an event: nothing without data; that there was output when the data is too
      large to be read; otherwise what follows from the data under the event's name. */
  ghost predicate EventConcludes(p: Protocol, e: Events, e': Events, fields: seq<Field>) {
    if Payload(fields) == [] then ConcludesNothing(e, e')
    else if |Payload(fields)| > MAX_EVENT_BYTES then
      e'.hasOutput && e'.commit && e'.error == e.error && e'.terminal == e.terminal
    else DataConcludes(p, e, e', Payload(fields), EventName(p, fields))
  }

  // ---------- reading one line ----------

  // Between two lines.
  predicate AtLine(s: Inspection) {
    Bounded(s) && s.line == [] && !s.discardLine && !s.afterCr
  }

  // Between two events.
  predicate AtEvent(s: Inspection) {
    AtLine(s) && s.events.data == [] && s.events.event == "" && !s.events.discardEvent
  }

  lemma LineRead(p: Protocol, s: Inspection, line: seq<byte>)
    requires AtLine(s) && OneLine(line) && |line| <= MAX_EVENT_BYTES
    ensures Run(p, s, line + [LF]) == s.(events := Line(p, s.events, line))
    ensures AtLine(Run(p, s, line + [LF]))
  {
    hide Run, Line, Bounded;
    BrokenSliceIsRun(p, s, line, LF);
    AtLineBounds(s);
    assert s.line + line == line;
    RunKeeps(p, s, line + [LF]);
  }

  lemma AtLineBounds(s: Inspection)
    requires AtLine(s)
    ensures |s.line| == 0 && Bounded(s)
  {
  }

  lemma {:induction false} TrimLeftIs(before: seq<byte>, core: seq<byte>, blanks: set<byte>)
    requires forall i :: 0 <= i < |before| ==> before[i] in blanks
    requires core == [] || core[0] !in blanks
    ensures TrimLeft(before + core, blanks) == core
  {
    if before == [] {
      assert before + core == core;
    } else {
      assert (before + core)[1..] == before[1..] + core;
      TrimLeftIs(before[1..], core, blanks);
    }
  }

  lemma {:induction false} TrimRightIs(core: seq<byte>, after: seq<byte>, blanks: set<byte>)
    requires forall i :: 0 <= i < |after| ==> after[i] in blanks
    requires core == [] || core[|core| - 1] !in blanks
    ensures TrimRight(core + after, blanks) == core
  {
    if after == [] {
      assert core + after == core;
    } else {
      var init := after[..|after| - 1];
      assert (core + after)[..|core + after| - 1] == core + init;
      TrimRightIs(core, init, blanks);
    }
  }

  /** Stripping takes the blanks off both ends and nothing else. */
  lemma StripIs(before: seq<byte>, core: seq<byte>, after: seq<byte>)
    requires AllBlank(before) && Tight(core) && AllBlank(after)
    ensures Strip(before + core + after) == core
  {
    var blanks: set<byte> := {9, 10, 11, 12, 13, 32};
    assert forall b: byte :: IsBlank(b) <==> b in blanks;
    if core == [] {
      assert before + core + after == (before + after) + [];
      TrimLeftIs(before + after, [], blanks);
    } else {
      assert before + core + after == before + (core + after);
      TrimLeftIs(before, core + after, blanks);
      TrimRightIs(core, after, blanks);
    }
  }

  /** One line of an event: a name is set, a part is added to the data or marks an event too large
      to keep, the rest changes nothing. */
  lemma FieldRead(p: Protocol, s: Inspection, field: Field)
    requires AtLine(s) && field.WellFormed()
    ensures AtLine(Run(p, s, field.Written() + [LF]))
    ensures var e, e' := s.events, Run(p, s, field.Written() + [LF]).events;
      && (field.Name? ==>
        e' == e.(event := if |p.decode(field.name)| <= 128 then p.decode(field.name) else p.decode(field.name)[..128]))
      && (field.Data? && !e.discardEvent && |e.data| + |field.part| + 1 <= MAX_EVENT_BYTES ==>
        e' == e.(data := e.data + field.part + [LF]))
      && (field.Data? && !e.discardEvent && |e.data| + |field.part| + 1 > MAX_EVENT_BYTES ==>
        e' == e.(data := [], discardEvent := true, hasOutput := true, commit := true))
      && (field.Data? && e.discardEvent ==> e' == e)
      && (!field.Name? && !field.Data? ==> e' == e)
  {
    hide Run, Bounded, Strip, TrimLeft, AtLine;
    var line := field.Written();
    LineRead(p, s, line);
    FieldKinds(field);
    match field {
      case Name(before, name, after) =>
        assert line[6..] == before + name + after;
        StripIs(before, name, after);
      case Data(spaces, part) =>
        assert line[5..] == Spaces(spaces) + part;
        TrimLeftIs(Spaces(spaces), part, {SPACE});
      case _ =>
    }
  }

  // The prefixes tell the lines apart.
  lemma FieldKinds(field: Field)
    ensures var line := field.Written();
      && line != []
      && (StartsWith(line, EVENT_FIELD) <==> field.Name?)
      && (StartsWith(line, DATA_FIELD) <==> field.Data?)
      && (StartsWith(line, [COLON]) || StartsWith(line, ID_FIELD) || StartsWith(line, RETRY_FIELD) <==>
        !field.Name? && !field.Data?)
  {
    var line := field.Written();
    assert line != [] && line[0] == match field
      case Name(_, _, _) => 101
      case Data(_, _) => 100
      case Comment(_) => 58
      case Id(_) => 105
      case Retry(_) => 114;
  }

  // ---------- reading events ----------

  // The lines of an event gather its name and data, or mark it as too large.
  lemma {:induction false} FieldsRead(p: Protocol, s: Inspection, fields: seq<Field>)
    requires AtEvent(s) && WellFormed(fields)
    ensures AtLine(Run(p, s, Written(fields)))
    ensures var e, e' := s.events, Run(p, s, Written(fields)).events;
      && e'.event == EventName(p, fields)
      && (|Payload(fields)| <= MAX_EVENT_BYTES ==>
        ConcludesNothing(e, e') && e'.data == Payload(fields) && !e'.discardEvent)
      && (|Payload(fields)| > MAX_EVENT_BYTES ==>
        e'.discardEvent && e'.hasOutput && e'.commit && e'.error == e.error && e'.terminal == e.terminal)
  {
    hide Run, Bounded, AtLine;
    if fields == [] {
      RunNone(p, s);
    } else {
      var init, last := fields[..|fields| - 1], fields[|fields| - 1];
      assert last.WellFormed();
      FieldsRead(p, s, init);
      RunSplit(p, s, Written(init), last.Written() + [LF]);
      FieldRead(p, Run(p, s, Written(init)), last);
    }
  }

  /** At the blank line what follows from the event is concluded, and the next one begins. */
  lemma EventRead(p: Protocol, s: Inspection, fields: seq<Field>)
    requires AtEvent(s) && WellFormed(fields)
    ensures AtEvent(Run(p, s, Written(fields) + [LF]))
    ensures EventConcludes(p, s.events, Run(p, s, Written(fields) + [LF]).events, fields)
  {
    hide Run, Bounded, Written, Payload, EventName;
    var s' := Run(p, s, Written(fields));
    FieldsRead(p, s, fields);
    RunSplit(p, s, Written(fields), [LF]);
    LineRead(p, s', []);
    assert [] + [LF] == [LF];
    PayloadNotEmpty(fields);
  }

  lemma {:induction false} PayloadNotEmpty(fields: seq<Field>)
    ensures Payload(fields) == [] <==> forall i :: 0 <= i < |fields| ==> !fields[i].Data?
  {
    if fields != [] { PayloadNotEmpty(fields[..|fields| - 1]); }
  }

  /** A `[DONE]` line is concluded from at once, whatever has been gathered. */
  lemma DoneRead(p: Protocol, s: Inspection, spaces: nat)
    requires AtLine(s) && |DATA_FIELD + (Spaces(spaces) + DONE)| <= MAX_EVENT_BYTES
    ensures var s' := Run(p, s, DATA_FIELD + (Spaces(spaces) + DONE) + [LF]);
      && AtLine(s') && Concludes(p, s.events, s'.events, Str("[DONE]"), s.events.event)
      && s'.events.data == s.events.data && s'.events.event == s.events.event
      && s'.events.discardEvent == s.events.discardEvent
  {
    hide Run, Bounded, AtLine, TrimLeft;
    var line := DATA_FIELD + (Spaces(spaces) + DONE);
    LineRead(p, s, line);
    assert line != [] && line[0] == 100 && line[..5] == DATA_FIELD && line[5..] == Spaces(spaces) + DONE;
    TrimLeftIs(Spaces(spaces), DONE, {SPACE});
  }

  /** A line that is no field is read as a value of its own. */
  lemma BareRead(p: Protocol, s: Inspection, line: seq<byte>)
    requires AtLine(s) && line != [] && OneLine(line) && |line| <= MAX_EVENT_BYTES
    requires !(EVENT_FIELD <= line) && !(DATA_FIELD <= line) && !(ID_FIELD <= line) && !(RETRY_FIELD <= line)
    requires line[0] != COLON
    ensures var s' := Run(p, s, line + [LF]);
      && AtLine(s') && Concludes(p, s.events, s'.events, p.parse(line).GetOr(Null), s.events.event)
      && s'.events.data == s.events.data && s'.events.event == s.events.event
      && s'.events.discardEvent == s.events.discardEvent
  {
    hide Run, Bounded, AtLine;
    LineRead(p, s, line);
  }

  /** A line too long to keep is dropped, and its event with it; it counts as output. */
  lemma LongLineRead(p: Protocol, s: Inspection, line: seq<byte>)
    requires AtLine(s) && OneLine(line) && |line| > MAX_EVENT_BYTES
    ensures var s' := Run(p, s, line + [LF]);
      AtLine(s') && s'.events == s.events.(discardEvent := true, hasOutput := true, commit := true)
  {
    hide Run, Line;
    BrokenSliceIsRun(p, s, line, LF);
    RunKeeps(p, s, line + [LF]);
  }

  /** The blank line ends a dropped event with nothing concluded from it. */
  lemma DroppedEnds(p: Protocol, s: Inspection)
    requires AtLine(s) && s.events.discardEvent
    ensures AtEvent(Run(p, s, [LF])) && ConcludesNothing(s.events, Run(p, s, [LF]).events)
  {
    hide Run;
    LineRead(p, s, []);
    assert [] + [LF] == [LF];
  }

  /** The end of the stream ends an unfinished line and the event, as line breaks would. */
  lemma FinishEndsEvent(p: Protocol, s: Inspection)
    requires Bounded(s)
    ensures var breaks := if s.line != [] || s.discardLine then [CR, CR] else [CR];
      Finished(p, s).events == Run(p, s, breaks).events
  {
    hide Line, Run;
    RunNone(p, s);
    RunAppend(p, s, [], CR);
    assert [] + [CR] == [CR];
    RunAppend(p, s, [CR], CR);
    assert [CR] + [CR] == [CR, CR];
    BlankLine(p, s.events);
    BlankLine(p, Line(p, s.events, s.line));
  }

  lemma BlankLine(p: Protocol, e: Events)
    ensures Line(p, e, []) == Dispatch(p, e)
  {
  }

  // ---------- whole streams ----------

  function Text(events: seq<seq<Field>>): seq<byte> {
    if events == [] then [] else Text(events[..|events| - 1]) + (Written(events[|events| - 1]) + [LF])
  }

  /** A stream of events, however it is cut into chunks and however its lines end: each event is
      concluded from in turn, beginning with nothing concluded. */
  lemma {:induction false} StreamRead(p: Protocol, events: seq<seq<Field>>, parts: seq<seq<byte>>, k: nat)
    requires forall i :: 0 <= i < |events| ==> WellFormed(events[i])
    requires Normalised(Concat(parts)) == Text(events)
    ensures FeedAll(p, START, Chunks(parts)).events == Run(p, START, Text(events)).events
    ensures AtEvent(Run(p, START, Text(events)))
    ensures Run(p, START, Text([])) == START
    ensures k < |events| ==>
      EventConcludes(p, Run(p, START, Text(events[..k])).events, Run(p, START, Text(events[..k + 1])).events, events[k])
  {
    hide Run, Normalised, Written, WellFormed, EventConcludes, AtEvent;
    ChunkingIrrelevant(p, START, parts);
    LineEndingsEquivalent(p, START, Concat(parts));
    RunNone(p, START);
    EventsRead(p, events, k);
  }

  lemma {:induction false} EventsRead(p: Protocol, events: seq<seq<Field>>, k: nat)
    requires forall i :: 0 <= i < |events| ==> WellFormed(events[i])
    ensures AtEvent(Run(p, START, Text(events)))
    ensures k < |events| ==>
      EventConcludes(p, Run(p, START, Text(events[..k])).events, Run(p, START, Text(events[..k + 1])).events, events[k])
  {
    hide Run, Written, WellFormed, EventConcludes, AtEvent;
    if events == [] {
      RunNone(p, START);
      StartsAtEvent();
    } else {
      var init, last := events[..|events| - 1], events[|events| - 1];
      EventsRead(p, init, k);
      RunSplit(p, START, Text(init), Written(last) + [LF]);
      EventRead(p, Run(p, START, Text(init)), last);
      if k < |init| {
        assert init[..k] == events[..k] && init[..k + 1] == events[..k + 1];
      } else if k == |init| {
        assert events[..k + 1] == events;
      }
    }
  }

  lemma StartsAtEvent()
    ensures AtEvent(START)
  {
  }
}
