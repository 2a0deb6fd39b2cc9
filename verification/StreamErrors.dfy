/**
 The bounded stream inspector of `core/stream_errors.py`.

 `Step` is the reference: an automaton that reads one byte at a time. `StreamInspector.Feed`
 is the program's way of working: it cuts an HTTP chunk at its line breaks, appends whole
 slices to the line buffer and drops oversized slices without copying them. `Feed` is proved
 to end in the automaton's state, and the automaton's properties are lemmas.
 */
module StreamErrors {
  import opened Collections
  import opened Json

  const MAX_EVENT_BYTES := 64 * 1024
  const LF: byte := 10
  const CR: byte := 13
  const SPACE: byte := 32
  const COLON: byte := 58
  const EVENT_FIELD: seq<byte> := [101, 118, 101, 110, 116, 58]
  const DATA_FIELD: seq<byte> := [100, 97, 116, 97, 58]
  const ID_FIELD: seq<byte> := [105, 100, 58]
  const RETRY_FIELD: seq<byte> := [114, 101, 116, 114, 121, 58]
  const DONE: seq<byte> := [91, 68, 79, 78, 69, 93]

  datatype StreamError = StreamError(statusCode: int, message: string, ruleText: string)

  /** Library and per-protocol functions the inspector is given: `json.loads` (None for
      ValueError), UTF-8 decoding with replacement, the error-envelope reader and the
      semantic-output classifier. Nothing is assumed about them. */
  datatype Protocol = Protocol(
    parse: seq<byte> -> Option<Json>,
    decode: seq<byte> -> string,
    streamError: (Json, string) -> Option<StreamError>,
    semanticOutput: Json -> bool)

  /** What a source may hand over: bytes (text stands for its UTF-8 encoding), an already
      parsed event, or a value of any other type. */
  datatype Item = Chunk(bytes: seq<byte>) | Record(event: Json) | Foreign

  /** What has been gathered of the current event and concluded from the events so far. */
  datatype Events = Events(
    data: seq<byte>,
    event: string,
    discardEvent: bool,
    hasOutput: bool,
    commit: bool,
    terminal: bool,
    error: Option<StreamError>)

  /** The inspector's full state. */
  datatype Inspection = Inspection(line: seq<byte>, discardLine: bool, afterCr: bool, events: Events)

  const START := Inspection([], false, false, Events([], "", false, false, false, false, None))

  // The event buffer is bounded and every conclusion commits the stream.
  predicate Sound(e: Events) {
    && |e.data| <= MAX_EVENT_BYTES
    && (e.hasOutput || e.terminal || e.error.Some? ==> e.commit)
  }

  // Both buffers are bounded; a line that is being discarded has left nothing in the buffer
  // and its event is already marked.
  predicate Bounded(s: Inspection) {
    && |s.line| <= MAX_EVENT_BYTES
    && Sound(s.events)
    && (s.discardLine ==> s.line == [] && s.events.discardEvent && s.events.hasOutput)
  }

  // `e'` comes later than `e`: no flag has reverted and the first error has stayed.
  predicate Later(e: Events, e': Events) {
    && (e.commit ==> e'.commit)
    && (e.hasOutput ==> e'.hasOutput)
    && (e.terminal ==> e'.terminal)
    && (e.error.Some? ==> e'.error == e.error)
  }

  // ---------- classification of one event ----------

  predicate AnyTruthy(items: Json, key: string) {
    items.Arr? && exists i :: 0 <= i < |items.elems| && items.elems[i].Obj? && items.elems[i].Get(key).Truthy()
  }

  predicate EndsStream(data: Json) {
    data.Obj? &&
    (|| data.Get("type") in {Str("response.completed"), Str("response.incomplete"), Str("message_stop")}
     || AnyTruthy(data.Get("choices"), "finish_reason")
     || AnyTruthy(data.Get("candidates"), "finishReason"))
  }

  // Python counts these values as false.
  const EMPTY: set<Json> := {Null, Bool(false), Num(0.0), Str(""), Arr([]), Obj(map[])}

  // Under `list` there is an object whose `reason` is given.
  ghost predicate GivesReason(fields: map<string, Json>, list: string, reason: string) {
    list in fields && fields[list].Arr? &&
    exists item :: item in fields[list].elems && item.Obj? && reason in item.fields && item.fields[reason] !in EMPTY
  }

  /** What ends a stream: an object of one of three types, or one of whose choices or candidates
      gives the reason why it finished. */
  lemma EndsStreamMeans(data: Json)
    ensures !data.Obj? ==> !EndsStream(data)
    ensures data.Obj? ==>
      var named := "type" in data.fields
        && data.fields["type"] in {Str("response.completed"), Str("response.incomplete"), Str("message_stop")};
      var chosen := GivesReason(data.fields, "choices", "finish_reason");
      EndsStream(data) <==> named || chosen || GivesReason(data.fields, "candidates", "finishReason")
  {
    if data.Obj? {
      ReasonGiven(data.fields, "choices", "finish_reason");
      ReasonGiven(data.fields, "candidates", "finishReason");
    }
  }

  lemma ReasonGiven(fields: map<string, Json>, list: string, reason: string)
    ensures AnyTruthy(Obj(fields).Get(list), reason) <==> GivesReason(fields, list, reason)
  {
    if GivesReason(fields, list, reason) {
      var elems := fields[list].elems;
      var item :| item in elems && item.Obj? && reason in item.fields && item.fields[reason] !in EMPTY;
      var i :| 0 <= i < |elems| && elems[i] == item;
      assert elems[i].Get(reason).Truthy();
    }
  }

  function Inspect(p: Protocol, e: Events, data: Json): Events {
    match p.streamError(data, e.event)
    case Some(error) =>
      e.(error := if e.error.Some? then e.error else Some(error), commit := true)
    case None =>
      if data == Str("[DONE]") then
        e.(terminal := true, commit := true)
      else
        var terminal := e.terminal || EndsStream(data);
        var output := p.semanticOutput(data);
        e.(terminal := terminal, hasOutput := e.hasOutput || output, commit := e.commit || output || terminal)
  }

  /** What follows from one value met under an event name: the first stream error is kept and
      commits; `[DONE]` ends and commits; any other value may end the stream, be output, and
      commits if it is output or the stream has ended. */
  ghost predicate Concludes(p: Protocol, e: Events, e': Events, value: Json, name: string) {
    var found := p.streamError(value, name);
    if found.Some? then
      && e'.error == (if e.error.Some? then e.error else found) && e'.commit
      && e'.terminal == e.terminal && e'.hasOutput == e.hasOutput
    else if value == Str("[DONE]") then
      e'.terminal && e'.commit && e'.error == e.error && e'.hasOutput == e.hasOutput
    else
      && e'.error == e.error
      && (e'.terminal <==> e.terminal || EndsStream(value))
      && (e'.hasOutput <==> e.hasOutput || p.semanticOutput(value))
      && (e'.commit <==> e.commit || p.semanticOutput(value) || e'.terminal)
  }

  // Nothing follows.
  predicate ConcludesNothing(e: Events, e': Events) {
    e'.error == e.error && e'.commit == e.commit && e'.terminal == e.terminal && e'.hasOutput == e.hasOutput
  }

  // What follows from the data of an event: its parsed value; what cannot be parsed is an error
  // message under the names of error events and no value under others.
  ghost predicate DataConcludes(p: Protocol, e: Events, e': Events, data: seq<byte>, name: string) {
    if p.parse(data).Some? then Concludes(p, e, e', p.parse(data).value, name)
    else if name == "error" || name == "response.failed" then
      Concludes(p, e, e', Obj(map["type" := Str(name), "message" := Str(p.decode(data))]), name)
    else Concludes(p, e, e', Null, name)
  }

  // The event an undecodable `data` buffer stands for.
  function Fallback(p: Protocol, e: Events): Json {
    if e.event == "error" || e.event == "response.failed" then
      Obj(map["type" := Str(e.event), "message" := Str(p.decode(e.data))])
    else Null
  }

  function Dispatch(p: Protocol, e: Events): Events {
    var e' :=
      if e.data == [] || e.discardEvent then e
      else Inspect(p, e, p.parse(e.data).GetOr(Fallback(p, e)));
    e'.(data := [], event := "", discardEvent := false)
  }

  // ---------- one line ----------

  predicate StartsWith(s: seq<byte>, prefix: seq<byte>) {
    prefix <= s
  }

  function TrimLeft(s: seq<byte>, blanks: set<byte>): seq<byte> {
    if s != [] && s[0] in blanks then TrimLeft(s[1..], blanks) else s
  }

  function TrimRight(s: seq<byte>, blanks: set<byte>): seq<byte> {
    if s != [] && s[|s| - 1] in blanks then TrimRight(s[..|s| - 1], blanks) else s
  }

  // `bytes.strip()`
  function Strip(s: seq<byte>): seq<byte> {
    var blanks: set<byte> := {9, 10, 11, 12, 13, 32};
    TrimRight(TrimLeft(s, blanks), blanks)
  }

  function Truncate(s: string, n: nat): string {
    if |s| > n then s[..n] else s
  }

  // The marks left by anything too large to buffer.
  function Oversized(e: Events): Events {
    e.(discardEvent := true, hasOutput := true, commit := true)
  }

  function AddData(e: Events, part: seq<byte>): Events {
    if e.discardEvent then e
    else if |e.data| + |part| + 1 > MAX_EVENT_BYTES then Oversized(e).(data := [])
    else e.(data := e.data + part + [LF])
  }

  function Line(p: Protocol, e: Events, line: seq<byte>): Events {
    if line == [] then Dispatch(p, e)
    else if StartsWith(line, EVENT_FIELD) then
      e.(event := Truncate(p.decode(Strip(line[6..])), 128))
    else if StartsWith(line, DATA_FIELD) then
      var part := TrimLeft(line[5..], {SPACE});
      if part == DONE then Inspect(p, e, Str("[DONE]")) else AddData(e, part)
    else if StartsWith(line, [COLON]) || StartsWith(line, ID_FIELD) || StartsWith(line, RETRY_FIELD) then e
    else Inspect(p, e, p.parse(line).GetOr(Null))
  }

  // ---------- the reference automaton ----------

  predicate IsBreak(b: byte) { b == LF || b == CR }

  function Step(p: Protocol, s: Inspection, b: byte): Inspection {
    if IsBreak(b) then
      var halfOfCrLf := s.afterCr && b == LF && s.line == [];
      var events := if s.discardLine || halfOfCrLf then s.events else Line(p, s.events, s.line);
      Inspection([], false, b == CR, events)
    else if |s.line| + 1 > MAX_EVENT_BYTES then Inspection([], true, false, Oversized(s.events))
    else if s.discardLine then s.(afterCr := false)
    else s.(line := s.line + [b], afterCr := false)
  }

  function Run(p: Protocol, s: Inspection, bytes: seq<byte>): Inspection {
    if bytes == [] then s else Step(p, Run(p, s, bytes[..|bytes| - 1]), bytes[|bytes| - 1])
  }

  function FeedItem(p: Protocol, s: Inspection, item: Item): Inspection {
    match item
    case Chunk(bytes) => Run(p, s, bytes)
    case Record(event) => s.(events := Inspect(p, s.events, event))
    case Foreign => s.(events := Inspect(p, s.events, Null))
  }

  function FeedAll(p: Protocol, s: Inspection, items: seq<Item>): Inspection {
    if items == [] then s else FeedItem(p, FeedAll(p, s, items[..|items| - 1]), items[|items| - 1])
  }

  function Finished(p: Protocol, s: Inspection): Inspection {
    var events := if s.line != [] && !s.discardLine then Line(p, s.events, s.line) else s.events;
    s.(line := [], events := Dispatch(p, events))
  }

  // ---------- what every step keeps ----------

  lemma InspectKeeps(p: Protocol, e: Events, data: Json)
    requires Sound(e)
    ensures var e' := Inspect(p, e, data);
      Sound(e') && Later(e, e') && e'.data == e.data && e'.event == e.event && e'.discardEvent == e.discardEvent
  {
  }

  lemma LineKeeps(p: Protocol, e: Events, line: seq<byte>)
    requires Sound(e)
    ensures Sound(Line(p, e, line)) && Later(e, Line(p, e, line))
  {
    InspectKeeps(p, e, p.parse(e.data).GetOr(Fallback(p, e)));
    InspectKeeps(p, e, p.parse(line).GetOr(Null));
    InspectKeeps(p, e, Str("[DONE]"));
  }

  lemma StepKeeps(p: Protocol, s: Inspection, b: byte)
    requires Bounded(s)
    ensures Bounded(Step(p, s, b)) && Later(s.events, Step(p, s, b).events)
  {
    LineKeeps(p, s.events, s.line);
  }

  lemma {:induction false} RunKeeps(p: Protocol, s: Inspection, bytes: seq<byte>)
    requires Bounded(s)
    ensures Bounded(Run(p, s, bytes)) && Later(s.events, Run(p, s, bytes).events)
  {
    if bytes != [] {
      RunKeeps(p, s, bytes[..|bytes| - 1]);
      StepKeeps(p, Run(p, s, bytes[..|bytes| - 1]), bytes[|bytes| - 1]);
    }
  }

  lemma FeedKeeps(p: Protocol, s: Inspection, item: Item)
    requires Bounded(s)
    ensures Bounded(FeedItem(p, s, item)) && Later(s.events, FeedItem(p, s, item).events)
  {
    match item
    case Chunk(bytes) => RunKeeps(p, s, bytes);
    case Record(event) => InspectKeeps(p, s.events, event);
    case Foreign => InspectKeeps(p, s.events, Null);
  }

  /** Over every run the buffers stay within 64 KiB and `has_output`, `terminal` and `error`
      imply `commit`; from one state of a run to any later one no flag reverts and the first
      error is kept. */
  lemma {:induction false} InspectionKeeps(p: Protocol, s: Inspection, items: seq<Item>)
    requires Bounded(s)
    ensures Bounded(FeedAll(p, s, items)) && Later(s.events, FeedAll(p, s, items).events)
  {
    if items != [] {
      InspectionKeeps(p, s, items[..|items| - 1]);
      FeedKeeps(p, FeedAll(p, s, items[..|items| - 1]), items[|items| - 1]);
    }
  }

  // ---------- chunking ----------

  lemma {:induction false} RunSplit(p: Protocol, s: Inspection, a: seq<byte>, b: seq<byte>)
    ensures Run(p, s, a + b) == Run(p, Run(p, s, a), b)
  {
    hide Step;
    if b == [] {
      assert a + b == a;
    } else {
      RunSplit(p, s, a, b[..|b| - 1]);
      assert (a + b)[..|a + b| - 1] == a + b[..|b| - 1];
    }
  }

  function Chunks(parts: seq<seq<byte>>): seq<Item> {
    seq(|parts|, i requires 0 <= i < |parts| => Chunk(parts[i]))
  }

  /** However a byte stream is cut into chunks, the state reached is that of the whole stream. */
  lemma {:induction false} ChunkingIrrelevant(p: Protocol, s: Inspection, parts: seq<seq<byte>>)
    ensures FeedAll(p, s, Chunks(parts)) == Run(p, s, Concat(parts))
  {
    hide Run;
    if parts == [] {
      RunNone(p, s);
    } else {
      var init := parts[..|parts| - 1];
      ChunkingIrrelevant(p, s, init);
      assert Chunks(parts)[..|parts| - 1] == Chunks(init);
      RunSplit(p, s, Concat(init), parts[|parts| - 1]);
    }
  }

  lemma RunNone(p: Protocol, s: Inspection)
    ensures Run(p, s, []) == s
  {
  }

  lemma RunAppend(p: Protocol, s: Inspection, bytes: seq<byte>, b: byte)
    ensures Run(p, s, bytes + [b]) == Step(p, Run(p, s, bytes), b)
  {
    hide Step;
    assert (bytes + [b])[..|bytes|] == bytes;
  }

  // Every line ending of section 9.2.5 of the WHATWG HTML Living Standard, written as one LF.
  function Normalised(bytes: seq<byte>): seq<byte> {
    if bytes == [] then []
    else
      var init, b := Normalised(bytes[..|bytes| - 1]), bytes[|bytes| - 1];
      if b == CR then init + [LF]
      else if b == LF && |bytes| >= 2 && bytes[|bytes| - 2] == CR then init
      else init + [b]
  }

  lemma NormalisedAppend(init: seq<byte>, b: byte)
    ensures Normalised(init + [b]) == Normalised(init) +
      (if b == CR then [LF] else if b == LF && init != [] && init[|init| - 1] == CR then [] else [b])
  {
    assert (init + [b])[..|init|] == init;
  }

  lemma LineEndingsStep(p: Protocol, s: Inspection, s': Inspection, b: byte)
    requires s' == s.(afterCr := false)
    requires s.afterCr ==> s.line == [] && !s.discardLine
    ensures Step(p, s, b).afterCr == (b == CR)
    ensures b == CR ==> Step(p, s, b).(afterCr := false) == Step(p, s', LF)
    ensures b == LF && s.afterCr ==> Step(p, s, b) == s'
    ensures b != CR && (b == LF ==> !s.afterCr) ==> Step(p, s, b) == Step(p, s', b)
    ensures b == CR ==> Step(p, s, b).line == [] && !Step(p, s, b).discardLine
  {
  }

  /** CRLF, a lone CR and LF end lines alike: the stream inspected is the one with every
      ending written as LF, oversized and discarded lines included. */
  lemma {:induction false} LineEndingsEquivalent(p: Protocol, s: Inspection, bytes: seq<byte>)
    requires !s.afterCr
    ensures Run(p, s, bytes).(afterCr := false) == Run(p, s, Normalised(bytes))
    ensures Run(p, s, bytes).afterCr <==> bytes != [] && bytes[|bytes| - 1] == CR
    ensures Run(p, s, bytes).afterCr ==> Run(p, s, bytes).line == [] && !Run(p, s, bytes).discardLine
  {
    hide Step, Run, Normalised;
    if bytes == [] {
      RunNone(p, s);
      NormalisedNone();
    } else {
      var init, b := bytes[..|bytes| - 1], bytes[|bytes| - 1];
      assert init + [b] == bytes;
      LineEndingsEquivalent(p, s, init);
      RunAppend(p, s, init, b);
      NormalisedAppend(init, b);
      LineEndingsStep(p, Run(p, s, init), Run(p, s, Normalised(init)), b);
      RunAppend(p, s, Normalised(init), if b == CR then LF else b);
      assert Normalised(init) + [] == Normalised(init);
    }
  }

  lemma NormalisedNone()
    ensures Normalised([]) == []
  {
  }

  // ---------- slices ----------

  // What the program does with the part of a chunk that holds no line break.
  function Slice(s: Inspection, part: seq<byte>): Inspection {
    if part == [] then s
    else if |s.line| + |part| > MAX_EVENT_BYTES then Inspection([], true, false, Oversized(s.events))
    else if s.discardLine then s.(afterCr := false)
    else s.(line := s.line + part, afterCr := false)
  }

  lemma {:induction false} SliceIsRun(p: Protocol, s: Inspection, part: seq<byte>)
    requires Bounded(s)
    requires forall i :: 0 <= i < |part| ==> !IsBreak(part[i])
    ensures Run(p, s, part) == Slice(s, part)
  {
    hide Line;
    if part != [] {
      var init, b := part[..|part| - 1], part[|part| - 1];
      SliceIsRun(p, s, init);
      assert !IsBreak(b);
      assert part == init + [b];
    }
  }

  // What the program does with a slice and the line break `b` after it.
  function BrokenSlice(p: Protocol, s: Inspection, part: seq<byte>, b: byte): Inspection {
    var events :=
      if s.discardLine then s.events
      else if |s.line| + |part| > MAX_EVENT_BYTES then Oversized(s.events)
      else if s.afterCr && b == LF && s.line + part == [] then s.events
      else Line(p, s.events, s.line + part);
    Inspection(if s.discardLine then s.line else [], false, b == CR, events)
  }

  lemma BrokenSliceIsRun(p: Protocol, s: Inspection, part: seq<byte>, b: byte)
    requires Bounded(s) && IsBreak(b)
    requires forall i :: 0 <= i < |part| ==> !IsBreak(part[i])
    ensures Run(p, s, part + [b]) == BrokenSlice(p, s, part, b)
  {
    hide Line, Run;
    RunAppend(p, s, part, b);
    SliceIsRun(p, s, part);
    assert part == [] ==> s.line + part == s.line;
  }

  lemma Extend(p: Protocol, s: Inspection, item: seq<byte>, i: nat, j: nat)
    requires i <= j <= |item|
    ensures Run(p, Run(p, s, item[..i]), item[i..j]) == Run(p, s, item[..j])
  {
    hide Run;
    RunSplit(p, s, item[..i], item[i..j]);
    assert item[..i] + item[i..j] == item[..j];
  }

  lemma RestIsRun(p: Protocol, s: Inspection, item: seq<byte>, start: nat)
    requires Bounded(s) && start <= |item|
    requires forall i :: start <= i < |item| ==> !IsBreak(item[i])
    ensures Slice(Run(p, s, item[..start]), item[start..]) == Run(p, s, item)
  {
    hide Run, Slice;
    RunKeeps(p, s, item[..start]);
    SliceIsRun(p, Run(p, s, item[..start]), item[start..]);
    Extend(p, s, item, start, |item|);
    assert item[..|item|] == item && item[start..|item|] == item[start..];
  }

  class StreamInspector {
    const protocol: Protocol
    var line: seq<byte>
    var data: seq<byte>
    var event: string
    var discardLine: bool
    var discardEvent: bool
    var afterCr: bool
    var hasOutput: bool
    var commit: bool
    var terminal: bool
    var error: Option<StreamError>

    function State(): Inspection
      reads this
    {
      Inspection(line, discardLine, afterCr, Gathered())
    }

    function Gathered(): Events
      reads this
    {
      Events(data, event, discardEvent, hasOutput, commit, terminal, error)
    }

    constructor (p: Protocol)
      ensures State() == START && protocol == p
    {
      protocol := p;
      line, data, event := [], [], "";
      discardLine, discardEvent, afterCr := false, false, false;
      hasOutput, commit, terminal, error := false, false, false, None;
    }

    method InspectEvent(d: Json)
      modifies `error, `commit, `terminal, `hasOutput
      ensures Gathered() == Inspect(protocol, old(Gathered()), d)
      ensures Concludes(protocol, old(Gathered()), Gathered(), d, old(event))
      ensures data == old(data) && event == old(event) && discardEvent == old(discardEvent)
    {
      var found := protocol.streamError(d, event);
      if found.Some? {
        if error.None? { error := found; }
        commit := true;
        return;
      }
      if d == Str("[DONE]") {
        terminal, commit := true, true;
        return;
      }
      if EndsStream(d) { terminal := true; }
      var output := protocol.semanticOutput(d);
      hasOutput := hasOutput || output;
      commit := commit || output || terminal;
    }

    method DispatchEvent()
      modifies `data, `event, `discardEvent, `error, `commit, `terminal, `hasOutput
      ensures Gathered() == Dispatch(protocol, old(Gathered()))
      ensures data == [] && event == "" && !discardEvent
      ensures if old(data) == [] || old(discardEvent) then ConcludesNothing(old(Gathered()), Gathered())
        else DataConcludes(protocol, old(Gathered()), Gathered(), old(data), old(event))
    {
      if data != [] && !discardEvent {
        match protocol.parse(data) {
          case Some(d) => InspectEvent(d);
          case None =>
            if event == "error" || event == "response.failed" {
              InspectEvent(Obj(map["type" := Str(event), "message" := Str(protocol.decode(data))]));
            } else {
              InspectEvent(Null);
            }
        }
      }
      data := [];
      event := "";
      discardEvent := false;
    }

    method ReadLine(text: seq<byte>)
      modifies `data, `event, `discardEvent, `error, `commit, `terminal, `hasOutput
      ensures Gathered() == Line(protocol, old(Gathered()), text)
    {
      if text == [] {
        DispatchEvent();
      } else if StartsWith(text, EVENT_FIELD) {
        event := Truncate(protocol.decode(Strip(text[6..])), 128);
      } else if StartsWith(text, DATA_FIELD) {
        var part := TrimLeft(text[5..], {SPACE});
        if part == DONE {
          InspectEvent(Str("[DONE]"));
        } else if !discardEvent {
          if |data| + |part| + 1 > MAX_EVENT_BYTES {
            data := [];
            discardEvent, hasOutput, commit := true, true, true;
          } else {
            data := data + part + [LF];
          }
        }
      } else if StartsWith(text, [COLON]) || StartsWith(text, ID_FIELD) || StartsWith(text, RETRY_FIELD) {
        return;
      } else {
        match protocol.parse(text) {
          case Some(d) => InspectEvent(d);
          case None => InspectEvent(Null);
        }
      }
    }

    static method NextBreak(item: seq<byte>, start: nat) returns (end: nat)
      requires start <= |item|
      ensures start <= end <= |item|
      ensures forall i :: start <= i < end ==> !IsBreak(item[i])
      ensures end < |item| ==> IsBreak(item[end])
    {
      end := start;
      while end < |item| && !IsBreak(item[end])
        invariant start <= end <= |item|
        invariant forall i :: start <= i < end ==> !IsBreak(item[i])
      {
        end := end + 1;
      }
    }

    // One slice and the line break that ends it.
    method FeedBroken(part: seq<byte>, b: byte)
      modifies this
      ensures State() == BrokenSlice(protocol, old(State()), part, b)
    {
      if !discardLine {
        if |line| + |part| > MAX_EVENT_BYTES {
          line := [];
          discardEvent, hasOutput, commit := true, true, true;
        } else {
          line := line + part;
          if !(afterCr && b == LF && line == []) {
            ReadLine(line);
          }
          line := [];
        }
      }
      discardLine := false;
      afterCr := b == CR;
    }

    // The rest of a chunk, which no line break ends.
    method FeedRest(part: seq<byte>)
      modifies this
      ensures State() == Slice(old(State()), part)
    {
      if part != [] {
        afterCr := false;
        if |line| + |part| > MAX_EVENT_BYTES {
          line := [];
          discardLine, discardEvent, hasOutput, commit := true, true, true, true;
        } else if !discardLine {
          line := line + part;
        }
      }
    }

    // One turn of the loop: everything up to and including the break at `end`.
    method FeedUpTo(item: seq<byte>, start: nat, end: nat, ghost s: Inspection)
      requires Bounded(s) && start <= end < |item| && IsBreak(item[end])
      requires forall i :: start <= i < end ==> !IsBreak(item[i])
      requires State() == Run(protocol, s, item[..start])
      modifies this
      ensures State() == Run(protocol, s, item[..end + 1])
    {
      hide Run, BrokenSlice, Bounded, Later, Line;
      RunKeeps(protocol, s, item[..start]);
      BrokenSliceIsRun(protocol, State(), item[start..end], item[end]);
      assert item[start..end] + [item[end]] == item[start..end + 1];
      Extend(protocol, s, item, start, end + 1);
      FeedBroken(item[start..end], item[end]);
    }

    method FeedBytes(item: seq<byte>)
      requires Bounded(State())
      modifies this
      ensures State() == Run(protocol, old(State()), item)
    {
      var start := 0;
      var end := NextBreak(item, 0);
      while end < |item|
        invariant start <= end <= |item|
        invariant end < |item| ==> IsBreak(item[end])
        invariant forall i :: start <= i < end ==> !IsBreak(item[i])
        invariant State() == Run(protocol, old(State()), item[..start])
      {
        FeedUpTo(item, start, end, old(State()));
        start := end + 1;
        end := NextBreak(item, start);
      }
      RestIsRun(protocol, old(State()), item, start);
      FeedRest(item[start..]);
    }

    method Feed(item: Item)
      requires Bounded(State())
      modifies this
      ensures State() == FeedItem(protocol, old(State()), item)
      ensures Bounded(State())
      ensures item.Record? ==> Concludes(protocol, old(Gathered()), Gathered(), item.event, old(event))
      ensures item.Foreign? ==> Concludes(protocol, old(Gathered()), Gathered(), Null, old(event))
      ensures !item.Chunk? ==> line == old(line) && data == old(data) && event == old(event)
    {
      FeedKeeps(protocol, State(), item);
      match item {
        case Chunk(bytes) => FeedBytes(bytes);
        case Record(d) => InspectEvent(d);
        case Foreign => InspectEvent(Null);
      }
    }

    method Finish()
      requires Bounded(State())
      modifies this
      ensures State() == Finished(protocol, old(State()))
    {
      if line != [] && !discardLine {
        ReadLine(line);
      }
      line := [];
      DispatchEvent();
    }
  }
}
