/**
 The keepalive pump of `core/stream_pipeline.py`: `wait_for_timeout`,
 `iter_sse_with_keepalive`, and `prepare_stream` with its `replay`.

 Time is a schedule: one Boolean for each wait, true when the read in flight completes within
 the interval. Nothing is assumed of it. A read that times out stays in flight and is handed to
 the next wait; starting a second one beside it is the error the program calls re-entrance.
 */
module StreamPipeline {
  import opened Collections
  import opened Json
  import opened StreamErrors
  import opened StreamGuard

  datatype Frame<+T> = Keepalive | Data(item: T)

  datatype ReadResult<+T> = Got(item: T) | Stopped | Failed

  datatype WaitStatus<+T> = Timeout | Success(item: T) | AtEnd | Error | Reentrant

  datatype PumpEnd = Drained | Interrupted | Open

  /** An async generator as its reader sees it: `started` counts the calls of `__anext__`,
      `finished` the results taken. */
  class AsyncReads<T> {
    const items: seq<T>
    const ending: SourceEnd
    var started: nat
    var finished: nat

    predicate Valid()
      reads this
    {
      finished <= started <= finished + 1
    }

    predicate InFlight()
      reads this
    {
      started == finished + 1
    }

    constructor (items: seq<T>, ending: SourceEnd)
      ensures Valid() && !InFlight() && finished == 0
      ensures this.items == items && this.ending == ending
    {
      this.items, this.ending := items, ending;
      started, finished := 0, 0;
    }

    // False stands for "asynchronous generator is already running".
    method Begin() returns (ok: bool)
      requires Valid()
      modifies `started
      ensures Valid() && InFlight() && ok == !old(InFlight())
    {
      ok := started == finished;
      if ok { started := started + 1; }
    }

    method Take() returns (r: ReadResult<T>)
      requires Valid() && InFlight()
      modifies `finished
      ensures Valid() && !InFlight() && finished == old(finished) + 1
      ensures r == if old(finished) < |items| then Got(items[old(finished)])
                   else if ending.Exhausted? then Stopped else Failed
    {
      r := if finished < |items| then Got(items[finished])
           else if ending.Exhausted? then Stopped else Failed;
      finished := finished + 1;
    }
  }

  /** Waits once for the read in flight, which `waitTask` says the caller holds. */
  method WaitForTimeout<T>(upstream: AsyncReads<T>, waitTask: bool, done: bool) returns (status: WaitStatus<T>)
    requires upstream.Valid() && (waitTask ==> upstream.InFlight())
    modifies upstream
    ensures upstream.Valid()
    ensures status.Reentrant? <==> !waitTask && old(upstream.InFlight())
    ensures status.Reentrant? ==> upstream.finished == old(upstream.finished)
    ensures status.Timeout? ==> upstream.InFlight() && upstream.finished == old(upstream.finished)
    ensures status.Success? || status.AtEnd? || status.Error? ==>
      !upstream.InFlight() && upstream.finished == old(upstream.finished) + 1
    ensures status.Success? ==>
      old(upstream.finished) < |upstream.items| && status.item == upstream.items[old(upstream.finished)]
    ensures status.AtEnd? ==> old(upstream.finished) >= |upstream.items| && upstream.ending.Exhausted?
    ensures status.Error? ==> old(upstream.finished) >= |upstream.items| && upstream.ending.Broken?
    ensures !status.Reentrant? ==> (status.Timeout? <==> !done)
  {
    if !waitTask {
      var ok := upstream.Begin();
      if !ok { return Reentrant; }
    }
    if !done { return Timeout; }
    var r := upstream.Take();
    match r {
      case Got(item) => status := Success(item);
      case Stopped => status := AtEnd;
      case Failed => status := Error;
    }
  }

  // The frames with the pump's own keepalives taken out.
  function Erased<T>(frames: seq<Frame<T>>): seq<T> {
    if frames == [] then []
    else
      var init, last := Erased(frames[..|frames| - 1]), frames[|frames| - 1];
      if last.Data? then init + [last.item] else init
  }

  function Rendered<T, U>(render: T -> U, items: seq<T>): seq<U> {
    seq(|items|, i requires 0 <= i < |items| => render(items[i]))
  }

  lemma ErasedAppend<T>(frames: seq<Frame<T>>, frame: Frame<T>)
    ensures Erased(frames + [frame]) == Erased(frames) + (if frame.Data? then [frame.item] else [])
  {
    assert (frames + [frame])[..|frames|] == frames;
  }

  lemma {:induction false} ErasedConcat<T>(a: seq<Frame<T>>, b: seq<Frame<T>>)
    ensures Erased(a + b) == Erased(a) + Erased(b)
  {
    if b == [] {
      assert a + b == a;
    } else {
      var init := b[..|b| - 1];
      assert (a + b)[..|a + b| - 1] == a + init;
      ErasedConcat(a, init);
    }
  }

  lemma RenderedNext<T, U>(render: T -> U, items: seq<T>, from: nat, to: nat)
    requires from <= to < |items|
    ensures Rendered(render, items[from..to + 1]) == Rendered(render, items[from..to]) + [render(items[to])]
  {
    assert items[from..to + 1] == items[from..to] + [items[to]];
  }

  // Behind the first `lead` frames each wait gave one: a keepalive exactly when it timed out.
  predicate InStep<T>(out: seq<Frame<T>>, lead: nat, schedule: seq<bool>) {
    && lead <= |out| <= lead + |schedule|
    && forall i :: lead <= i < |out| ==> (out[i].Keepalive? <==> !schedule[i - lead])
  }

  /** The pump. Whatever the schedule, the frames without keepalives are the items read, in
      order; a wait that times out gives a keepalive, one that ends the stream gives nothing, and
      any other gives its item; a read that timed out is the one the next wait takes up, so
      re-entrance is never met. */
  method IterSseWithKeepalive<T, U>(
      upstream: AsyncReads<T>, schedule: seq<bool>, waitTask: bool, emitInitial: bool, render: T -> U)
    returns (out: seq<Frame<U>>, end: PumpEnd, reentered: bool)
    requires upstream.Valid() && (waitTask <==> upstream.InFlight()) && upstream.finished <= |upstream.items|
    modifies upstream
    ensures upstream.Valid() && !reentered
    ensures end.Open? ==> old(upstream.finished) <= upstream.finished <= |upstream.items|
    ensures InStep(out, if emitInitial then 1 else 0, schedule) && (emitInitial ==> out[0].Keepalive?)
    ensures end.Open? <==> |out| == |schedule| + (if emitInitial then 1 else 0)
    ensures !end.Open? ==> schedule[|out| - (if emitInitial then 1 else 0)]
    ensures end.Open? ==> Erased(out) == Rendered(render, upstream.items[old(upstream.finished)..upstream.finished])
    ensures !end.Open? ==> Erased(out) == Rendered(render, upstream.items[old(upstream.finished)..])
    ensures end.Drained? ==> upstream.ending.Exhausted?
    ensures end.Interrupted? ==> upstream.ending.Broken?
  {
    var task := waitTask;
    reentered := false;
    out := [];
    ghost var from := upstream.finished;
    if emitInitial {
      out := [Keepalive];
    }
    assert Erased(out) == [] && Rendered(render, upstream.items[from..from]) == [];
    for i := 0 to |schedule|
      invariant upstream.Valid() && (task <==> upstream.InFlight())
      invariant from <= upstream.finished <= |upstream.items| && !reentered
      invariant |out| == i + (if emitInitial then 1 else 0)
      invariant InStep(out, if emitInitial then 1 else 0, schedule) && (emitInitial ==> out[0].Keepalive?)
      invariant Erased(out) == Rendered(render, upstream.items[from..upstream.finished])
    {
      ghost var before := upstream.finished;
      var status := WaitForTimeout(upstream, task, schedule[i]);
      match status {
        case AtEnd =>
          assert upstream.items[from..before] == upstream.items[from..];
          return out, Drained, reentered;
        case Error =>
          assert upstream.items[from..before] == upstream.items[from..];
          return out, Interrupted, reentered;
        case Timeout =>
          task := true;
          ErasedAppend<U>(out, Keepalive);
          out := out + [Keepalive];
        case Reentrant =>
          task := false;
          reentered := true;
          out := out + [Keepalive];
        case Success(item) =>
          task := false;
          RenderedNext(render, upstream.items, from, before);
          ErasedAppend(out, Data(render(item)));
          out := out + [Data(render(item))];
      }
    }
    end := Open;
  }

  // Without keepalives every read is awaited to its end; the client takes at most `steps` items.
  method Forward<T, U>(upstream: AsyncReads<T>, steps: nat, render: T -> U)
    returns (out: seq<Frame<U>>, end: PumpEnd)
    requires upstream.Valid() && !upstream.InFlight() && upstream.finished <= |upstream.items|
    modifies upstream
    ensures upstream.Valid()
    ensures end.Open? ==> old(upstream.finished) <= upstream.finished <= |upstream.items|
    ensures |out| <= steps && (end.Open? <==> |out| == steps)
    ensures end.Open? ==> Erased(out) == Rendered(render, upstream.items[old(upstream.finished)..upstream.finished])
    ensures !end.Open? ==> Erased(out) == Rendered(render, upstream.items[old(upstream.finished)..])
    ensures end.Drained? ==> upstream.ending.Exhausted?
    ensures end.Interrupted? ==> upstream.ending.Broken?
    ensures Keepalive !in out
  {
    out := [];
    ghost var from := upstream.finished;
    assert Rendered(render, upstream.items[from..from]) == [];
    for i := 0 to steps
      invariant upstream.Valid() && !upstream.InFlight() && from <= upstream.finished <= |upstream.items|
      invariant |out| == i && Keepalive !in out
      invariant Erased(out) == Rendered(render, upstream.items[from..upstream.finished])
    {
      ghost var before := upstream.finished;
      var ok := upstream.Begin();
      var r := upstream.Take();
      match r {
        case Stopped =>
          assert upstream.items[from..before] == upstream.items[from..];
          return out, Drained;
        case Failed =>
          assert upstream.items[from..before] == upstream.items[from..];
          return out, Interrupted;
        case Got(item) =>
          RenderedNext(render, upstream.items, from, before);
          ErasedAppend(out, Data(render(item)));
          out := out + [Data(render(item))];
      }
    }
    end := Open;
  }

  /** What `prepare_stream` hands to `replay`: the first item, or the read still in flight. */
  datatype Prepared<+T> = Ready(first: Option<T>, pending: bool) | RaisedBeforeResponse

  const ATTEMPT_KEYS: set<string> :=
    {"_stream_committed", "_stream_error", "_stream_error_handled", "_stream_has_output", "_stream_raw_inspector"}

  class RequestInfo {
    var entries: map<string, Json>
  }

  method PrepareStream<T>(info: RequestInfo, upstream: AsyncReads<T>, keepalive: bool, firstDone: bool)
    returns (prepared: Prepared<T>)
    requires upstream.Valid() && !upstream.InFlight() && upstream.finished == 0
    modifies info, upstream
    ensures info.entries == old(info.entries) - ATTEMPT_KEYS
    ensures upstream.Valid()
    ensures prepared.RaisedBeforeResponse? <==> upstream.items == [] && (keepalive ==> firstDone)
    ensures prepared.Ready? ==>
      (prepared.pending <==> upstream.InFlight()) && (prepared.pending <==> prepared.first.None?)
    ensures prepared.Ready? ==> (prepared.pending <==> keepalive && !firstDone)
    ensures prepared.Ready? && prepared.first.Some? ==>
      upstream.finished == 1 && upstream.items != [] && prepared.first.value == upstream.items[0]
    ensures prepared.Ready? && prepared.pending ==> upstream.finished == 0
  {
    info.entries := info.entries - ATTEMPT_KEYS;
    if keepalive {
      var status := WaitForTimeout(upstream, false, firstDone);
      match status {
        case Timeout => prepared := Ready(None, true);
        case Success(item) => prepared := Ready(Some(item), false);
        case AtEnd => prepared := RaisedBeforeResponse;
        case Error => prepared := RaisedBeforeResponse;
        case Reentrant => prepared := RaisedBeforeResponse;
      }
    } else {
      var ok := upstream.Begin();
      var r := upstream.Take();
      match r {
        case Got(item) => prepared := Ready(Some(item), false);
        case Stopped => prepared := RaisedBeforeResponse;
        case Failed => prepared := RaisedBeforeResponse;
      }
    }
  }

  /** The response body: the first item if it is there, then the pump over the rest, which takes
      over the read left in flight. */
  method Replay<T, U>(prepared: Prepared<T>, upstream: AsyncReads<T>, keepalive: bool, schedule: seq<bool>,
      render: T -> U)
    returns (out: seq<Frame<U>>, end: PumpEnd)
    requires prepared.Ready? && upstream.Valid() && upstream.finished <= |upstream.items|
    requires prepared.pending <==> upstream.InFlight()
    requires prepared.pending <==> prepared.first.None?
    requires prepared.pending ==> keepalive && upstream.finished == 0
    requires prepared.first.Some? ==> upstream.finished == 1 && prepared.first.value == upstream.items[0]
    modifies upstream
    ensures end.Open? ==>
      upstream.finished <= |upstream.items| && Erased(out) == Rendered(render, upstream.items[..upstream.finished])
    ensures end.Open? <==> |out| == |schedule| + 1
    ensures 1 <= |out| <= |schedule| + 1 && (out[0].Keepalive? <==> prepared.pending)
    ensures keepalive ==> InStep(out, 1, schedule) && (!end.Open? ==> schedule[|out| - 1])
    ensures !end.Open? ==> Erased(out) == Rendered(render, upstream.items)
    ensures end.Drained? ==> upstream.ending.Exhausted?
    ensures end.Interrupted? ==> upstream.ending.Broken?
    ensures !keepalive ==> Keepalive !in out
  {
    hide Erased, Rendered;
    var head: seq<Frame<U>> := [];
    if prepared.first.Some? {
      head := [Data(render(prepared.first.value))];
    }
    ghost var from := upstream.finished;
    var tail: seq<Frame<U>>;
    if keepalive {
      var reentered;
      tail, end, reentered := IterSseWithKeepalive(upstream, schedule, prepared.pending, prepared.pending, render);
    } else {
      tail, end := Forward(upstream, |schedule|, render);
    }
    out := head + tail;
    ErasedConcat(head, tail);
    FirstFrame(render, upstream.items);
    RenderedJoin(render, upstream.items, from, if end.Open? then upstream.finished else |upstream.items|);
  }

  lemma FirstFrame<T, U>(render: T -> U, items: seq<T>)
    ensures Erased<U>([]) == Rendered(render, items[..0]) == []
    ensures items != [] ==> Erased([Data(render(items[0]))]) == Rendered(render, items[..1])
  {
    if items != [] { ErasedAppend([], Data(render(items[0]))); }
  }

  lemma RenderedJoin<T, U>(render: T -> U, items: seq<T>, from: nat, to: nat)
    requires from <= to <= |items|
    ensures Rendered(render, items[..from]) + Rendered(render, items[from..to]) == Rendered(render, items[..to])
    ensures to == |items| ==> items[..to] == items && items[from..to] == items[from..]
  {
    assert items[from..to] == items[..to][from..];
  }

  /** From upstream to client: the guard, the first wait and the replay together. What the
      client receives, keepalives aside, is a prefix of the upstream items, in order, and all
      that the guard let through once the body has ended. An error found before release and
      commit reaches the caller as an exception when the first read completes in time. */
  method Serve<U>(
      p: Protocol, source: seq<Item>, sourceEnd: SourceEnd, around: Surroundings, info: RequestInfo,
      keepalive: bool, firstDone: bool, schedule: seq<bool>, render: Item -> U)
    returns (raised: bool, out: seq<Frame<U>>, end: PumpEnd)
    modifies info
    ensures Erased(out) <= Rendered(render, source)
    ensures !raised && !end.Open? ==>
      Erased(out) == Rendered(render, Guarding(p, source, sourceEnd, around).Outcome().yielded)
    ensures !raised && end.Drained? && Guarding(p, source, sourceEnd, around).Outcome().ending.Completed? ==>
      Erased(out) == Rendered(render, source)
    ensures raised ==> out == []
    ensures !raised ==> out != [] && (out[0].Keepalive? <==> keepalive && !firstDone)
    ensures !raised ==> |out| <= |schedule| + 1 && (end.Open? <==> |out| == |schedule| + 1)
    ensures !raised ==> forall i :: 1 <= i < |out| ==> (out[i].Keepalive? <==> keepalive && !schedule[i - 1])
    ensures !raised && !end.Open? ==>
      var ending := Guarding(p, source, sourceEnd, around).Outcome().ending;
      end.Drained? <==> ending.Completed? || ending.InStream?
    ensures raised <==>
      Guarding(p, source, sourceEnd, around).Outcome().yielded == [] && (keepalive ==> firstDone)
  {
    hide Rendered, HoldsBack, EndsSo, Guarding.Outcome;
    var run, progress := GuardStream(p, source, sourceEnd, around);
    YieldsPrefix(Guarding(p, source, sourceEnd, around));
    var normal := run.ending.Completed? || run.ending.InStream?;
    var upstream := new AsyncReads<Item>(run.yielded, if normal then Exhausted else Broken);
    var prepared := PrepareStream(info, upstream, keepalive, firstDone);
    if prepared.RaisedBeforeResponse? {
      return true, [], Interrupted;
    }
    raised := false;
    out, end := Replay(prepared, upstream, keepalive, schedule, render);
    RenderedPrefix(render, source, run.yielded, if end.Open? then upstream.finished else |run.yielded|);
  }

  lemma RenderedPrefix<T, U>(render: T -> U, source: seq<T>, yielded: seq<T>, to: nat)
    requires yielded <= source && to <= |yielded|
    ensures Rendered(render, yielded[..to]) <= Rendered(render, source)
    ensures to == |yielded| ==> yielded[..to] == yielded
  {
    assert yielded[..to] == source[..to];
    assert Rendered(render, source)[..to] == Rendered(render, source[..to]);
  }
}
