/**
 `guard_stream` of `core/stream_errors.py`: the bootstrap buffer that decides when upstream
 items may be released downstream.

 The surroundings are arbitrary: the committed flag and errors reported by other observers are
 read afresh at every moment, and the source may break off. `Outcome` describes a run without
 mentioning the buffer, `GuardStream` is the loop with its deque.
 */
module StreamGuard {
  import opened Collections
  import opened StreamErrors

  const BOOTSTRAP_CHUNKS := 32
  const BOOTSTRAP_BYTES := 64 * 1024

  /** What the guard reads from its surroundings. Moment `2 * i` is the release decision on item
      `i`, moment `2 * i + 1` the handling of an error found with item `i`; the end of the source
      is item `|source|`. */
  datatype Surroundings = Surroundings(
    committed: nat -> bool,
    reported: nat -> Option<StreamError>,
    triggers: Item -> bool,
    triggerError: StreamError)

  datatype SourceEnd = Exhausted | Broken

  datatype Ending =
    | Completed                        // the generator ended normally
    | InStream(error: StreamError)     // the error item itself was the last one yielded
    | Raised(error: StreamError)       // UpstreamStreamError
    | RaisedEmpty                      // "ended before output"
    | SourceRaised                     // the source's own exception

  datatype GuardRun = GuardRun(yielded: seq<Item>, ending: Ending)

  datatype Guarding = Guarding(p: Protocol, source: seq<Item>, sourceEnd: SourceEnd, around: Surroundings) {

    // The inspector after `k` items.
    ghost function After(k: nat): Inspection
      requires k <= |source|
    {
      FeedAll(p, START, source[..k])
    }

    // Item `j` may be held back with everything before it.
    ghost predicate Withholds(j: nat)
      requires j < |source|
    {
      && !After(j + 1).events.commit
      && !around.committed(2 * j)
      && j + 1 < BOOTSTRAP_CHUNKS
      && Size(source[..j + 1]) < BOOTSTRAP_BYTES
    }

    ghost predicate Released(k: nat)
      requires k <= |source|
    {
      exists j: nat :: j < k && !Withholds(j)
    }

    // What has been yielded once `k` items have passed without an error.
    ghost function Sent(k: nat): seq<Item>
      requires k <= |source|
    {
      if Released(k) then source[..k] else []
    }

    // The error found with item `k`, or at the end of the source.
    ghost function FoundError(k: nat): Option<StreamError>
      requires k <= |source|
    {
      if around.reported(k).Some? then around.reported(k)
      else if k == |source| then Finished(p, After(k)).events.error
      else if After(k + 1).events.error.Some? then After(k + 1).events.error
      else if !Released(k) && around.triggers(source[k]) then Some(around.triggerError)
      else None
    }

    // The first item at or after `k` found to carry an error.
    ghost function FirstError(k: nat): (r: nat)
      requires k <= |source|
      ensures k <= r <= |source|
      ensures forall j :: k <= j < r ==> FoundError(j).None?
      ensures r < |source| ==> FoundError(r).Some?
      decreases |source| - k
    {
      if k == |source| || FoundError(k).Some? then k else FirstError(k + 1)
    }

    // The first error is found before release and commit.
    ghost predicate FailsEarly() {
      var k := FirstError(0);
      && FoundError(k).Some? && !Released(k) && !around.committed(2 * k + 1)
      && (k == |source| ==> sourceEnd.Exhausted?)
    }

    ghost function Outcome(): GuardRun {
      var k := FirstError(0);
      var error := FoundError(k);
      if k < |source| then
        if !around.committed(2 * k + 1) || source[k].Record? then GuardRun(Sent(k), Raised(error.value))
        else GuardRun(source[..k + 1], InStream(error.value))
      else if sourceEnd.Broken? then GuardRun(Sent(k), SourceRaised)
      else
        var final := Finished(p, After(k)).events;
        if error.Some? && !around.committed(2 * k + 1) then GuardRun(Sent(k), Raised(error.value))
        else if !final.hasOutput && !final.terminal && error.None? then GuardRun(Sent(k), RaisedEmpty)
        else GuardRun(source, Completed)
    }
  }

  // ---------- the same said of the items ----------

  // The number of items out by the time the next one is asked for.
  function Out(progress: seq<nat>): nat {
    if progress == [] then 0 else progress[|progress| - 1]
  }

  /** What is held back: an item and all before it stay in the buffer exactly while none of them has
      committed the stream, the response was not committed when any of them was decided on, they
      number fewer than 32 and they stay under 64 KiB; otherwise all of them are out. */
  ghost predicate HoldsBack(p: Protocol, source: seq<Item>, around: Surroundings, progress: seq<nat>) {
    && |progress| <= |source|
    && forall i :: 0 <= i < |progress| ==>
      && (progress[i] == 0 || progress[i] == i + 1)
      && (progress[i] == 0 <==>
        && i + 1 < 32 && Size(source[..i + 1]) < 64 * 1024
        && forall j :: 0 <= j <= i ==> Inconclusive(p, source, around, j))
  }

  // Item `j` leaves the stream uncommitted, and the response was not committed either.
  ghost predicate Inconclusive(p: Protocol, source: seq<Item>, around: Surroundings, j: nat)
    requires j < |source|
  {
    !FeedAll(p, START, source[..j + 1]).events.commit && !around.committed(2 * j)
  }

  // The error met with an item: one reported, else the inspector's, else that of a trigger while
  // nothing is out.
  ghost function ErrorMet(p: Protocol, source: seq<Item>, around: Surroundings, out: nat, i: nat): Option<StreamError>
    requires i < |source|
  {
    if around.reported(i).Some? then around.reported(i)
    else if FeedAll(p, START, source[..i + 1]).events.error.Some? then FeedAll(p, START, source[..i + 1]).events.error
    else if out == 0 && around.triggers(source[i]) then Some(around.triggerError)
    else None
  }

  /** How the generator ends: at the first item with an error, in the stream once the response is
      committed, otherwise with the buffer dropped; or at the end of the source, with the buffer
      flushed unless an error is raised or nothing came. */
  ghost predicate EndsSo(p: Protocol, source: seq<Item>, sourceEnd: SourceEnd, around: Surroundings,
      run: GuardRun, progress: seq<nat>)
    requires |progress| <= |source| && Out(progress) <= |source|
  {
    var n, sent := |progress|, source[..Out(progress)];
    && (forall i :: 0 <= i < n ==> ErrorMet(p, source, around, Out(progress[..i]), i).None?)
    && if n < |source| then
      var error := ErrorMet(p, source, around, Out(progress), n);
      && error.Some?
      && run ==
        if around.committed(2 * n + 1) && !source[n].Record? then GuardRun(source[..n + 1], InStream(error.value))
        else GuardRun(sent, Raised(error.value))
    else if sourceEnd.Broken? then run == GuardRun(sent, SourceRaised)
    else
      var final := Finished(p, FeedAll(p, START, source)).events;
      var error := if around.reported(n).Some? then around.reported(n) else final.error;
      run == if error.Some? && !around.committed(2 * n + 1) then GuardRun(sent, Raised(error.value))
        else if !final.hasOutput && !final.terminal && error.None? then GuardRun(sent, RaisedEmpty)
        else GuardRun(source, Completed)
  }

  function ItemSize(item: Item): nat {
    if item.Chunk? then |item.bytes| else BOOTSTRAP_BYTES
  }

  function Size(items: seq<Item>): nat {
    if items == [] then 0 else Size(items[..|items| - 1]) + ItemSize(items[|items| - 1])
  }

  lemma AfterNone(g: Guarding)
    ensures g.After(0) == START && Bounded(START)
  {
  }

  lemma NothingYet(g: Guarding)
    ensures Size(g.source[..0]) == 0 && !g.Released(0)
  {
  }

  lemma AfterNext(g: Guarding, k: nat)
    requires k < |g.source|
    ensures g.After(k + 1) == FeedItem(g.p, g.After(k), g.source[k])
    ensures Size(g.source[..k + 1]) == Size(g.source[..k]) + ItemSize(g.source[k])
  {
    assert g.source[..k + 1][..k] == g.source[..k];
  }

  lemma AfterKeeps(g: Guarding, j: nat, k: nat)
    requires j <= k <= |g.source|
    ensures Bounded(g.After(k)) && Later(g.After(j).events, g.After(k).events)
    decreases k
  {
    InspectionKeeps(g.p, START, g.source[..k]);
    if j < k {
      AfterKeeps(g, j, k - 1);
      AfterNext(g, k - 1);
      FeedKeeps(g.p, g.After(k - 1), g.source[k - 1]);
    }
  }

  lemma {:induction false} SizeGrows(items: seq<Item>, j: nat, k: nat)
    requires j <= k <= |items|
    ensures Size(items[..j]) <= Size(items[..k])
    decreases k
  {
    if j < k {
      SizeGrows(items, j, k - 1);
      assert items[..k][..k - 1] == items[..k - 1];
    }
  }

  // The first `k` items may all be held back.
  ghost predicate Provisional(g: Guarding, k: nat)
    requires k <= |g.source|
  {
    && k < BOOTSTRAP_CHUNKS && Size(g.source[..k]) < BOOTSTRAP_BYTES
    && forall j :: 0 <= j < k ==> Inconclusive(g.p, g.source, g.around, j)
  }

  lemma ReleasedMeans(g: Guarding, k: nat)
    requires k <= |g.source|
    ensures g.Released(k) <==> !Provisional(g, k)
  {
    hide Size, FeedAll;
    NothingYet(g);
    if !g.Released(k) {
      if k > 0 { assert g.Withholds(k - 1); }
      forall j | 0 <= j < k
        ensures Inconclusive(g.p, g.source, g.around, j)
      {
        assert g.Withholds(j);
      }
    }
    if Provisional(g, k) {
      forall j: nat | j < k
        ensures g.Withholds(j)
      {
        SizeGrows(g.source, j + 1, k);
        assert Inconclusive(g.p, g.source, g.around, j);
      }
    }
  }

  // The closed form said of the items.
  lemma OutcomeMeans(g: Guarding, progress: seq<nat>)
    requires |progress| == g.FirstError(0)
    requires forall i :: 0 <= i < |progress| ==> progress[i] == |g.Sent(i + 1)|
    ensures HoldsBack(g.p, g.source, g.around, progress) && Out(progress) <= |g.source|
    ensures EndsSo(g.p, g.source, g.sourceEnd, g.around, g.Outcome(), progress)
  {
    hide Size, FeedAll, Finished, Guarding.Released, Guarding.Outcome, Guarding.FirstError;
    var n := |progress|;
    forall i | 0 <= i < n
      ensures (progress[i] == 0 || progress[i] == i + 1) && (progress[i] == 0 <==> !g.Released(i + 1))
    {
    }
    HoldsMeans(g, progress);
    NothingYet(g);
    forall i | 0 <= i <= n
      ensures Out(progress[..i]) == |g.Sent(i)|
      ensures Out(progress[..i]) == 0 <==> !g.Released(i)
    {
    }
    assert progress[..n] == progress;
    forall i | 0 <= i < n
      ensures ErrorMet(g.p, g.source, g.around, Out(progress[..i]), i).None?
    {
      assert g.FoundError(i).None? by { NoErrorBefore(g, i); }
    }
    assert g.source[..|g.source|] == g.source;
    OutcomeAt(g, n);
  }

  lemma NoErrorBefore(g: Guarding, i: nat)
    requires i < g.FirstError(0)
    ensures g.FoundError(i).None?
  {
  }

  lemma HoldsMeans(g: Guarding, progress: seq<nat>)
    requires |progress| <= |g.source|
    requires forall i :: 0 <= i < |progress| ==>
      (progress[i] == 0 || progress[i] == i + 1) && (progress[i] == 0 <==> !g.Released(i + 1))
    ensures HoldsBack(g.p, g.source, g.around, progress)
  {
    hide Size, FeedAll, Guarding.Released;
    forall i | 0 <= i < |progress|
      ensures progress[i] == 0 <==> Provisional(g, i + 1)
    {
      ReleasedMeans(g, i + 1);
    }
  }

  // ---------- properties of the outcome ----------

  /** Whatever the surroundings do, the items yielded are a prefix of the source; all of it when
      the generator ends normally, which it does only at the source's own end and never on a
      stream without output, terminal event or error. */
  lemma YieldsPrefix(g: Guarding)
    ensures g.Outcome().yielded <= g.source
    ensures g.Outcome().ending.Completed? ==> g.Outcome().yielded == g.source && g.sourceEnd.Exhausted?
    ensures g.Outcome().ending.Completed? ==>
      var final := Finished(g.p, g.After(|g.source|)).events;
      final.hasOutput || final.terminal || g.FoundError(|g.source|).Some?
    ensures g.Outcome().ending.InStream? ==>
      var k := g.FirstError(0);
      && k < |g.source| && g.Outcome().yielded == g.source[..k + 1]
      && !g.source[k].Record? && g.around.committed(2 * k + 1)
  {
  }

  /** Items are held back only while nothing they carry is output, a terminal event or an error,
      the response is not committed, and they number at most 31 and stay under 64 KiB. */
  lemma WithheldOnlyWhileProvisional(g: Guarding, k: nat)
    requires k <= |g.source| && !g.Released(k)
    ensures k < BOOTSTRAP_CHUNKS && Size(g.source[..k]) < BOOTSTRAP_BYTES
    ensures forall j | 0 <= j <= k ::
      var s := g.After(j).events; !s.commit && !s.hasOutput && !s.terminal && s.error.None?
    ensures forall j: nat :: j < k ==> !g.around.committed(2 * j)
  {
    if k > 0 {
      assert g.Withholds(k - 1);
    }
    forall j: nat | j <= k
      ensures !g.After(j).events.commit && Bounded(g.After(j))
    {
      AfterKeeps(g, j, j);
      if j > 0 { assert g.Withholds(j - 1); }
    }
    forall j: nat | j < k
      ensures !g.around.committed(2 * j)
    {
      assert g.Withholds(j);
    }
  }

  /** An error found before release and before commit is raised with nothing yielded. */
  lemma EarlyErrorRaisesFirst(g: Guarding)
    requires g.FailsEarly()
    ensures g.Outcome() == GuardRun([], Raised(g.FoundError(g.FirstError(0)).value))
  {
  }

  /** An item that commits the stream, or that meets a committed response, is yielded before
      the next one is asked for. */
  lemma CommittedItemsPass(g: Guarding, k: nat)
    requires k < g.FirstError(0)
    requires g.After(k + 1).events.commit || g.around.committed(2 * k)
    ensures g.Sent(k + 1) == g.source[..k + 1]
    ensures g.source[..k + 1] <= g.Outcome().yielded
  {
    assert !g.Withholds(k);
    assert g.Released(k + 1) && g.Released(g.FirstError(0));
    var e := g.FirstError(0);
    assert g.source[..e][..k + 1] == g.source[..k + 1];
    if e < |g.source| {
      assert g.source[..e + 1][..k + 1] == g.source[..k + 1];
    }
  }

  // ---------- the loop ----------

  // The loop over the source.
  method GuardLoop(p: Protocol, source: seq<Item>, sourceEnd: SourceEnd, around: Surroundings)
    returns (run: GuardRun, progress: seq<nat>)
    ensures run == Guarding(p, source, sourceEnd, around).Outcome()
    ensures |progress| == Guarding(p, source, sourceEnd, around).FirstError(0)
    ensures forall i :: 0 <= i < |progress| ==> progress[i] == |Guarding(p, source, sourceEnd, around).Sent(i + 1)|
  {
    hide FeedItem, FeedAll, Finished, Later, Guarding.Outcome, Guarding.FirstError, Guarding.Released, Size, Bounded;
    ghost var g := Guarding(p, source, sourceEnd, around);
    var inspector := new StreamInspector(p);
    var buffered: seq<Item> := [];
    var size := 0;
    var released := false;
    var yielded: seq<Item> := [];
    progress := [];
    AfterNone(g);
    assert Size(source[..0]) == 0 && !g.Released(0) by { NothingYet(g); }
    for i := 0 to |source|
      invariant fresh(inspector) && inspector.protocol == p
      invariant inspector.State() == g.After(i) && Bounded(inspector.State())
      invariant released == g.Released(i)
      invariant yielded == g.Sent(i) && yielded + buffered == source[..i]
      invariant size == if released then size else Size(source[..i])
      invariant forall j :: 0 <= j < i ==> g.FoundError(j).None?
      invariant |progress| == i && forall j :: 0 <= j < i ==> progress[j] == |g.Sent(j + 1)|
    {
      var item := source[i];
      AfterNext(g, i);
      inspector.Feed(item);
      var error := if around.reported(i).Some? then around.reported(i) else inspector.error;
      if error.None? && !released && around.triggers(item) {
        error := Some(around.triggerError);
      }
      assert error == g.FoundError(i);
      if error.Some? {
        FirstErrorIs(g, i, 0);
        OutcomeAt(g, i);
        if !around.committed(2 * i + 1) || item.Record? {
          return GuardRun(yielded, Raised(error.value)), progress;
        }
        yielded := yielded + buffered;
        yielded := yielded + [item];
        return GuardRun(yielded, InStream(error.value)), progress;
      }
      ReleasedNext(g, i);
      assert source[..i + 1] == source[..i] + [item];
      if !released && !inspector.commit && !around.committed(2 * i)
         && |buffered| + 1 < BOOTSTRAP_CHUNKS && size + ItemSize(item) < BOOTSTRAP_BYTES {
        buffered := buffered + [item];
        size := size + ItemSize(item);
      } else {
        released := true;
        yielded := yielded + buffered;
        buffered := [];
        yielded := yielded + [item];
      }
      progress := progress + [|yielded|];
    }
    FirstErrorIs(g, |source|, 0);
    assert source[..|source|] == source;
    run := CloseStream(g, inspector, sourceEnd, around.reported(|source|), around.committed(2 * |source| + 1),
      yielded, buffered);
  }

  // What follows the loop: the source has ended or failed.
  method CloseStream(ghost g: Guarding, inspector: StreamInspector, sourceEnd: SourceEnd, reported: Option<StreamError>,
      committed: bool, yielded: seq<Item>, buffered: seq<Item>)
    returns (run: GuardRun)
    requires inspector.protocol == g.p && Bounded(inspector.State()) && sourceEnd == g.sourceEnd
    requires inspector.State() == g.After(|g.source|) && g.FirstError(0) == |g.source|
    requires reported == g.around.reported(|g.source|) && committed == g.around.committed(2 * |g.source| + 1)
    requires yielded == g.Sent(|g.source|) && yielded + buffered == g.source
    modifies inspector
    ensures run == g.Outcome()
  {
    hide FeedItem, FeedAll, Finished, Later, Guarding.Outcome, Guarding.FirstError, Guarding.Released, Size, Bounded;
    OutcomeAt(g, |g.source|);
    if sourceEnd.Broken? {
      return GuardRun(yielded, SourceRaised);
    }
    inspector.Finish();
    var error := if reported.Some? then reported else inspector.error;
    if error.Some? && !committed {
      return GuardRun(yielded, Raised(error.value));
    }
    if !inspector.hasOutput && !inspector.terminal && error.None? {
      return GuardRun(yielded, RaisedEmpty);
    }
    return GuardRun(yielded + buffered, Completed);
  }

  /** `progress[i]` is the number of items yielded by the time item `i + 1` is asked for. */
  method GuardStream(p: Protocol, source: seq<Item>, sourceEnd: SourceEnd, around: Surroundings)
    returns (run: GuardRun, progress: seq<nat>)
    ensures run == Guarding(p, source, sourceEnd, around).Outcome()
    ensures run.yielded <= source
    ensures run.ending.Completed? ==> run.yielded == source && sourceEnd.Exhausted?
    ensures Guarding(p, source, sourceEnd, around).FailsEarly() ==> run.yielded == [] && run.ending.Raised?
    ensures |progress| == Guarding(p, source, sourceEnd, around).FirstError(0)
    ensures forall i :: 0 <= i < |progress| ==> progress[i] == |Guarding(p, source, sourceEnd, around).Sent(i + 1)|
    ensures HoldsBack(p, source, around, progress) && Out(progress) <= |source|
    ensures EndsSo(p, source, sourceEnd, around, run, progress)
  {
    hide HoldsBack, EndsSo, Guarding.Outcome, Guarding.Sent, Guarding.FirstError;
    ghost var g := Guarding(p, source, sourceEnd, around);
    run, progress := GuardLoop(p, source, sourceEnd, around);
    OutcomeMeans(g, progress);
    YieldsPrefix(g);
    if g.FailsEarly() { EarlyErrorRaisesFirst(g); }
  }

  lemma FirstErrorIs(g: Guarding, k: nat, from: nat)
    requires from <= k <= |g.source| && forall j :: 0 <= j < k ==> g.FoundError(j).None?
    requires k < |g.source| ==> g.FoundError(k).Some?
    ensures g.FirstError(from) == k
    decreases k - from
  {
    if from < k { FirstErrorIs(g, k, from + 1); }
  }

  // The outcome by the place `k` of the first error.
  lemma OutcomeAt(g: Guarding, k: nat)
    requires g.FirstError(0) == k
    ensures k < |g.source| && (!g.around.committed(2 * k + 1) || g.source[k].Record?) ==>
      g.Outcome() == GuardRun(g.Sent(k), Raised(g.FoundError(k).value))
    ensures k < |g.source| && g.around.committed(2 * k + 1) && !g.source[k].Record? ==>
      g.Outcome() == GuardRun(g.source[..k + 1], InStream(g.FoundError(k).value))
    ensures k == |g.source| && g.sourceEnd.Broken? ==> g.Outcome() == GuardRun(g.Sent(k), SourceRaised)
    ensures k == |g.source| && g.sourceEnd.Exhausted? ==>
      var final := Finished(g.p, g.After(k)).events;
      var raises := g.FoundError(k).Some? && !g.around.committed(2 * k + 1);
      var empty := !final.hasOutput && !final.terminal && g.FoundError(k).None?;
      && (raises ==> g.Outcome() == GuardRun(g.Sent(k), Raised(g.FoundError(k).value)))
      && (empty ==> g.Outcome() == GuardRun(g.Sent(k), RaisedEmpty))
      && (!raises && !empty ==> g.Outcome() == GuardRun(g.source, Completed))
  {
  }

  lemma ReleasedNext(g: Guarding, k: nat)
    requires k < |g.source|
    ensures g.Released(k + 1) == (g.Released(k) || !g.Withholds(k))
  {
  }
}
