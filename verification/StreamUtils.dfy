/**
 `aiter_decoded_lines` of `core/stream_utils.py`: splitting a chunked byte stream into lines
 with one growing and shrinking buffer.
 */
module StreamUtils {
  import opened Collections

  /** The leftmost split of a whole input, the reference for the incremental loop: the lines
      that a delimiter ends, and what is left after the last delimiter. */
  datatype Split = Split(lines: seq<seq<byte>>, rest: seq<byte>)

  function LeftmostSplit(s: seq<byte>, delimiter: seq<byte>): Split
    requires delimiter != []
    decreases |s|
  {
    var i := Find(s, delimiter);
    if i < 0 then Split([], s)
    else
      var tail := LeftmostSplit(s[i + |delimiter|..], delimiter);
      Split([s[..i]] + tail.lines, tail.rest)
  }

  // Every line followed by the delimiter, joined.
  function Terminated(lines: seq<seq<byte>>, delimiter: seq<byte>): seq<byte> {
    if lines == [] then [] else lines[0] + delimiter + Terminated(lines[1..], delimiter)
  }

  // The text before the first delimiter, or all of it without one, holds none.
  lemma NothingBefore(s: seq<byte>, delimiter: seq<byte>)
    requires delimiter != []
    ensures !Occurs(if Find(s, delimiter) < 0 then s else s[..Find(s, delimiter)], delimiter)
  {
    hide Find;
    FindIsLeftmost(s, delimiter);
    var i := Find(s, delimiter);
    if i >= 0 {
      assert s[..i] + s[i..] == s;
      forall j | OccursAt(s[..i], delimiter, j)
        ensures false
      {
        OccursInPrefix(s[..i], s[i..], delimiter, j);
      }
    }
  }

  lemma SplitStep(s: seq<byte>, delimiter: seq<byte>)
    requires delimiter != []
    ensures var i := Find(s, delimiter);
      if i < 0 then LeftmostSplit(s, delimiter) == Split([], s)
      else
        var tail := LeftmostSplit(s[i + |delimiter|..], delimiter);
        LeftmostSplit(s, delimiter) == Split([s[..i]] + tail.lines, tail.rest)
  {
  }

  /** The split loses nothing and no piece holds a delimiter. */
  lemma {:induction false} SplitRestores(s: seq<byte>, delimiter: seq<byte>)
    requires delimiter != []
    ensures var split := LeftmostSplit(s, delimiter);
      && Terminated(split.lines, delimiter) + split.rest == s
      && (forall line :: line in split.lines ==> !Occurs(line, delimiter))
      && !Occurs(split.rest, delimiter)
    decreases |s|
  {
    hide Find, Occurs, LeftmostSplit;
    FindIsLeftmost(s, delimiter);
    NothingBefore(s, delimiter);
    SplitStep(s, delimiter);
    var i := Find(s, delimiter);
    if i >= 0 {
      var rest := s[i + |delimiter|..];
      SplitRestores(rest, delimiter);
      assert s == s[..i] + delimiter + rest;
      var tail := LeftmostSplit(rest, delimiter);
      assert ([s[..i]] + tail.lines)[1..] == tail.lines;
    }
  }

  /** Splitting a prefix first and going on with its remainder in front of the rest gives the
      split of the whole, also where a delimiter lies across the cut. */
  lemma {:induction false} SplitContinues(a: seq<byte>, b: seq<byte>, delimiter: seq<byte>)
    requires delimiter != []
    ensures var head := LeftmostSplit(a, delimiter);
      var tail := LeftmostSplit(head.rest + b, delimiter);
      LeftmostSplit(a + b, delimiter) == Split(head.lines + tail.lines, tail.rest)
    decreases |a|
  {
    hide Find, LeftmostSplit;
    SplitStep(a, delimiter);
    SplitStep(a + b, delimiter);
    var i := Find(a, delimiter);
    if i >= 0 {
      FindStable(a, b, delimiter);
      var rest := a[i + |delimiter|..];
      assert (a + b)[i + |delimiter|..] == rest + b && (a + b)[..i] == a[..i];
      SplitContinues(rest, b, delimiter);
      var head := LeftmostSplit(rest, delimiter);
      var tail := LeftmostSplit(head.rest + b, delimiter);
      assert [a[..i]] + (head.lines + tail.lines) == [a[..i]] + head.lines + tail.lines;
    } else {
      var tail := LeftmostSplit(a + b, delimiter);
      assert [] + tail.lines == tail.lines;
    }
  }

  // The lines yielded for a split: an empty remainder is not a line.
  function Yielded(split: Split): seq<seq<byte>> {
    if split.rest == [] then split.lines else split.lines + [split.rest]
  }

  function Join(lines: seq<seq<byte>>, delimiter: seq<byte>): seq<byte> {
    if lines == [] then []
    else if |lines| == 1 then lines[0]
    else lines[0] + delimiter + Join(lines[1..], delimiter)
  }

  lemma {:induction false} JoinTerminated(lines: seq<seq<byte>>, last: seq<byte>, delimiter: seq<byte>)
    ensures Join(lines + [last], delimiter) == Terminated(lines, delimiter) + last
  {
    if lines != [] {
      assert (lines + [last])[1..] == lines[1..] + [last];
      JoinTerminated(lines[1..], last, delimiter);
    }
  }

  /** Joining the yielded lines with the delimiter restores the input, but for one delimiter at
      its very end, which the lines do not record. */
  lemma JoinRestores(s: seq<byte>, delimiter: seq<byte>)
    requires delimiter != []
    ensures var split := LeftmostSplit(s, delimiter);
      Join(Yielded(split), delimiter) + (if split.rest == [] && s != [] then delimiter else []) == s
    ensures var split := LeftmostSplit(s, delimiter);
      Join(Yielded(split), delimiter) == s <==> s == [] || split.rest != []
  {
    var split := LeftmostSplit(s, delimiter);
    SplitRestores(s, delimiter);
    if split.rest != [] {
      JoinTerminated(split.lines, split.rest, delimiter);
    } else if split.lines != [] {
      var init, last := split.lines[..|split.lines| - 1], split.lines[|split.lines| - 1];
      assert split.lines == init + [last];
      JoinTerminated(init, last, delimiter);
      JoinTerminated(split.lines, [], delimiter);
      JoinSplit(init, last, delimiter);
    }
  }

  predicate EndsWith(s: seq<byte>, delimiter: seq<byte>) {
    |delimiter| <= |s| && s[|s| - |delimiter|..] == delimiter
  }

  // Some of the delimiter's end is also its beginning.
  predicate OverlapsItself(delimiter: seq<byte>) {
    exists k :: 0 < k < |delimiter| && delimiter[..k] == delimiter[|delimiter| - k..]
  }

  /** That a final delimiter is all that joining can lose shows on the input itself, as ending in
      the delimiter, exactly for the delimiters that do not overlap themselves, such as LF and
      CRLF. */
  lemma JoinConditionExact(delimiter: seq<byte>)
    requires delimiter != []
    ensures (forall s ::
      Join(Yielded(LeftmostSplit(s, delimiter)), delimiter) == s <==> s == [] || !EndsWith(s, delimiter))
      <==> !OverlapsItself(delimiter)
  {
    hide LeftmostSplit, Join, Yielded, EndsWith;
    if OverlapsItself(delimiter) {
      var k :| 0 < k < |delimiter| && delimiter[..k] == delimiter[|delimiter| - k..];
      var s := delimiter + delimiter[k..];
      OverlappingInput(delimiter, k);
      JoinRestores(s, delimiter);
    } else {
      forall s
        ensures Join(Yielded(LeftmostSplit(s, delimiter)), delimiter) == s <==> s == [] || !EndsWith(s, delimiter)
      {
        JoinRestores(s, delimiter);
        if s != [] { EndingMeans(s, delimiter); }
      }
    }
  }

  // Without overlap only an empty remainder follows a delimiter at the end.
  lemma EndingMeans(s: seq<byte>, delimiter: seq<byte>)
    requires delimiter != [] && !OverlapsItself(delimiter) && s != []
    ensures EndsWith(s, delimiter) <==> LeftmostSplit(s, delimiter).rest == []
  {
    hide LeftmostSplit, Terminated, OverlapsItself, Occurs, EndsWith;
    var split := LeftmostSplit(s, delimiter);
    SplitRestores(s, delimiter);
    TerminatedEnds(split.lines, delimiter);
    var front := Terminated(split.lines, delimiter);
    if split.rest == [] {
      assert front + [] == front;
    } else {
      RemainderEnds(front, split.rest, delimiter);
    }
  }

  lemma {:induction false} TerminatedEnds(lines: seq<seq<byte>>, delimiter: seq<byte>)
    ensures lines == [] ==> Terminated(lines, delimiter) == []
    ensures lines != [] ==> EndsWith(Terminated(lines, delimiter), delimiter)
  {
    if |lines| == 1 {
      assert lines[1..] == [];
    } else if |lines| > 1 {
      TerminatedEnds(lines[1..], delimiter);
      EndsLater(lines[0] + delimiter, Terminated(lines[1..], delimiter), delimiter);
    }
  }

  lemma EndsLater(a: seq<byte>, b: seq<byte>, delimiter: seq<byte>)
    requires |delimiter| <= |b|
    ensures EndsWith(a + b, delimiter) <==> EndsWith(b, delimiter)
  {
    assert (a + b)[|a + b| - |delimiter|..] == b[|b| - |delimiter|..];
  }

  lemma RemainderEnds(front: seq<byte>, rest: seq<byte>, delimiter: seq<byte>)
    requires rest != [] && !Occurs(rest, delimiter) && (front == [] || EndsWith(front, delimiter))
    ensures EndsWith(front + rest, delimiter) ==> OverlapsItself(delimiter)
  {
    if |delimiter| <= |rest| {
      EndsLater(front, rest, delimiter);
      var at := |rest| - |delimiter|;
      assert rest[at..at + |delimiter|] == rest[at..];
      assert EndsWith(rest, delimiter) <==> OccursAt(rest, delimiter, at);
    } else if front != [] && EndsWith(front + rest, delimiter) {
      var k := |delimiter| - |rest|;
      var end := (front + rest)[|front + rest| - |delimiter|..];
      assert end[..k] == front[|front| - k..] == front[|front| - |delimiter|..][|delimiter| - k..];
    }
  }

  lemma OverlappingInput(delimiter: seq<byte>, k: nat)
    requires 0 < k < |delimiter| && delimiter[..k] == delimiter[|delimiter| - k..]
    ensures var s := delimiter + delimiter[k..];
      EndsWith(s, delimiter) && LeftmostSplit(s, delimiter).rest == delimiter[k..]
  {
    hide Find, LeftmostSplit;
    var rest := delimiter[k..];
    var s := delimiter + rest;
    assert s[|s| - |delimiter|..] == delimiter[|delimiter| - k..] + rest;
    assert delimiter[..k] + delimiter[k..] == delimiter;
    FindIsLeftmost(s, delimiter);
    FindIsLeftmost(rest, delimiter);
    SplitStep(s, delimiter);
    SplitStep(rest, delimiter);
    assert s[0..|delimiter|] == delimiter && OccursAt(s, delimiter, 0);
    assert s[|delimiter|..] == rest;
  }

  /** For a delimiter of one byte the joined lines are the input exactly when it does not end in
      that byte. */
  lemma JoinRestoresByte(s: seq<byte>, d: byte)
    ensures Join(Yielded(LeftmostSplit(s, [d])), [d]) == s <==> s == [] || s[|s| - 1] != d
  {
    hide LeftmostSplit, Join, Yielded;
    JoinConditionExact([d]);
    if s != [] {
      assert EndsWith(s, [d]) <==> s[|s| - 1] == d by {
        assert s[|s| - 1..] == [s[|s| - 1]];
      }
    }
  }

  /** Nor does CRLF overlap itself. */
  lemma JoinRestoresCrlf(s: seq<byte>)
    ensures var crlf: seq<byte> := [13, 10];
      Join(Yielded(LeftmostSplit(s, crlf)), crlf) == s <==> s == [] || !EndsWith(s, crlf)
  {
    hide LeftmostSplit, Join, Yielded, EndsWith;
    var crlf: seq<byte> := [13, 10];
    assert crlf[..1] == [13] && crlf[1..] == [10];
    JoinConditionExact(crlf);
  }

  lemma {:induction false} JoinSplit(init: seq<seq<byte>>, last: seq<byte>, delimiter: seq<byte>)
    ensures Terminated(init + [last], delimiter) == Terminated(init, delimiter) + last + delimiter
  {
    if init != [] {
      assert (init + [last])[1..] == init[1..] + [last];
      JoinSplit(init[1..], last, delimiter);
    } else {
      assert (init + [last])[1..] == [];
    }
  }

  datatype Decoded = Lines(lines: seq<seq<byte>>) | EmptyDelimiter

  // The inner loop: every line the delimiter ends is cut off the front of the buffer.
  method DrainLines(lines: seq<seq<byte>>, buffer: seq<byte>, delimiter: seq<byte>)
    returns (drained: seq<seq<byte>>, rest: seq<byte>)
    requires delimiter != []
    ensures var split := LeftmostSplit(buffer, delimiter);
      drained == lines + split.lines && rest == split.rest
  {
    hide Find, LeftmostSplit;
    drained, rest := lines, buffer;
    SplitStep(rest, delimiter);
    var idx := Find(rest, delimiter);
    while idx >= 0
      invariant idx == Find(rest, delimiter)
      invariant lines + LeftmostSplit(buffer, delimiter).lines == drained + LeftmostSplit(rest, delimiter).lines
      invariant LeftmostSplit(rest, delimiter).rest == LeftmostSplit(buffer, delimiter).rest
      decreases |rest|
    {
      SplitStep(rest, delimiter);
      var line, tail := rest[..idx], rest[idx + |delimiter|..];
      assert drained + ([line] + LeftmostSplit(tail, delimiter).lines)
        == drained + [line] + LeftmostSplit(tail, delimiter).lines;
      rest := tail;
      drained := drained + [line];
      idx := Find(rest, delimiter);
    }
    SplitStep(rest, delimiter);
  }

  lemma ConcatStep(parts: seq<seq<byte>>)
    ensures parts == [] ==> Concat(parts) == []
    ensures parts != [] ==> Concat(parts) == Concat(parts[..|parts| - 1]) + parts[|parts| - 1]
  {
  }

  /** The decoder over the chunks of a source. However the input is cut, the lines are those of
      the leftmost split of the whole; an empty delimiter is refused. */
  method DecodedLines(chunks: seq<seq<byte>>, delimiter: seq<byte>) returns (r: Decoded)
    ensures r.EmptyDelimiter? <==> delimiter == []
    ensures r.Lines? ==> r.lines == Yielded(LeftmostSplit(Concat(chunks), delimiter))
  {
    if delimiter == [] {
      return EmptyDelimiter;
    }
    hide Find, LeftmostSplit, Concat;
    var buffer: seq<byte> := [];
    var lines: seq<seq<byte>> := [];
    ghost var seen: seq<byte> := [];
    assert chunks[..0] == [];
    ConcatStep(chunks[..0]);
    SplitStep([], delimiter);
    for k := 0 to |chunks|
      invariant seen == Concat(chunks[..k])
      invariant LeftmostSplit(seen, delimiter) == Split(lines, buffer)
    {
      assert chunks[..k + 1][..k] == chunks[..k];
      ConcatStep(chunks[..k + 1]);
      SplitContinues(seen, chunks[k], delimiter);
      if chunks[k] == [] {
        assert seen + chunks[k] == seen;
        continue;
      }
      seen := seen + chunks[k];
      buffer := buffer + chunks[k];
      lines, buffer := DrainLines(lines, buffer, delimiter);
    }
    assert chunks[..|chunks|] == chunks;
    if buffer != [] {
      lines := lines + [buffer];
    }
    return Lines(lines);
  }
}
