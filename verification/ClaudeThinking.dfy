/**
 The streaming tag splitter of `plugins/claude_thinking.py`: text before `</thinking>` becomes
 reasoning, text after it content, whatever chunks the text arrives in.

 The program finds the tag in the lowercased text and cuts the text itself at the place found.
 A character may lowercase to several, so the two places can differ; the contracts say exactly
 when they agree.
 */
module ClaudeThinking {
  import opened Collections

  const THINK_CLOSE := "</thinking>"
  const KEEP_TAIL := |THINK_CLOSE| - 1

  datatype Output = Reasoning(text: string) | Content(text: string)

  // ---------- lowercasing ----------

  /** What is known of `str.lower`, character by character: nothing vanishes, and what a character
      that becomes several becomes neither ends in a letter of the tag nor holds its last one. */
  ghost predicate IsLowering(lower: char -> string) {
    forall c :: lower(c) != "" &&
      (|lower(c)| > 1 ==> lower(c)[|lower(c)| - 1] !in THINK_CLOSE && '>' !in lower(c))
  }

  function Lower(lower: char -> string, s: string): string {
    if s == "" then "" else lower(s[0]) + Lower(lower, s[1..])
  }

  // Every character lowercases to one.
  predicate Plain(lower: char -> string, s: string) {
    forall i :: 0 <= i < |s| ==> |lower(s[i])| == 1
  }

  // The last letter of a character's lowercase, which is all of it where that is one letter.
  function Folded(lower: char -> string, c: char): char {
    if lower(c) == "" then c else lower(c)[|lower(c)| - 1]
  }

  function Fold(lower: char -> string, s: string): (r: string)
    ensures |r| == |s|
    ensures forall i :: 0 <= i < |s| ==> r[i] == Folded(lower, s[i])
  {
    seq(|s|, i requires 0 <= i < |s| => Folded(lower, s[i]))
  }

  // The characters of `s` spell `word` from its start on, each lowercasing to one letter of it.
  predicate Spells(lower: char -> string, s: string, word: string) {
    |word| <= |s| && forall k :: 0 <= k < |word| ==> lower(s[k]) == [word[k]]
  }

  // Where the tag first stands in `s`, whatever its case, or -1.
  function TagAt(lower: char -> string, s: string): int {
    Find(Fold(lower, s), THINK_CLOSE)
  }

  /** That place is the first at which the text spells the tag. */
  lemma TagMeans(lower: char -> string, s: string, i: nat)
    requires IsLowering(lower) && i <= |s|
    ensures OccursAt(Fold(lower, s), THINK_CLOSE, i) <==> Spells(lower, s[i..], THINK_CLOSE)
  {
    var fold := Fold(lower, s);
    if i + |THINK_CLOSE| <= |s| {
      var window := fold[i..i + |THINK_CLOSE|];
      forall k | 0 <= k < |THINK_CLOSE|
        ensures window[k] == THINK_CLOSE[k] <==> lower(s[i..][k]) == [THINK_CLOSE[k]]
      {
        assert window[k] == Folded(lower, s[i + k]) && s[i..][k] == s[i + k];
        assert THINK_CLOSE[k] in THINK_CLOSE;
      }
    }
  }

  lemma {:induction false} LowerConcat(lower: char -> string, a: string, b: string)
    ensures Lower(lower, a + b) == Lower(lower, a) + Lower(lower, b)
  {
    if a == "" {
      assert a + b == b;
    } else {
      assert (a + b)[1..] == a[1..] + b;
      LowerConcat(lower, a[1..], b);
    }
  }

  lemma {:induction false} LowerLength(lower: char -> string, s: string)
    requires IsLowering(lower)
    ensures |Lower(lower, s)| >= |s|
    ensures |Lower(lower, s)| == |s| <==> Plain(lower, s)
  {
    if s != "" {
      LowerLength(lower, s[1..]);
      assert Plain(lower, s) <==> |lower(s[0])| == 1 && Plain(lower, s[1..]) by {
        forall i | 1 <= i < |s|
          ensures s[i] == s[1..][i - 1]
        {
        }
      }
    }
  }

  // Where a text spells a word, so does its lowercase, and the other way round for an end of
  // the tag.
  lemma {:induction false} LowerSpells(lower: char -> string, s: string, word: string)
    requires Spells(lower, s, word)
    ensures word <= Lower(lower, s)
  {
    if word != "" {
      LowerSpells(lower, s[1..], word[1..]);
      assert word == [word[0]] + word[1..];
    }
  }

  lemma {:induction false} SpellsLower(lower: char -> string, s: string, word: string)
    requires IsLowering(lower) && word <= Lower(lower, s)
    requires (forall c :: c in word ==> c in THINK_CLOSE) && (word != "" ==> word[|word| - 1] == '>')
    ensures Spells(lower, s, word)
    decreases |word|
  {
    if word != "" {
      var first, low := lower(s[0]), Lower(lower, s);
      NotInside(lower, s[0], Lower(lower, s[1..]), word, 0);
      assert low[1..] == Lower(lower, s[1..]) && word[0] == low[0];
      SpellsLower(lower, s[1..], word[1..]);
      forall k | 0 <= k < |word|
        ensures lower(s[k]) == [word[k]]
      {
        if k > 0 { assert s[1..][k - 1] == s[k]; }
      }
    }
  }

  // An end of the tag does not begin inside what becomes of one character.
  lemma NotInside(lower: char -> string, c: char, rest: string, word: string, p: nat)
    requires IsLowering(lower) && word != "" && p < |lower(c)|
    requires (forall x :: x in word ==> x in THINK_CLOSE) && word[|word| - 1] == '>'
    requires OccursAt(lower(c) + rest, word, p)
    ensures |lower(c)| == 1
  {
    var low := lower(c);
    var all := low + rest;
    forall k | 0 <= k < |word|
      ensures all[p + k] == word[k]
    {
      assert all[p..p + |word|][k] == word[k];
    }
    if p + |word| <= |low| {
      assert all[p + (|word| - 1)] == low[p + |word| - 1] == '>';
    } else {
      assert all[p + (|low| - 1 - p)] == low[|low| - 1] == word[|low| - 1 - p];
      assert low[|low| - 1] in word;
    }
  }

  // Every place of the tag in the lowercase comes from one in the text.
  lemma {:induction false} TagBehind(lower: char -> string, s: string, p: nat) returns (i: nat)
    requires IsLowering(lower) && OccursAt(Lower(lower, s), THINK_CLOSE, p)
    ensures i <= |s| && |Lower(lower, s[..i])| == p && Spells(lower, s[i..], THINK_CLOSE)
    decreases |s|
  {
    var first, rest := lower(s[0]), Lower(lower, s[1..]);
    if p < |first| {
      NotInside(lower, s[0], rest, THINK_CLOSE, p);
      assert THINK_CLOSE <= Lower(lower, s);
      SpellsLower(lower, s, THINK_CLOSE);
      i := 0;
      assert s[..0] == "" && s[0..] == s;
    } else {
      OccursInSuffix(first, rest, THINK_CLOSE, p - |first|);
      var j := TagBehind(lower, s[1..], p - |first|);
      i := j + 1;
      assert s[i..] == s[1..][j..] && s[..i][1..] == s[1..][..j] && s[..i][0] == s[0];
    }
  }

  lemma PrefixShorter(lower: char -> string, s: string, i: nat, j: nat)
    requires IsLowering(lower) && i < j <= |s|
    ensures |Lower(lower, s[..i])| < |Lower(lower, s[..j])|
  {
    hide Lower;
    assert s[..j] == s[..i] + s[i..j];
    LowerConcat(lower, s[..i], s[i..j]);
    LowerLength(lower, s[i..j]);
  }

  /** Searching the lowercase finds the tag exactly when it is there, but as many places too far
      as the characters before it have grown. */
  lemma SearchLands(lower: char -> string, s: string)
    requires IsLowering(lower)
    ensures var i, idx := TagAt(lower, s), Find(Lower(lower, s), THINK_CLOSE);
      && (idx >= 0 <==> i >= 0)
      && (i >= 0 ==>
        i + |THINK_CLOSE| <= |s| && idx == |Lower(lower, s[..i])| >= i && (idx == i <==> Plain(lower, s[..i])))
  {
    hide Find, Lower, Spells, Plain, IsLowering;
    var low, fold := Lower(lower, s), Fold(lower, s);
    var i, idx := TagAt(lower, s), Find(low, THINK_CLOSE);
    FindIsLeftmost(low, THINK_CLOSE);
    FindIsLeftmost(fold, THINK_CLOSE);
    if i >= 0 {
      TagMeans(lower, s, i);
      LowerSpells(lower, s[i..], THINK_CLOSE);
      LowerConcat(lower, s[..i], s[i..]);
      LowerLength(lower, s[..i]);
      assert s == s[..i] + s[i..];
      var q := |Lower(lower, s[..i])|;
      assert low[q..] == Lower(lower, s[i..]);
      assert low[q..q + |THINK_CLOSE|] == THINK_CLOSE;
      assert OccursAt(low, THINK_CLOSE, q);
    }
    if idx >= 0 {
      var j := TagBehind(lower, s, idx);
      TagMeans(lower, s, j);
      if 0 <= i < j { PrefixShorter(lower, s, i, j); }
    }
  }

  // ---------- what was emitted ----------

  function ReasoningText(outputs: seq<Output>): string {
    if outputs == [] then []
    else
      var init, last := ReasoningText(outputs[..|outputs| - 1]), outputs[|outputs| - 1];
      if last.Reasoning? then init + last.text else init
  }

  function ContentText(outputs: seq<Output>): string {
    if outputs == [] then []
    else
      var init, last := ContentText(outputs[..|outputs| - 1]), outputs[|outputs| - 1];
      if last.Content? then init + last.text else init
  }

  lemma OneMore(a: seq<Output>, last: Output)
    ensures ReasoningText([]) == "" && ContentText([]) == ""
    ensures ReasoningText(a + [last]) == ReasoningText(a) + (if last.Reasoning? then last.text else "")
    ensures ContentText(a + [last]) == ContentText(a) + (if last.Content? then last.text else "")
  {
    assert (a + [last])[..|a|] == a;
  }

  lemma {:induction false} TextConcat(a: seq<Output>, b: seq<Output>)
    ensures ReasoningText(a + b) == ReasoningText(a) + ReasoningText(b)
    ensures ContentText(a + b) == ContentText(a) + ContentText(b)
  {
    hide ReasoningText, ContentText;
    if b == [] {
      assert a + b == a;
      OneMore([], Content(""));
    } else {
      var init, last := b[..|b| - 1], b[|b| - 1];
      TextConcat(a, init);
      OneMore(a + init, last);
      OneMore(init, last);
      assert a + b == a + init + [last] && b == init + [last];
    }
  }

  lemma TextOf(outputs: seq<Output>)
    requires |outputs| <= 2
    ensures |outputs| == 0 ==> ReasoningText(outputs) == "" && ContentText(outputs) == ""
    ensures |outputs| == 1 ==>
      && ReasoningText(outputs) == (if outputs[0].Reasoning? then outputs[0].text else "")
      && ContentText(outputs) == (if outputs[0].Content? then outputs[0].text else "")
    ensures |outputs| == 2 && outputs[0].Reasoning? && outputs[1].Content? ==>
      ReasoningText(outputs) == outputs[0].text && ContentText(outputs) == outputs[1].text
  {
    if |outputs| == 2 {
      assert outputs[..1] == [outputs[0]];
      assert [outputs[0]][..0] == [];
    } else if |outputs| == 1 {
      assert outputs[..0] == [];
    }
  }

  predicate NoneEmpty(outputs: seq<Output>) {
    forall i :: 0 <= i < |outputs| ==> outputs[i].text != ""
  }

  // The events for these texts; an empty text makes none.
  function Events(reasoning: string, content: string): (r: seq<Output>)
    ensures NoneEmpty(r)
  {
    (if reasoning == "" then [] else [Reasoning(reasoning)]) + (if content == "" then [] else [Content(content)])
  }

  lemma EventsText(reasoning: string, content: string)
    ensures ReasoningText(Events(reasoning, content)) == reasoning && ContentText(Events(reasoning, content)) == content
  {
    hide ReasoningText, ContentText;
    TextOf(Events(reasoning, content));
  }

  // ---------- what a text is split into ----------

  function Before(lower: char -> string, text: string): string {
    if TagAt(lower, text) < 0 then text else text[..TagAt(lower, text)]
  }

  function After(lower: char -> string, text: string): string {
    if TagAt(lower, text) < 0 then "" else text[TagAt(lower, text) + |THINK_CLOSE|..]
  }

  // The last ten characters.
  function Tail(text: string): (r: string)
    ensures |r| <= KEEP_TAIL && |r| <= |text| && text[..|text| - |r|] + r == text
  {
    if |text| > KEEP_TAIL then text[|text| - KEEP_TAIL..] else text
  }

  /** The state after `text`: until the tag has come, the last ten characters are held back and
      the rest has been emitted as reasoning; afterwards nothing is held back. */
  ghost predicate Kept(lower: char -> string, text: string, pending: string, inside: bool, sent: seq<Output>) {
    && inside == (TagAt(lower, text) < 0)
    && pending == (if inside then Tail(text) else "")
    && (inside ==> ReasoningText(sent) + pending == text && ContentText(sent) == "")
    && NoneEmpty(sent)
  }

  // The text before the tag is what was emitted as reasoning and is held back, the text after
  // it what was emitted as content.
  ghost predicate Right(lower: char -> string, text: string, pending: string, sent: seq<Output>) {
    ReasoningText(sent) + pending == Before(lower, text) && ContentText(sent) == After(lower, text)
  }

  // If the tag is completed by `chunk`, then in the stretch searched (the tail of `text` and the
  // chunk) every character before it lowercases to one.
  predicate PlainSearch(lower: char -> string, text: string, chunk: string) {
    var searched := Tail(text) + chunk;
    TagAt(lower, text) < 0 && TagAt(lower, text + chunk) >= 0 ==> Plain(lower, Before(lower, searched))
  }

  lemma FoldConcat(lower: char -> string, a: string, b: string)
    ensures Fold(lower, a + b) == Fold(lower, a) + Fold(lower, b)
  {
  }

  // With no tag in `emitted + tail`, a tag of `emitted + tail + more` reaches past `emitted`.
  lemma TagInTail(lower: char -> string, emitted: string, tail: string, more: string)
    requires TagAt(lower, emitted + tail) < 0 && (emitted != "" ==> |tail| == KEEP_TAIL)
    ensures TagAt(lower, emitted + tail + more) ==
      if TagAt(lower, tail + more) < 0 then -1 else |emitted| + TagAt(lower, tail + more)
  {
    hide Find, Fold, OccursAt;
    FoldConcat(lower, emitted, tail + more);
    FoldConcat(lower, emitted + tail, more);
    assert emitted + tail + more == emitted + (tail + more);
    var text, whole, end := Fold(lower, emitted + tail), Fold(lower, emitted + tail + more), Fold(lower, tail + more);
    FoldLength(lower, emitted);
    FoldLength(lower, emitted + tail);
    FindIsLeftmost(text, THINK_CLOSE);
    FindIsLeftmost(whole, THINK_CLOSE);
    FindIsLeftmost(end, THINK_CLOSE);
    forall i | 0 <= i < |emitted|
      ensures !OccursAt(whole, THINK_CLOSE, i)
    {
      OccursInPrefix(text, Fold(lower, more), THINK_CLOSE, i);
    }
    forall i: nat
      ensures OccursAt(whole, THINK_CLOSE, |emitted| + i) <==> OccursAt(end, THINK_CLOSE, i)
    {
      OccursInSuffix(Fold(lower, emitted), end, THINK_CLOSE, i);
    }
    var a, b := TagAt(lower, emitted + tail + more), TagAt(lower, tail + more);
    if a >= 0 {
      assert a >= |emitted|;
      assert OccursAt(end, THINK_CLOSE, a - |emitted|);
    }
    if b >= 0 {
      assert OccursAt(whole, THINK_CLOSE, |emitted| + b);
    }
  }

  lemma FoldLength(lower: char -> string, s: string)
    ensures |Fold(lower, s)| == |s|
  {
  }

  lemma TagFits(lower: char -> string, s: string)
    ensures TagAt(lower, s) >= 0 ==> TagAt(lower, s) + |THINK_CLOSE| <= |s|
  {
  }

  // A tag once there stays where it is.
  lemma TagStays(lower: char -> string, text: string, more: string)
    requires TagAt(lower, text) >= 0
    ensures TagAt(lower, text + more) == TagAt(lower, text)
    ensures Before(lower, text + more) == Before(lower, text)
    ensures After(lower, text + more) == After(lower, text) + more
  {
    hide Fold;
    FoldConcat(lower, text, more);
    FindStable(Fold(lower, text), Fold(lower, more), THINK_CLOSE);
    TagFits(lower, text);
    FoldLength(lower, text);
  }

  // ---------- one chunk, branch by branch ----------

  // The tail of a text and the next chunk against the whole.
  lemma Searched(lower: char -> string, text: string, chunk: string)
    requires TagAt(lower, text) < 0
    ensures var searched := Tail(text) + chunk;
      var emitted := text[..|text| - |Tail(text)|];
      && emitted + searched == text + chunk
      && (TagAt(lower, text + chunk) >= 0 <==> TagAt(lower, searched) >= 0)
      && Before(lower, text + chunk) == emitted + Before(lower, searched)
      && After(lower, text + chunk) == After(lower, searched)
  {
    hide TagAt;
    var tail, searched := Tail(text), Tail(text) + chunk;
    var emitted := text[..|text| - |tail|];
    assert emitted + tail == text;
    TagInTail(lower, emitted, tail, chunk);
    TagFits(lower, searched);
    assert emitted + searched == text + chunk;
    var i := TagAt(lower, searched);
    if i >= 0 {
      assert (emitted + searched)[..|emitted| + i] == emitted + searched[..i];
    }
  }

  function UpTo(s: string, n: nat): string {
    if n <= |s| then s[..n] else s
  }

  function From(s: string, n: nat): string {
    if n <= |s| then s[n..] else ""
  }

  /** The tag found: the split is right exactly when the search was over plain characters. */
  lemma TagFound(lower: char -> string, text: string, sent: seq<Output>, chunk: string, idx: nat)
    requires IsLowering(lower) && Kept(lower, text, Tail(text), true, sent)
    requires idx == Find(Lower(lower, Tail(text) + chunk), THINK_CLOSE)
    ensures var searched := Tail(text) + chunk;
      var sent' := sent + Events(UpTo(searched, idx), From(searched, idx + |THINK_CLOSE|));
      Kept(lower, text + chunk, "", false, sent') &&
      (Right(lower, text + chunk, "", sent') <==> PlainSearch(lower, text, chunk))
  {
    hide TagAt, Find, Lower, ReasoningText, ContentText, Events, Plain, Tail;
    var searched := Tail(text) + chunk;
    var before, after := UpTo(searched, idx), From(searched, idx + |THINK_CLOSE|);
    Searched(lower, text, chunk);
    SearchLands(lower, searched);
    TextConcat(sent, Events(before, after));
    EventsText(before, after);
    NoneEmptyConcat(sent, Events(before, after));
    var emitted, i := text[..|text| - |Tail(text)|], TagAt(lower, searched);
    Emitted(text, ReasoningText(sent));
    assert ReasoningText(sent) == emitted;
    if before == searched[..i] {
      assert |before| == i;
    } else if idx == i {
      assert false;
    }
    assert emitted + before == emitted + searched[..i] <==> before == searched[..i] by {
      if emitted + before == emitted + searched[..i] {
        assert (emitted + before)[|emitted|..] == before && (emitted + searched[..i])[|emitted|..] == searched[..i];
      }
    }
  }

  lemma Emitted(text: string, reasoning: string)
    requires reasoning + Tail(text) == text
    ensures reasoning == text[..|text| - |Tail(text)|]
  {
    assert (reasoning + Tail(text))[..|reasoning|] == reasoning;
  }

  lemma NoneEmptyConcat(a: seq<Output>, b: seq<Output>)
    requires NoneEmpty(a) && NoneEmpty(b)
    ensures NoneEmpty(a + b)
  {
  }

  /** The tag not found: all but the last ten characters go out. */
  lemma TagNotFound(lower: char -> string, text: string, sent: seq<Output>, chunk: string)
    requires IsLowering(lower) && Kept(lower, text, Tail(text), true, sent)
    requires Find(Lower(lower, Tail(text) + chunk), THINK_CLOSE) < 0
    ensures var searched := Tail(text) + chunk;
      var sent' := sent + Events(searched[..|searched| - |Tail(searched)|], "");
      && Kept(lower, text + chunk, Tail(searched), true, sent')
      && Right(lower, text + chunk, Tail(searched), sent') && PlainSearch(lower, text, chunk)
  {
    InsideText(lower, text, sent);
    hide TagAt, Find, Lower, ReasoningText, ContentText, Events, Plain, Before, After, Tail, Kept, Right;
    hide NoneEmpty, IsLowering, PlainSearch;
    var searched := Tail(text) + chunk;
    var out := searched[..|searched| - |Tail(searched)|];
    NoTagYet(lower, text, chunk);
    TextConcat(sent, Events(out, ""));
    EventsText(out, "");
    NoneEmptyConcat(sent, Events(out, ""));
    TailOfWhole(text, chunk);
    Regroup(ReasoningText(sent), Tail(text), chunk, out, Tail(searched));
    StillInside(lower, text + chunk, sent + Events(out, ""));
  }

  lemma NoTagYet(lower: char -> string, text: string, chunk: string)
    requires IsLowering(lower) && TagAt(lower, text) < 0 && Find(Lower(lower, Tail(text) + chunk), THINK_CLOSE) < 0
    ensures TagAt(lower, text + chunk) < 0 && PlainSearch(lower, text, chunk)
  {
    hide TagAt, Find, Lower, Before, After, Plain, Tail, IsLowering;
    Searched(lower, text, chunk);
    SearchLands(lower, Tail(text) + chunk);
  }

  lemma Regroup(sent: string, tail: string, chunk: string, out: string, end: string)
    requires out + end == tail + chunk
    ensures sent + out + end == sent + tail + chunk
  {
    assert sent + out + end == sent + (out + end);
    assert sent + tail + chunk == sent + (tail + chunk);
  }

  lemma InsideText(lower: char -> string, text: string, sent: seq<Output>)
    requires Kept(lower, text, Tail(text), true, sent)
    ensures TagAt(lower, text) < 0 && ReasoningText(sent) + Tail(text) == text && ContentText(sent) == ""
    ensures NoneEmpty(sent)
  {
  }

  lemma StillInside(lower: char -> string, text: string, sent: seq<Output>)
    requires TagAt(lower, text) < 0 && NoneEmpty(sent)
    requires ReasoningText(sent) + Tail(text) == text && ContentText(sent) == ""
    ensures Kept(lower, text, Tail(text), true, sent) && Right(lower, text, Tail(text), sent)
  {
  }

  lemma NoTag(lower: char -> string, s: string)
    ensures TagAt(lower, s) < 0 ==> Before(lower, s) == s && After(lower, s) == ""
  {
  }

  lemma TailOfWhole(text: string, chunk: string)
    ensures Tail(Tail(text) + chunk) == Tail(text + chunk)
  {
    if |text| > KEEP_TAIL {
      var emitted, tail := text[..|text| - KEEP_TAIL], text[|text| - KEEP_TAIL..];
      assert text + chunk == emitted + (tail + chunk);
      TailSkips(emitted, tail + chunk);
    }
  }

  lemma TailSkips(emitted: string, s: string)
    requires |s| >= KEEP_TAIL
    ensures Tail(emitted + s) == Tail(s)
  {
    if |s| == KEEP_TAIL {
      assert (emitted + s)[|emitted|..] == s;
    } else {
      assert (emitted + s)[|emitted| + |s| - KEEP_TAIL..] == s[|s| - KEEP_TAIL..];
    }
  }

  /** Outside thinking everything is content, and right stays right. */
  lemma AlreadyOutside(lower: char -> string, text: string, sent: seq<Output>, chunk: string)
    requires Kept(lower, text, "", false, sent)
    ensures var sent' := sent + Events("", chunk);
      && Kept(lower, text + chunk, "", false, sent') && PlainSearch(lower, text, chunk)
      && (Right(lower, text + chunk, "", sent') <==> Right(lower, text, "", sent))
  {
    hide TagAt, ReasoningText, ContentText, Events, Plain, Before, After;
    TagStays(lower, text, chunk);
    TextConcat(sent, Events("", chunk));
    EventsText("", chunk);
    NoneEmptyConcat(sent, Events("", chunk));
    if ContentText(sent) + chunk == After(lower, text) + chunk {
      assert (ContentText(sent) + chunk)[..|ContentText(sent)|] == ContentText(sent);
      assert (After(lower, text) + chunk)[..|After(lower, text)|] == After(lower, text);
    }
  }

  class ThinkingStreamTransformer {
    var pending: string
    var insideThinking: bool

    constructor ()
      ensures pending == "" && insideThinking
    {
      pending, insideThinking := "", true;
    }

    /** One text chunk. `text` and `sent` are the text received and the events emitted so far. */
    method HandleTextChunk(lower: char -> string, chunk: string, ghost text: string, ghost sent: seq<Output>)
      returns (outputs: seq<Output>)
      requires IsLowering(lower) && Kept(lower, text, pending, insideThinking, sent)
      modifies this
      ensures Kept(lower, text + chunk, pending, insideThinking, sent + outputs)
      ensures Right(lower, text + chunk, pending, sent + outputs) <==>
        old(Right(lower, text, pending, sent)) && PlainSearch(lower, text, chunk)
    {
      hide TagAt, Lower, Find, Before, After, ReasoningText, ContentText, Plain, PlainSearch, IsLowering;
      outputs := [];
      var combined := pending + chunk;
      InsideIsRight(lower, text, pending, insideThinking, sent);
      pending := "";
      if insideThinking {
        var idx := Find(Lower(lower, combined), THINK_CLOSE);
        if idx >= 0 {
          var before, after := UpTo(combined, idx), From(combined, idx + |THINK_CLOSE|);
          if before != "" { outputs := outputs + [Reasoning(before)]; }
          insideThinking := false;
          if after != "" { outputs := outputs + [Content(after)]; }
          assert outputs == Events(before, after);
          TagFound(lower, text, sent, chunk, idx);
        } else {
          TagNotFound(lower, text, sent, chunk);
          if |combined| > KEEP_TAIL {
            var cut := |combined| - KEEP_TAIL;
            outputs := [Reasoning(combined[..cut])];
            pending := combined[cut..];
            assert outputs == Events(combined[..cut], "");
          } else {
            pending := combined;
            assert combined[..0] == "" && outputs == Events("", "");
          }
        }
      } else {
        assert combined == chunk;
        if combined != "" { outputs := [Content(combined)]; }
        assert outputs == Events("", chunk);
        AlreadyOutside(lower, text, sent, chunk);
      }
    }

    /** `flush`, and the `[DONE]` branch of `transform_line`, which does the same. */
    method Flush() returns (outputs: seq<Output>)
      modifies `pending
      ensures pending == ""
      ensures outputs == if old(pending) == "" then []
                         else if insideThinking then [Reasoning(old(pending))] else [Content(old(pending))]
    {
      outputs := [];
      if pending != "" {
        outputs := if insideThinking then [Reasoning(pending)] else [Content(pending)];
        pending := "";
      }
    }
  }

  lemma InsideIsRight(lower: char -> string, text: string, pending: string, inside: bool, sent: seq<Output>)
    requires Kept(lower, text, pending, inside, sent)
    ensures inside ==> Right(lower, text, pending, sent) && pending == Tail(text)
  {
  }

  // ---------- whole streams ----------

  // In the search that completes the tag, every character before it lowercases to one.
  predicate SearchedPlainly(lower: char -> string, chunks: seq<string>) {
    forall k :: 0 <= k < |chunks| ==> PlainSearch(lower, Concat(chunks[..k]), chunks[k])
  }

  /** The splitter over a whole stream, cut into chunks anyhow: the reasoning is the text before
      the first close tag, whatever its case, and the content the text after it (everything is
      reasoning when no tag comes), exactly when the search that completes the tag is over
      characters that lowercase to one each. Always, no event is empty, at most ten characters
      are held back, and `pendings` (the lengths held back after each chunk) shows none once the
      tag has been seen. */
  method Transform(lower: char -> string, chunks: seq<string>) returns (outputs: seq<Output>, pendings: seq<nat>)
    requires IsLowering(lower)
    ensures
      (ReasoningText(outputs) == Before(lower, Concat(chunks)) && ContentText(outputs) == After(lower, Concat(chunks)))
      <==> SearchedPlainly(lower, chunks)
    ensures forall i :: 0 <= i < |outputs| ==> outputs[i].text != ""
    ensures |pendings| == |chunks|
    ensures forall k :: 0 <= k < |chunks| ==> pendings[k] <= KEEP_TAIL
    ensures forall k :: 0 <= k < |chunks| && TagAt(lower, Concat(chunks[..k + 1])) >= 0 ==> pendings[k] == 0
  {
    hide TagAt, ReasoningText, ContentText, Before, After, Concat, PlainSearch, IsLowering, Kept, Right;
    var transformer := new ThinkingStreamTransformer();
    outputs, pendings := [], [];
    assert chunks[..0] == [];
    NothingYet(lower);
    for k := 0 to |chunks|
      invariant fresh(transformer)
      invariant Kept(lower, Concat(chunks[..k]), transformer.pending, transformer.insideThinking, outputs)
      invariant Right(lower, Concat(chunks[..k]), transformer.pending, outputs) <==>
        forall j :: 0 <= j < k ==> PlainSearch(lower, Concat(chunks[..j]), chunks[j])
      invariant |pendings| == k && forall j :: 0 <= j < k ==> pendings[j] <= KEEP_TAIL
      invariant forall j :: 0 <= j < k && TagAt(lower, Concat(chunks[..j + 1])) >= 0 ==> pendings[j] == 0
    {
      ConcatNext(chunks, k);
      var out := transformer.HandleTextChunk(lower, chunks[k], Concat(chunks[..k]), outputs);
      outputs := outputs + out;
      KeptBound(lower, Concat(chunks[..k + 1]), transformer.pending, transformer.insideThinking, outputs);
      pendings := pendings + [|transformer.pending|];
    }
    assert chunks[..|chunks|] == chunks;
    ghost var pending := transformer.pending;
    KeptBound(lower, Concat(chunks), pending, transformer.insideThinking, outputs);
    var out := transformer.Flush();
    Flushed(lower, Concat(chunks), pending, transformer.insideThinking, outputs, out);
    outputs := outputs + out;
  }

  lemma KeptBound(lower: char -> string, text: string, pending: string, inside: bool, sent: seq<Output>)
    requires Kept(lower, text, pending, inside, sent)
    ensures |pending| <= KEEP_TAIL && (!inside ==> pending == "") && (TagAt(lower, text) >= 0 ==> pending == "")
    ensures NoneEmpty(sent)
  {
  }

  // What is held back goes out as reasoning.
  lemma Flushed(lower: char -> string, text: string, pending: string, inside: bool, sent: seq<Output>, out: seq<Output>)
    requires Kept(lower, text, pending, inside, sent)
    requires out == if pending == "" then [] else if inside then [Reasoning(pending)] else [Content(pending)]
    ensures NoneEmpty(sent + out)
    ensures (ReasoningText(sent + out) == Before(lower, text) && ContentText(sent + out) == After(lower, text))
      <==> Right(lower, text, pending, sent)
  {
    hide TagAt, ReasoningText, ContentText, Before, After, Tail;
    TextConcat(sent, out);
    TextOf(out);
  }

  lemma ConcatNext(chunks: seq<string>, k: nat)
    requires k < |chunks|
    ensures Concat(chunks[..k + 1]) == Concat(chunks[..k]) + chunks[k]
  {
    assert chunks[..k + 1][..k] == chunks[..k];
  }

  lemma NothingYet(lower: char -> string)
    ensures Concat<char>([]) == "" && Kept(lower, "", "", true, []) && Right(lower, "", "", [])
  {
    TagFits(lower, "");
  }

  /** For which texts that holds however they are cut: those with no tag, and those in which
      every character before the tag lowercases to one. */
  lemma EveryCuttingRight(lower: char -> string, text: string)
    ensures (forall chunks :: Concat(chunks) == text ==> SearchedPlainly(lower, chunks))
      <==> TagAt(lower, text) < 0 || Plain(lower, Before(lower, text))
  {
    hide TagAt, Plain;
    if TagAt(lower, text) < 0 || Plain(lower, Before(lower, text)) {
      forall chunks | Concat(chunks) == text
        ensures SearchedPlainly(lower, chunks)
      {
        forall k | 0 <= k < |chunks|
          ensures PlainSearch(lower, Concat(chunks[..k]), chunks[k])
        {
          PrefixSearch(lower, chunks, k);
        }
      }
    } else {
      Whole(lower, text);
    }
  }

  // One chunk holding the whole text is searched from its start.
  lemma Whole(lower: char -> string, text: string)
    requires TagAt(lower, text) >= 0 && !Plain(lower, Before(lower, text))
    ensures Concat([text]) == text && !SearchedPlainly(lower, [text])
  {
    assert [text][..0] == [];
    assert Concat<char>([]) + text == text && Tail("") + text == text;
    NothingYet(lower);
    assert !PlainSearch(lower, Concat([text][..0]), [text][0]);
  }

  lemma {:induction false} PrefixOfConcat(chunks: seq<string>, k: nat)
    requires k <= |chunks|
    ensures Concat(chunks[..k]) <= Concat(chunks)
    decreases |chunks|
  {
    if k < |chunks| {
      assert chunks[..|chunks| - 1][..k] == chunks[..k];
      PrefixOfConcat(chunks[..|chunks| - 1], k);
    } else {
      assert chunks[..k] == chunks;
    }
  }

  lemma PrefixSearch(lower: char -> string, chunks: seq<string>, k: nat)
    requires k < |chunks|
    requires TagAt(lower, Concat(chunks)) < 0 || Plain(lower, Before(lower, Concat(chunks)))
    ensures PlainSearch(lower, Concat(chunks[..k]), chunks[k])
  {
    hide TagAt, Tail, Concat, Before, After, Plain;
    NoTag(lower, Concat(chunks));
    var head, chunk := Concat(chunks[..k]), chunks[k];
    ConcatNext(chunks, k);
    PrefixOfConcat(chunks, k + 1);
    var more := Concat(chunks)[|head + chunk|..];
    assert Concat(chunks) == head + chunk + more;
    if TagAt(lower, head) < 0 && TagAt(lower, head + chunk) >= 0 {
      TagStays(lower, head + chunk, more);
      Searched(lower, head, chunk);
      var searched, emitted := Tail(head) + chunk, head[..|head| - |Tail(head)|];
      PlainEnd(lower, emitted, Before(lower, searched));
    }
  }

  lemma PlainEnd(lower: char -> string, a: string, b: string)
    requires Plain(lower, a + b)
    ensures Plain(lower, b)
  {
    forall i | 0 <= i < |b|
      ensures |lower(b[i])| == 1
    {
      assert (a + b)[|a| + i] == b[i];
    }
  }

  /** One character before the tag that lowercases to several is enough. The dotted capital I
      (U+0130) does, to `i` and a combining dot, so its text is split in the wrong place. */
  lemma GrownCharacterMisleads(lower: char -> string, c: char, rest: string)
    requires IsLowering(lower) && |lower(c)| > 1 && forall i :: 0 <= i < |THINK_CLOSE| ==>
      lower(THINK_CLOSE[i]) == [THINK_CLOSE[i]]
    ensures var text := [c] + THINK_CLOSE + rest;
      TagAt(lower, text) == 1 && Before(lower, text) == [c] && !SearchedPlainly(lower, [text])
  {
    hide TagAt, Before, Plain, SearchedPlainly, IsLowering, Spells;
    var text := [c] + THINK_CLOSE + rest;
    assert text[1..] == THINK_CLOSE + rest && text[0] == c;
    SpelledOut(lower, rest);
    TagSecond(lower, text);
    FirstOnly(lower, text);
    Whole(lower, text);
  }

  lemma TagSecond(lower: char -> string, s: string)
    requires IsLowering(lower) && s != "" && |lower(s[0])| > 1 && Spells(lower, s[1..], THINK_CLOSE)
    ensures TagAt(lower, s) == 1
  {
    NotSpelled(lower, s);
    hide Find, Fold, OccursAt, IsLowering, Spells;
    FindIsLeftmost(Fold(lower, s), THINK_CLOSE);
    TagMeans(lower, s, 0);
    TagMeans(lower, s, 1);
  }

  lemma SpelledOut(lower: char -> string, rest: string)
    requires forall i :: 0 <= i < |THINK_CLOSE| ==> lower(THINK_CLOSE[i]) == [THINK_CLOSE[i]]
    ensures Spells(lower, THINK_CLOSE + rest, THINK_CLOSE)
  {
  }

  lemma NotSpelled(lower: char -> string, s: string)
    requires s != "" && |lower(s[0])| > 1
    ensures !Spells(lower, s[0..], THINK_CLOSE)
  {
    if |s| >= |THINK_CLOSE| {
      assert s[0..][0] == s[0] && |[THINK_CLOSE[0]]| == 1;
    }
  }

  lemma FirstOnly(lower: char -> string, s: string)
    requires s != "" && |lower(s[0])| > 1 && TagAt(lower, s) == 1
    ensures Before(lower, s) == [s[0]] && !Plain(lower, Before(lower, s))
  {
  }
}
