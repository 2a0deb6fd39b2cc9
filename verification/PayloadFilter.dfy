/**
 The nested-path filter of `core/payload_filter.py`.

 A payload is a heap of dictionaries. `Tree` is what such a heap means, `Delete` the deletion of
 one path in a tree. The program deletes either in place or by copying the dictionaries on the
 path; both are proved to delete, and a set of deletions is proved to be independent of order.
 */
module PayloadFilter {
  import opened Collections
  import opened Json

  datatype Tree = Leaf(json: Json) | Node(kids: map<string, Tree>)

  type Path = seq<string>

  // ---------- deletion in trees ----------

  function Delete(t: Tree, path: Path): Tree
    requires path != []
    decreases |path|
  {
    if t.Leaf? || path[0] !in t.kids then t
    else if |path| == 1 then Node(t.kids - {path[0]})
    else Node(t.kids[path[0] := Delete(t.kids[path[0]], path[1..])])
  }

  // Whether there is something to delete.
  predicate Present(t: Tree, path: Path)
    requires path != []
    decreases |path|
  {
    t.Node? && path[0] in t.kids && (|path| == 1 || Present(t.kids[path[0]], path[1..]))
  }

  /** What stands at the end of a path, looked at from the root alone. */
  datatype Sight = Nothing | Value(json: Json) | Dictionary

  function At(t: Tree, path: Path): Sight
    decreases |path|
  {
    if path == [] then (if t.Leaf? then Value(t.json) else Dictionary)
    else if t.Leaf? || path[0] !in t.kids then Nothing
    else At(t.kids[path[0]], path[1..])
  }

  /** Deleting a path removes it with everything below it and nothing else. */
  lemma {:induction false} DeleteRemoves(t: Tree, path: Path, q: Path)
    requires path != []
    ensures At(Delete(t, path), q) == if path <= q then Nothing else At(t, q)
    ensures Present(t, path) <==> At(t, path) != Nothing
    ensures !Present(t, path) ==> Delete(t, path) == t
    decreases |path|
  {
    if t.Node? && path[0] in t.kids && |path| > 1 {
      var kid := t.kids[path[0]];
      DeleteRemoves(kid, path[1..], if q != [] then q[1..] else []);
      if q != [] && q[0] == path[0] {
        assert path <= q <==> path[1..] <= q[1..];
      }
      if !Present(kid, path[1..]) {
        assert t.kids[path[0] := kid] == t.kids;
      }
    } else if |path| == 1 {
      assert q != [] && q[0] == path[0] ==> path <= q;
    } else {
      NotThere(t, path, q);
    }
  }

  lemma NotThere(t: Tree, path: Path, q: Path)
    requires path != [] && (t.Leaf? || path[0] !in t.kids)
    ensures path <= q ==> At(t, q) == Nothing
  {
  }

  /** Trees that look alike along every path are the same. */
  lemma {:induction false} Extensional(a: Tree, b: Tree)
    requires forall q :: At(a, q) == At(b, q)
    ensures a == b
    decreases a
  {
    assert At(a, []) == At(b, []);
    if a.Node? {
      forall k
        ensures k in a.kids <==> k in b.kids
      {
        Below(a, k, []);
        Below(b, k, []);
        assert At(a, [k]) == At(b, [k]);
      }
      forall k | k in a.kids
        ensures a.kids[k] == b.kids[k]
      {
        forall q
          ensures At(a.kids[k], q) == At(b.kids[k], q)
        {
          Below(a, k, q);
          Below(b, k, q);
          assert At(a, [k] + q) == At(b, [k] + q);
        }
        Extensional(a.kids[k], b.kids[k]);
      }
      assert a.kids == b.kids;
    }
  }

  lemma Below(t: Tree, k: string, q: Path)
    requires t.Node?
    ensures At(t, [k] + q) == if k in t.kids then At(t.kids[k], q) else Nothing
    ensures At(t, [k]) != Nothing <==> k in t.kids
  {
    assert ([k] + q)[1..] == q;
    assert [k][1..] == [];
  }

  // ---------- the deny set ----------

  const ALWAYS_KEEP: set<string> := {"model", "messages", "input", "instructions", "stream", "prompt", "file"}

  // The non-empty parts of a dotted path; `word` is the part being read.
  function Parts(key: string, word: string): Path {
    if key == "" then (if word == "" then [] else [word])
    else if key[0] == '.' then (if word == "" then [] else [word]) + Parts(key[1..], "")
    else Parts(key[1..], word + [key[0]])
  }

  // What a deny entry deletes: a path, or nothing ([]) when it is empty, made of dots, or a
  // protected top-level key.
  function Denied(key: string): Path {
    if '.' in key then Parts(key, "")
    else if key == "" || key in ALWAYS_KEEP then []
    else [key]
  }

  /** The words of a dotted key, empty ones included, written out again. */
  function Dotted(words: seq<string>): string
    requires words != []
  {
    if |words| == 1 then words[0] else words[0] + "." + Dotted(words[1..])
  }

  predicate Undotted(words: seq<string>) {
    forall i :: 0 <= i < |words| ==> '.' !in words[i]
  }

  predicate NonEmpty(word: string) { word != "" }

  // Every key is made of words.
  lemma {:induction false} WordsOf(key: string) returns (words: seq<string>)
    ensures words != [] && Undotted(words) && Dotted(words) == key
    ensures |words| == 1 <==> '.' !in key
  {
    if key == "" {
      words := [""];
    } else {
      var rest := WordsOf(key[1..]);
      if key[0] == '.' {
        words := [""] + rest;
        assert words[1..] == rest;
      } else {
        words := [[key[0]] + rest[0]] + rest[1..];
        assert words[1..] == rest[1..];
      }
      assert key == [key[0]] + key[1..];
    }
  }

  lemma {:induction false} WordRead(word: string, rest: string, begun: string)
    requires '.' !in word
    ensures Parts(word + rest, begun) == Parts(rest, begun + word)
    decreases |word|
  {
    if word == "" {
      assert word + rest == rest && begun + word == begun;
    } else {
      WordRead(word[1..], rest, begun + [word[0]]);
      assert (word + rest)[1..] == word[1..] + rest;
      assert begun + [word[0]] + word[1..] == begun + word;
    }
  }

  /** A dotted key stands for its non-empty words in order. */
  lemma {:induction false} PartsAre(words: seq<string>)
    requires words != [] && Undotted(words)
    ensures Filters(Parts(Dotted(words), ""), words, NonEmpty)
    decreases |words|
  {
    hide Filters;
    var word, rest := words[0], words[1..];
    assert words == [word] + rest;
    assert "" + word == word && word + "" == word;
    if |words| == 1 {
      FilterEmpty(NonEmpty);
      FilterFront([], [], NonEmpty, word);
      WordRead(word, "", "");
      assert [word] + [] == [word];
    } else {
      PartsAre(rest);
      FilterFront(Parts(Dotted(rest), ""), rest, NonEmpty, word);
      WordRead(word, "." + Dotted(rest), "");
      assert word + "." + Dotted(rest) == word + ("." + Dotted(rest));
      assert ("." + Dotted(rest))[1..] == Dotted(rest);
      assert [] + Parts(Dotted(rest), "") == Parts(Dotted(rest), "");
    }
  }

  /** What a deny entry deletes, by its words: with a dot the path of its non-empty words, without
      one the top-level key it names unless that is protected. */
  lemma DeniedMeans(words: seq<string>)
    requires words != [] && Undotted(words)
    ensures |words| > 1 ==> Filters(Denied(Dotted(words)), words, NonEmpty)
    ensures |words| == 1 ==>
      Denied(Dotted(words)) == if words[0] == "" || words[0] in ALWAYS_KEEP then [] else words
  {
    hide Parts, Filters, Dotted, Undotted;
    DotBetween(words);
    if |words| == 1 {
      assert [words[0]] == words;
    } else {
      PartsAre(words);
    }
  }

  lemma DotBetween(words: seq<string>)
    requires words != [] && Undotted(words)
    ensures |words| > 1 <==> '.' in Dotted(words)
    ensures |words| == 1 ==> Dotted(words) == words[0]
  {
    if |words| > 1 {
      assert Dotted(words)[|words[0]|] == '.';
    }
  }

  function Applied(t: Tree, key: string): Tree {
    if Denied(key) == [] then t else Delete(t, Denied(key))
  }

  function AppliedAll(t: Tree, keys: seq<string>): Tree {
    if keys == [] then t else Applied(AppliedAll(t, keys[..|keys| - 1]), keys[|keys| - 1])
  }

  predicate Covers(keys: seq<string>, q: Path) {
    exists i :: 0 <= i < |keys| && Denied(keys[i]) != [] && Denied(keys[i]) <= q
  }

  /** The filtered payload keeps exactly what no deny entry reaches. */
  lemma {:induction false} FilterRemoves(t: Tree, keys: seq<string>, q: Path)
    ensures At(AppliedAll(t, keys), q) == if Covers(keys, q) then Nothing else At(t, q)
  {
    hide Denied;
    if keys != [] {
      var init, key := keys[..|keys| - 1], keys[|keys| - 1];
      FilterRemoves(t, init, q);
      assert Covers(keys, q) <==> Covers(init, q) || (Denied(key) != [] && Denied(key) <= q);
      if Denied(key) != [] {
        DeleteRemoves(AppliedAll(t, init), Denied(key), q);
      }
    }
  }

  /** Confluence: two orders of the same entries, however nested or overlapping their paths and
      however often an entry is repeated, give the same payload. */
  lemma OrderIrrelevant(t: Tree, a: seq<string>, b: seq<string>)
    requires forall key :: key in a <==> key in b
    ensures AppliedAll(t, a) == AppliedAll(t, b)
  {
    hide Denied;
    forall q
      ensures At(AppliedAll(t, a), q) == At(AppliedAll(t, b), q)
    {
      FilterRemoves(t, a, q);
      FilterRemoves(t, b, q);
      CoversByMembers(a, b, q);
      CoversByMembers(b, a, q);
    }
    Extensional(AppliedAll(t, a), AppliedAll(t, b));
  }

  lemma CoversByMembers(a: seq<string>, b: seq<string>, q: Path)
    requires forall key :: key in a ==> key in b
    ensures Covers(a, q) ==> Covers(b, q)
  {
    if Covers(a, q) {
      var i :| 0 <= i < |a| && Denied(a[i]) != [] && Denied(a[i]) <= q;
      assert a[i] in b;
    }
  }

  // `k` at place `i` with nothing but dots around it.
  ghost predicate AroundAt(key: string, k: string, i: int) {
    OccursAt(key, k, i) && forall j :: 0 <= j < |key| && !(i <= j < i + |k|) ==> key[j] == '.'
  }

  ghost predicate Around(key: string, k: string) {
    exists i :: AroundAt(key, k, i)
  }

  // `k` with dots around it and at least one, such as ".model".
  ghost predicate DotsOnly(key: string, k: string) {
    |key| > |k| && Around(key, k)
  }

  lemma {:induction false} DotsHaveNoParts(key: string)
    ensures Parts(key, "") == [] <==> forall j :: 0 <= j < |key| ==> key[j] == '.'
  {
    if key != "" {
      if key[0] == '.' {
        DotsHaveNoParts(key[1..]);
        assert forall j :: 0 < j < |key| ==> key[j] == key[1..][j - 1];
      } else {
        WordStays(key[1..], [key[0]]);
        assert "" + [key[0]] == [key[0]];
      }
    }
  }

  lemma {:induction false} WordStays(key: string, word: string)
    requires word != ""
    ensures Parts(key, word) != []
    decreases |key|
  {
    if key != "" && key[0] != '.' { WordStays(key[1..], word + [key[0]]); }
  }

  // A key has the one part `k` exactly when it is `k` with dots around it.
  lemma {:induction false} OnePart(key: string, word: string, k: string)
    requires '.' !in word && k != "" && '.' !in k
    ensures Parts(key, word) == [k] <==> Around(word + key, k)
    decreases |key|
  {
    if key == "" {
      LoneWord(word, key, k);
    } else if key[0] == '.' {
      OnePart(key[1..], "", k);
      assert "" + key[1..] == key[1..];
      if word == "" {
        DotBefore(key, k);
      } else {
        LoneWord(word, key, k);
        DotsHaveNoParts(key[1..]);
        var others := Parts(key[1..], "");
        assert Parts(key, word) == [word] + others;
        assert others == [] ==> [word] + others == [word];
        assert [word] + others == [k] ==> ([word] + others)[0] == k && |others| == 0;
        assert forall j :: 0 < j < |key| ==> key[j] == key[1..][j - 1];
      }
    } else {
      OnePart(key[1..], word + [key[0]], k);
      assert word + [key[0]] + key[1..] == word + key;
    }
  }

  lemma LoneWord(word: string, rest: string, k: string)
    requires '.' !in word && k != "" && '.' !in k && (rest == "" || (rest[0] == '.' && word != ""))
    ensures Around(word + rest, k) <==> word == k && forall j :: 0 <= j < |rest| ==> rest[j] == '.'
  {
    var key := word + rest;
    if Around(key, k) {
      var i :| AroundAt(key, k, i);
      assert forall j :: 0 <= j < |k| ==> key[i + j] == k[j];
      assert word != "" ==> key[0] == word[0] && word[0] in word;
      assert i == 0;
      assert forall j :: 0 <= j < |k| ==> k[j] in k;
      assert forall j :: 0 <= j < |word| ==> key[j] == word[j] && word[j] in word;
      assert rest != "" ==> key[|word|] == rest[0];
      assert forall j :: 0 <= j < |k| ==> key[j] == k[j];
      assert |k| < |key| ==> key[|k|] == '.';
      assert |word| == |k|;
      assert word == k;
      forall j | 0 <= j < |rest|
        ensures rest[j] == '.'
      {
        assert key[|word| + j] == rest[j];
      }
    }
    if word == k && forall j :: 0 <= j < |rest| ==> rest[j] == '.' {
      assert key[0..0 + |k|] == k;
      assert AroundAt(key, k, 0);
    }
  }

  lemma DotBefore(key: string, k: string)
    requires key != "" && key[0] == '.' && k != "" && '.' !in k
    ensures Around("" + key, k) <==> Around(key[1..], k)
  {
    assert "" + key == key;
    forall i
      ensures AroundAt(key, k, i) <==> AroundAt(key[1..], k, i - 1)
    {
      DotShifts(key, k, i);
    }
    if Around(key[1..], k) {
      var i :| AroundAt(key[1..], k, i);
      assert AroundAt(key, k, i + 1);
    }
  }

  lemma DotShifts(key: string, k: string, i: int)
    requires key != "" && key[0] == '.' && k != "" && '.' !in k
    ensures AroundAt(key, k, i) <==> AroundAt(key[1..], k, i - 1)
  {
    var rest := key[1..];
    assert forall j :: 0 <= j < |rest| ==> rest[j] == key[j + 1];
    assert k[0] in k;
    if 0 < i <= |key| - |k| {
      assert rest[i - 1..i - 1 + |k|] == key[i..i + |k|];
    }
    if AroundAt(rest, k, i - 1) {
      forall j | 0 <= j < |key| && !(i <= j < i + |k|)
        ensures key[j] == '.'
      {
        if j > 0 { assert key[j] == rest[j - 1]; }
      }
    }
    if OccursAt(key, k, i) { assert key[i..i + |k|][0] == key[i]; }
  }

  // What reaches a top-level key of its own.
  lemma DeniedAlone(key: string, k: string)
    requires k in ALWAYS_KEEP
    ensures Denied(key) == [k] <==> DotsOnly(key, k)
  {
    OnePart(key, "", k);
    assert "" + key == key;
    if Around(key, k) {
      var i :| AroundAt(key, k, i);
      if |key| == |k| {
        assert key == k;
      } else {
        var j := if i > 0 then 0 else |k|;
        assert key[j] == '.';
      }
    }
  }

  /** The protection of top-level keys looks only at entries without a dot: a protected key that
      is present survives the deny filter if and only if no entry is that key with dots around
      it. */
  lemma ProtectedSurvives(t: Tree, keys: seq<string>, k: string)
    requires t.Node? && k in t.kids && k in ALWAYS_KEEP
    ensures AppliedAll(t, keys).Node?
    ensures k in AppliedAll(t, keys).kids <==> !exists key :: key in keys && DotsOnly(key, k)
  {
    hide Parts, Denied, DotsOnly, AppliedAll, Delete;
    AppliedNode(t, keys);
    FilterRemoves(t, keys, [k]);
    Below(t, k, []);
    Below(AppliedAll(t, keys), k, []);
    forall key
      ensures Denied(key) != [] && Denied(key) <= [k] <==> DotsOnly(key, k)
    {
      DeniedAlone(key, k);
      if Denied(key) != [] && Denied(key) <= [k] { assert Denied(key) == [k]; }
    }
    if exists key :: key in keys && DotsOnly(key, k) {
      var key :| key in keys && DotsOnly(key, k);
      var i :| 0 <= i < |keys| && keys[i] == key;
      assert Covers(keys, [k]);
    }
  }

  // ---------- dictionaries in memory ----------

  class Dict {
    var fields: map<string, Cell>

    constructor (fields: map<string, Cell>)
      ensures this.fields == fields
    {
      this.fields := fields;
    }
  }

  /** A value: a dictionary, or anything else as an unanalysed JSON value. */
  datatype Cell = Plain(json: Json) | Ref(dict: Dict)

  // `c` means `t`; every dictionary reached is in `r`. Dictionaries may be shared.
  ghost predicate Means(c: Cell, t: Tree, r: set<Dict>)
    reads r
    decreases t, 1
  {
    if t.Leaf? then c == Plain(t.json) else c.Ref? && c.dict in r && Holds(c.dict.fields, t, r)
  }

  ghost predicate Holds(fields: map<string, Cell>, t: Tree, r: set<Dict>)
    requires t.Node?
    reads r
    decreases t, 0
  {
    fields.Keys == t.kids.Keys && forall k :: k in t.kids ==> Means(fields[k], t.kids[k], r)
  }

  lemma {:induction false} MeansMore(c: Cell, t: Tree, r: set<Dict>, more: set<Dict>)
    requires Means(c, t, r) && r <= more
    ensures Means(c, t, more)
    decreases t
  {
    if t.Node? {
      forall k | k in t.kids
        ensures Means(c.dict.fields[k], t.kids[k], more)
      {
        MeansMore(c.dict.fields[k], t.kids[k], r, more);
      }
    }
  }

  // ---------- copy on write ----------

  function Elements(s: seq<Dict>): set<Dict> { set d | d in s }

  // What `t` is but for one entry, which leads to `next`.
  ghost predicate Link(fields: map<string, Cell>, t: Tree, k: string, next: Dict, r: set<Dict>)
    reads r
  {
    && t.Node? && k in t.kids && fields.Keys == t.kids.Keys && fields[k] == Ref(next)
    && forall l :: l in t.kids && l != k ==> Means(fields[l], t.kids[l], r)
  }

  lemma LinkMade(fields: map<string, Cell>, t: Tree, k: string, next: Dict, r: set<Dict>)
    requires t.Node? && k in t.kids && Holds(fields, t, r)
    ensures Link(fields[k := Ref(next)], t, k, next, r)
  {
  }

  // Copies of the dictionaries on a path: each holds what the original held, except that the
  // next step of the path leads to the next copy.
  ghost predicate Spine(copies: seq<Dict>, trees: seq<Tree>, path: Path, r: set<Dict>)
    reads Elements(copies), r
  {
    && |copies| == |trees| > 0 && |trees| - 1 <= |path|
    && (forall j :: 0 <= j < |trees| ==> trees[j].Node?)
    && forall j :: 0 <= j < |trees| - 1 ==>
      && Link(copies[j].fields, trees[j], path[j], copies[j + 1], r) && trees[j + 1] == trees[j].kids[path[j]]
  }

  // When the last copy holds what is left of its tree, every copy above does.
  lemma {:induction false} SpineHolds(copies: seq<Dict>, trees: seq<Tree>, path: Path, r: set<Dict>,
      all: set<Dict>, j: nat)
    requires Spine(copies, trees, path, r) && |path| == |trees| && j < |trees|
    requires r <= all && forall i :: 0 < i < |copies| ==> copies[i] in all
    requires Holds(copies[|copies| - 1].fields, Delete(trees[|trees| - 1], path[|path| - 1..]), all)
    ensures Holds(copies[j].fields, Delete(trees[j], path[j..]), all)
    decreases |trees| - j
  {
    if j < |trees| - 1 {
      SpineHolds(copies, trees, path, r, all, j + 1);
      assert path[j..][1..] == path[j + 1..];
      var left := Delete(trees[j], path[j..]);
      forall k | k in left.kids
        ensures Means(copies[j].fields[k], left.kids[k], all)
      {
        if k != path[j] {
          MeansMore(copies[j].fields[k], trees[j].kids[k], r, all);
        }
      }
    }
  }

  lemma HoldsMore(fields: map<string, Cell>, t: Tree, r: set<Dict>, more: set<Dict>)
    requires t.Node? && Holds(fields, t, r) && r <= more
    ensures Holds(fields, t, more)
  {
    forall k | k in t.kids
      ensures Means(fields[k], t.kids[k], more)
    {
      MeansMore(fields[k], t.kids[k], r, more);
    }
  }

  lemma SpineStart(dst: Dict, t: Tree, path: Path, r: set<Dict>)
    requires t.Node?
    ensures Spine([dst], [t], path, r)
  {
  }

  lemma PresentStep(t: Tree, path: Path)
    requires |path| >= 2 && t.Node?
    ensures Present(t, path) <==> path[0] in t.kids && Present(t.kids[path[0]], path[1..])
    ensures path[0] in t.kids && t.kids[path[0]].Leaf? ==> !Present(t, path)
  {
  }

  // A copy of the next dictionary takes the original's place in the copy above it.
  method Hook(cur: Dict, child: Dict, k: string, ghost copies: seq<Dict>, ghost trees: seq<Tree>,
      ghost parts: Path, ghost r: set<Dict>)
    returns (copy: Dict)
    requires Spine(copies, trees, parts, r) && |copies| <= |parts| && k == parts[|copies| - 1]
    requires cur == copies[|copies| - 1] && Holds(cur.fields, trees[|trees| - 1], r)
    requires k in trees[|trees| - 1].kids && trees[|trees| - 1].kids[k].Node?
    requires forall j :: 0 <= j < |copies| ==> copies[j] !in r && copies[j] != child
    requires forall j, l :: 0 <= j < l < |copies| ==> copies[j] != copies[l]
    modifies cur
    ensures fresh(copy) && copy.fields == child.fields
    ensures cur.fields == old(cur.fields)[k := Ref(copy)]
    ensures Spine(copies + [copy], trees + [trees[|trees| - 1].kids[k]], parts, r)
  {
    hide Means, Holds, Link;
    copy := new Dict(child.fields);
    LinkMade(cur.fields, trees[|trees| - 1], k, copy, r);
    cur.fields := cur.fields[k := Ref(copy)];
  }

  // The loop over all but the last step: the dictionaries on the path are copied, and each copy
  // is hooked into the one above. None when a step leads to no dictionary.
  method CopyPath(payload: Dict, parts: Path, ghost t: Tree, ghost r: set<Dict>)
    returns (found: bool, dst: Dict, cur: Dict, ghost copies: seq<Dict>, ghost trees: seq<Tree>)
    requires parts != [] && t.Node? && Holds(payload.fields, t, r)
    ensures !found ==> !Present(t, parts)
    ensures found ==>
      && |copies| == |parts| && copies[0] == dst && copies[|copies| - 1] == cur
      && Spine(copies, trees, parts, r) && |trees| == |parts| && trees[0] == t && trees[|trees| - 1].Node?
      && (forall j :: 0 <= j < |copies| ==> fresh(copies[j]))
      && (forall j, l :: 0 <= j < l < |copies| ==> copies[j] != copies[l])
      && Holds(cur.fields, trees[|trees| - 1], r)
      && Present(t, parts) == Present(trees[|trees| - 1], parts[|parts| - 1..])
  {
    hide Means, Present, Spine;
    dst := new Dict(payload.fields);
    var src := payload;
    cur := dst;
    copies, trees := [dst], [t];
    SpineStart(dst, t, parts, r);
    for i := 0 to |parts| - 1
      invariant |copies| == |trees| == i + 1 && copies[0] == dst && copies[i] == cur && trees[0] == t
      invariant Spine(copies, trees, parts, r) && trees[i].Node?
      invariant forall j :: 0 <= j <= i ==> fresh(copies[j])
      invariant forall j, l :: 0 <= j < l <= i ==> copies[j] != copies[l]
      invariant Holds(src.fields, trees[i], r) && Holds(cur.fields, trees[i], r)
      invariant Present(t, parts) == Present(trees[i], parts[i..])
    {
      var k := parts[i];
      assert parts[i..][1..] == parts[i + 1..];
      PresentStep(trees[i], parts[i..]);
      if k in src.fields { IsNode(src.fields[k], trees[i].kids[k], r); }
      if k !in src.fields || !src.fields[k].Ref? {
        return false, dst, cur, copies, trees;
      }
      var child := src.fields[k].dict;
      var copy := Hook(cur, child, k, copies, trees, parts, r);
      src, cur := child, copy;
      trees := trees + [trees[i].kids[k]];
      copies := copies + [copy];
    }
    found := true;
  }

  lemma IsNode(c: Cell, t: Tree, r: set<Dict>)
    requires Means(c, t, r)
    ensures c.Ref? <==> t.Node?
    ensures t.Node? ==> c.dict in r && Holds(c.dict.fields, t, r)
  {
  }

  /** `_pop_dot_path_cow`: nothing that existed before is written; the result means the payload
      without the path, and the flag tells whether there was anything to remove. */
  method PopDotPathCow(payload: Dict, key: string, ghost t: Tree, ghost r: set<Dict>)
    returns (dst: Dict, removed: bool, ghost more: set<Dict>)
    requires t.Node? && Holds(payload.fields, t, r)
    ensures r <= more && fresh(more - r) && (dst == payload || (fresh(dst) && dst !in more))
    ensures var path := if '.' in key then Parts(key, "") else [];
      && (path == [] ==> !removed && dst == payload && more == r)
      && (path != [] ==>
        removed == Present(t, path) && Delete(t, path).Node? && Holds(dst.fields, Delete(t, path), more))
  {
    hide Parts, Means;
    more := r;
    if '.' !in key {
      return payload, false, more;
    }
    var parts := Parts(key, "");
    if parts == [] {
      return payload, false, more;
    }
    var found, cur;
    ghost var copies, trees;
    found, dst, cur, copies, trees := CopyPath(payload, parts, t, r);
    if !found {
      AbsentBelow(t, parts);
      return payload, false, more;
    }
    var last := parts[|parts| - 1];
    removed := last in cur.fields;
    if removed {
      cur.fields := cur.fields - {last};
    }
    more := r + Elements(copies[1..]);
    HoldsMore(cur.fields, Delete(trees[|trees| - 1], parts[|parts| - 1..]), r, more);
    SpineHolds(copies, trees, parts, r, more, 0);
    assert parts[0..] == parts;
  }

  lemma AbsentBelow(t: Tree, path: Path)
    requires path != [] && !Present(t, path)
    ensures Delete(t, path) == t
  {
    DeleteRemoves(t, path, []);
  }

  // ---------- in place ----------

  /** The shape of a payload whose dictionaries are not shared, such as a deep copy. */
  datatype Shape = Other(json: Json) | Own(dict: Dict, kids: map<string, Shape>)

  ghost function Owned(s: Shape): set<Dict> {
    if s.Other? then {} else {s.dict} + set k, d | k in s.kids && d in Owned(s.kids[k]) :: d
  }

  ghost function Meaning(s: Shape): Tree {
    if s.Other? then Leaf(s.json) else Node(map k | k in s.kids :: Meaning(s.kids[k]))
  }

  // No dictionary occurs twice.
  ghost predicate Unshared(s: Shape) {
    s.Own? ==>
      && (forall k :: k in s.kids ==> s.dict !in Owned(s.kids[k]) && Unshared(s.kids[k]))
      && forall k, l :: k in s.kids && l in s.kids && k != l ==> Owned(s.kids[k]) !! Owned(s.kids[l])
  }

  ghost predicate Mirrors(c: Cell, s: Shape)
    reads Owned(s)
    decreases s
  {
    if s.Other? then c == Plain(s.json)
    else
      && c == Ref(s.dict) && s.dict.fields.Keys == s.kids.Keys
      && forall k :: k in s.kids ==> Mirrors(s.dict.fields[k], s.kids[k])
  }

  ghost function DeleteIn(s: Shape, path: Path): Shape
    requires path != []
    decreases |path|
  {
    if s.Other? || path[0] !in s.kids then s
    else if |path| == 1 then Own(s.dict, s.kids - {path[0]})
    else Own(s.dict, s.kids[path[0] := DeleteIn(s.kids[path[0]], path[1..])])
  }

  lemma {:induction false} DeleteInMeans(s: Shape, path: Path)
    requires path != []
    ensures Meaning(DeleteIn(s, path)) == Delete(Meaning(s), path)
    ensures Owned(DeleteIn(s, path)) <= Owned(s)
    decreases |path|
  {
    if s.Own? && path[0] in s.kids && |path| > 1 {
      DeleteInMeans(s.kids[path[0]], path[1..]);
      assert Meaning(DeleteIn(s, path)).kids == Delete(Meaning(s), path).kids;
    } else if s.Own? && path[0] in s.kids {
      assert Meaning(DeleteIn(s, path)).kids == Delete(Meaning(s), path).kids;
    }
  }

  // `sub` stands at the end of `path`.
  ghost predicate Reaches(s: Shape, path: Path, sub: Shape)
    decreases |path|
  {
    if path == [] then s == sub else s.Own? && path[0] in s.kids && Reaches(s.kids[path[0]], path[1..], sub)
  }

  lemma {:induction false} ReachesOwned(s: Shape, path: Path, sub: Shape)
    requires Reaches(s, path, sub) && sub.Own? && Unshared(s)
    ensures sub.dict in Owned(s) && Unshared(sub) && Owned(sub) <= Owned(s)
    decreases |path|
  {
    if path != [] {
      ReachesOwned(s.kids[path[0]], path[1..], sub);
    }
  }

  /** What every dictionary holds at one moment. */
  type Snapshot = map<Dict, map<string, Cell>>

  ghost predicate MirrorsIn(h: Snapshot, c: Cell, s: Shape)
    decreases s
  {
    if s.Other? then c == Plain(s.json)
    else
      && c == Ref(s.dict) && s.dict in h && h[s.dict].Keys == s.kids.Keys
      && forall k :: k in s.kids ==> MirrorsIn(h, h[s.dict][k], s.kids[k])
  }

  lemma {:induction false} MirrorsNow(h: Snapshot, c: Cell, s: Shape)
    requires forall d :: d in Owned(s) ==> d in h && h[d] == d.fields
    ensures Mirrors(c, s) <==> MirrorsIn(h, c, s)
    decreases s
  {
    if s.Own? && c == Ref(s.dict) && s.dict.fields.Keys == s.kids.Keys {
      forall k | k in s.kids
        ensures Mirrors(s.dict.fields[k], s.kids[k]) <==> MirrorsIn(h, h[s.dict][k], s.kids[k])
      {
        MirrorsNow(h, s.dict.fields[k], s.kids[k]);
      }
    }
  }

  lemma {:induction false} Untouched(h: Snapshot, d: Dict, fields: map<string, Cell>, c: Cell, s: Shape)
    requires d !in Owned(s)
    ensures MirrorsIn(h[d := fields], c, s) <==> MirrorsIn(h, c, s)
    decreases s
  {
    if s.Own? && s.dict in h && h[s.dict].Keys == s.kids.Keys {
      forall k | k in s.kids
        ensures MirrorsIn(h[d := fields], h[s.dict][k], s.kids[k]) <==> MirrorsIn(h, h[s.dict][k], s.kids[k])
      {
        Untouched(h, d, fields, h[s.dict][k], s.kids[k]);
      }
    }
  }

  // Removing an entry of one dictionary is a deletion in the whole, since it is not shared.
  lemma {:induction false} Popped(h: Snapshot, c: Cell, s: Shape, path: Path, sub: Shape, last: string)
    requires MirrorsIn(h, c, s) && Unshared(s) && Reaches(s, path, sub) && sub.Own? && last in sub.kids && sub.dict in h
    ensures MirrorsIn(h[sub.dict := h[sub.dict] - {last}], c, DeleteIn(s, path + [last]))
    decreases |path|
  {
    hide Unshared, MirrorsIn, DeleteIn, Reaches, Owned;
    if path == [] {
      PoppedHere(h, c, s, path, sub, last);
    } else {
      StepDown(h, c, s, path, sub);
      Popped(h, h[s.dict][path[0]], s.kids[path[0]], path[1..], sub, last);
      PoppedBelow(h, c, s, path, sub, last);
    }
  }

  lemma StepDown(h: Snapshot, c: Cell, s: Shape, path: Path, sub: Shape)
    requires MirrorsIn(h, c, s) && Unshared(s) && Reaches(s, path, sub) && path != []
    ensures s.Own? && path[0] in s.kids && s.dict in h && path[0] in h[s.dict]
    ensures MirrorsIn(h, h[s.dict][path[0]], s.kids[path[0]]) && Unshared(s.kids[path[0]])
    ensures Reaches(s.kids[path[0]], path[1..], sub)
  {
  }

  lemma PoppedHere(h: Snapshot, c: Cell, s: Shape, path: Path, sub: Shape, last: string)
    requires MirrorsIn(h, c, s) && Unshared(s) && path == [] && Reaches(s, path, sub)
    requires sub.Own? && last in sub.kids && sub.dict in h
    ensures MirrorsIn(h[sub.dict := h[sub.dict] - {last}], c, DeleteIn(s, path + [last]))
  {
    var fields := h[sub.dict] - {last};
    assert path + [last] == [last];
    forall k | k in s.kids && k != last
      ensures MirrorsIn(h[sub.dict := fields], h[s.dict][k], s.kids[k])
    {
      Untouched(h, sub.dict, fields, h[s.dict][k], s.kids[k]);
    }
  }

  lemma PoppedBelow(h: Snapshot, c: Cell, s: Shape, path: Path, sub: Shape, last: string)
    requires MirrorsIn(h, c, s) && Unshared(s) && path != [] && Reaches(s, path, sub)
    requires sub.Own? && last in sub.kids && sub.dict in h
    requires s.Own? && path[0] in s.kids && s.dict in h && path[0] in h[s.dict]
    requires MirrorsIn(h[sub.dict := h[sub.dict] - {last}], h[s.dict][path[0]],
      DeleteIn(s.kids[path[0]], path[1..] + [last]))
    ensures MirrorsIn(h[sub.dict := h[sub.dict] - {last}], c, DeleteIn(s, path + [last]))
  {
    hide Reaches;
    var fields := h[sub.dict] - {last};
    assert (path + [last])[1..] == path[1..] + [last];
    StepDown(h, c, s, path, sub);
    ReachesOwned(s.kids[path[0]], path[1..], sub);
    forall k | k in s.kids && k != path[0]
      ensures MirrorsIn(h[sub.dict := fields], h[s.dict][k], s.kids[k])
    {
      Untouched(h, sub.dict, fields, h[s.dict][k], s.kids[k]);
    }
  }

  /** `_pop_dot_path`: in place, on a payload whose dictionaries are not shared. Tree and flag
      are those of the copying deletion. */
  method PopDotPath(payload: Dict, key: string, ghost s: Shape) returns (removed: bool)
    requires Mirrors(Ref(payload), s) && Unshared(s)
    modifies Owned(s)
    ensures var path := if '.' in key then Parts(key, "") else [];
      && (path == [] ==> !removed && Mirrors(Ref(payload), s))
      && (path != [] ==> removed == Present(Meaning(s), path) && Mirrors(Ref(payload), DeleteIn(s, path)))
      && (path != [] ==> Meaning(DeleteIn(s, path)) == Delete(Meaning(s), path))
  {
    hide Parts, Unshared, Reaches, Meaning, Present, Delete, DeleteIn, Owned;
    if '.' !in key {
      return false;
    }
    var parts := Parts(key, "");
    if parts == [] {
      return false;
    }
    var found, cur;
    ghost var sub;
    found, cur, sub := FindDict(payload, parts, s);
    DeleteInMeans(s, parts);
    var last := parts[|parts| - 1];
    assert parts == parts[..|parts| - 1] + [last];
    assert parts[|parts| - 1..] == [last];
    if found { LastStep(sub, last); }
    if !found || last !in cur.fields {
      NothingDeleted(s, parts);
      return false;
    }
    ReachesOwned(s, parts[..|parts| - 1], sub);
    RemoveLast(payload, cur, last, s, parts, sub);
    return true;
  }

  // One entry of one dictionary goes.
  method RemoveLast(payload: Dict, cur: Dict, last: string, ghost s: Shape, ghost parts: Path, ghost sub: Shape)
    requires Mirrors(Ref(payload), s) && Unshared(s) && parts != [] && parts[|parts| - 1] == last
    requires Reaches(s, parts[..|parts| - 1], sub) && sub.Own? && sub.dict == cur && last in sub.kids && cur in Owned(s)
    modifies cur
    ensures Mirrors(Ref(payload), DeleteIn(s, parts))
  {
    hide Mirrors, MirrorsIn, Reaches, Unshared, Owned;
    assert parts == parts[..|parts| - 1] + [last];
    ghost var h: Snapshot := map d | d in Owned(s) :: d.fields;
    MirrorsNow(h, Ref(payload), s);
    Popped(h, Ref(payload), s, parts[..|parts| - 1], sub, last);
    cur.fields := cur.fields - {last};
    DeleteInMeans(s, parts);
    MirrorsNow(h[cur := h[cur] - {last}], Ref(payload), DeleteIn(s, parts));
  }

  lemma LastStep(sub: Shape, last: string)
    requires sub.Own?
    ensures Present(Meaning(sub), [last]) <==> last in sub.kids
  {
  }

  // The walk to the dictionary that would hold the last step.
  method FindDict(payload: Dict, parts: Path, ghost s: Shape) returns (found: bool, cur: Dict, ghost sub: Shape)
    requires parts != [] && Mirrors(Ref(payload), s)
    ensures Mirrors(Ref(payload), s)
    ensures !found ==> !Present(Meaning(s), parts)
    ensures found ==>
      sub.Own? && sub.dict == cur && cur.fields.Keys == sub.kids.Keys && Reaches(s, parts[..|parts| - 1], sub)
    ensures found ==> Present(Meaning(s), parts) == Present(Meaning(sub), parts[|parts| - 1..])
  {
    var cell := Ref(payload);
    cur, sub := payload, s;
    assert parts[..0] == [] && parts[0..] == parts;
    for i := 0 to |parts| - 1
      invariant Mirrors(Ref(payload), s) && Mirrors(cell, sub) && Reaches(s, parts[..i], sub)
      invariant Present(Meaning(s), parts) == Present(Meaning(sub), parts[i..])
    {
      assert parts[i..][1..] == parts[i + 1..];
      if !cell.Ref? || parts[i] !in cell.dict.fields {
        return false, cur, sub;
      }
      ReachesStep(s, parts[..i], sub, parts[i]);
      assert parts[..i + 1] == parts[..i] + [parts[i]];
      cell := cell.dict.fields[parts[i]];
      sub := sub.kids[parts[i]];
    }
    if !cell.Ref? {
      return false, cur, sub;
    }
    return true, cell.dict, sub;
  }

  lemma {:induction false} ReachesStep(s: Shape, path: Path, sub: Shape, k: string)
    requires Reaches(s, path, sub) && sub.Own? && k in sub.kids
    ensures Reaches(s, path + [k], sub.kids[k])
    decreases |path|
  {
    if path == [] {
      assert ([k])[1..] == [];
      assert path + [k] == [k];
    } else {
      ReachesStep(s.kids[path[0]], path[1..], sub, k);
      assert (path + [k])[1..] == path[1..] + [k];
    }
  }

  lemma {:induction false} NothingDeleted(s: Shape, path: Path)
    requires path != [] && !Present(Meaning(s), path)
    ensures DeleteIn(s, path) == s
    decreases |path|
  {
    if s.Own? && path[0] in s.kids && |path| > 1 {
      NothingDeleted(s.kids[path[0]], path[1..]);
      assert s.kids[path[0] := s.kids[path[0]]] == s.kids;
    }
  }

  // ---------- the filter ----------

  datatype Mode = Deny | Allow

  // Allow mode keeps the named top-level keys and the protected ones.
  function Allowed(t: Tree, allow: set<string>): Tree {
    if t.Leaf? then t else Node(map k | k in t.kids && (k in allow || k in ALWAYS_KEEP) :: t.kids[k])
  }

  /** Allow mode keeps what stands under the allowed and the protected top-level keys. */
  lemma AllowKeeps(t: Tree, allow: set<string>, q: Path)
    requires t.Node?
    ensures At(Allowed(t, allow), q) ==
      if q == [] || q[0] in allow || q[0] in ALWAYS_KEEP then At(t, q) else Nothing
  {
  }

  lemma AppliedNode(t: Tree, keys: seq<string>)
    requires t.Node?
    ensures AppliedAll(t, keys).Node?
  {
    if keys != [] { AppliedNode(t, keys[..|keys| - 1]); }
  }

  /** `filter_payload_parameters`, with the deny set iterated in the order of `deny`. The payload
      handed in is never written: the result is a dictionary of its own. */
  method FilterPayload(payload: Dict, enabled: bool, mode: Mode, deny: seq<string>, allow: set<string>,
      ghost t: Tree, ghost r: set<Dict>)
    returns (filtered: Dict, ghost more: set<Dict>)
    requires t.Node? && Holds(payload.fields, t, r)
    ensures r <= more && fresh(more - r)
    ensures payload.fields == map[] ==> filtered == payload
    ensures payload.fields != map[] ==> fresh(filtered)
    ensures var result := if !enabled then t else if mode.Allow? then Allowed(t, allow) else AppliedAll(t, deny);
      result.Node? && (payload.fields != map[] ==> Holds(filtered.fields, result, more))
  {
    hide Means, Parts, Denied;
    AppliedNode(t, deny);
    more := r;
    if payload.fields == map[] {
      return payload, more;
    }
    filtered := new Dict(payload.fields);
    if !enabled {
      return;
    }
    if mode.Allow? {
      filtered.fields := map k | k in filtered.fields && (k in allow || k in ALWAYS_KEEP) :: filtered.fields[k];
      return;
    }
    filtered, more := ApplyDeny(filtered, deny, t, r);
  }

  // The entries of the deny set, one after the other.
  method ApplyDeny(payload: Dict, deny: seq<string>, ghost t: Tree, ghost r: set<Dict>)
    returns (filtered: Dict, ghost more: set<Dict>)
    requires t.Node? && Holds(payload.fields, t, r) && payload !in r
    modifies payload
    ensures r <= more && fresh(more - r) && (filtered == payload || fresh(filtered))
    ensures AppliedAll(t, deny).Node? && Holds(filtered.fields, AppliedAll(t, deny), more)
  {
    hide Means, Holds, Applied;
    more, filtered := r, payload;
    assert deny[..0] == [];
    for i := 0 to |deny|
      invariant r <= more && fresh(more - r) && filtered !in more && (filtered == payload || fresh(filtered))
      invariant AppliedAll(t, deny[..i]).Node? && Holds(filtered.fields, AppliedAll(t, deny[..i]), more)
    {
      assert deny[..i + 1][..i] == deny[..i];
      AppliedNode(t, deny[..i + 1]);
      filtered, more := ApplyEntry(filtered, deny[i], AppliedAll(t, deny[..i]), more);
    }
    assert deny[..|deny|] == deny;
  }

  // One entry. Only the working dictionary is written, or a copy takes its place.
  method ApplyEntry(payload: Dict, key: string, ghost t: Tree, ghost r: set<Dict>)
    returns (filtered: Dict, ghost more: set<Dict>)
    requires t.Node? && Holds(payload.fields, t, r) && payload !in r && Applied(t, key).Node?
    modifies payload
    ensures r <= more && fresh(more - r) && filtered !in more && (filtered == payload || fresh(filtered))
    ensures Holds(filtered.fields, Applied(t, key), more)
  {
    hide Means, Parts;
    filtered, more := payload, r;
    if key == "" {
      return;
    }
    if '.' in key {
      var removed;
      filtered, removed, more := PopDotPathCow(payload, key, t, r);
    } else {
      if key in ALWAYS_KEEP {
        return;
      }
      filtered.fields := filtered.fields - {key};
    }
  }
}
