/** Small helpers on options, sequences and leftmost search that several models share. */
module Collections {

  datatype Option<+T> = None | Some(value: T) {
    function GetOr(default: T): T {
      if Some? then value else default
    }
  }

  newtype byte = x: int | 0 <= x < 256

  function Concat<T>(parts: seq<seq<T>>): seq<T> {
    if parts == [] then [] else Concat(parts[..|parts| - 1]) + parts[|parts| - 1]
  }

  // Each element of `out` passes and stands at its place in `all`.
  ghost predicate Placed<T>(out: seq<T>, all: seq<T>, keep: T -> bool, places: seq<nat>) {
    |places| == |out| && forall i :: 0 <= i < |out| ==> places[i] < |all| && out[i] == all[places[i]] && keep(out[i])
  }

  ghost predicate Increasing(places: seq<nat>) {
    forall i, j :: 0 <= i < j < |places| ==> places[i] < places[j]
  }

  ghost predicate NoneMissed<T>(all: seq<T>, keep: T -> bool, places: seq<nat>) {
    forall k :: 0 <= k < |all| && keep(all[k]) ==> k in places
  }

  /** `out` is made of the elements of `all` that pass, in order. */
  ghost predicate Filters<T>(out: seq<T>, all: seq<T>, keep: T -> bool) {
    exists places :: Placed(out, all, keep, places) && Increasing(places) && NoneMissed(all, keep, places)
  }

  lemma FilterEmpty<T>(keep: T -> bool)
    ensures Filters([], [], keep)
  {
    assert Placed([], [], keep, []) && Increasing([]);
  }

  // One more element behind the others.
  lemma FilterNext<T>(out: seq<T>, all: seq<T>, keep: T -> bool, last: T)
    requires Filters(out, all, keep)
    ensures Filters(if keep(last) then out + [last] else out, all + [last], keep)
  {
    hide Placed, Increasing, NoneMissed;
    var places: seq<nat> :|
      Placed(out, all, keep, places) && Increasing(places) && NoneMissed(all, keep, places);
    var at: seq<nat> := if keep(last) then places + [|all|] else places;
    PlacedNext(out, all, keep, last, places, at);
    NoneMissedNext(all, keep, last, places, at);
    assert Placed(if keep(last) then out + [last] else out, all + [last], keep, at);
  }

  lemma PlacedNext<T>(out: seq<T>, all: seq<T>, keep: T -> bool, last: T, places: seq<nat>, at: seq<nat>)
    requires Placed(out, all, keep, places) && Increasing(places)
    requires at == if keep(last) then places + [|all|] else places
    ensures Placed(if keep(last) then out + [last] else out, all + [last], keep, at) && Increasing(at)
  {
    assert forall i :: 0 <= i < |places| ==> (all + [last])[places[i]] == all[places[i]];
  }

  lemma NoneMissedNext<T>(all: seq<T>, keep: T -> bool, last: T, places: seq<nat>, at: seq<nat>)
    requires NoneMissed(all, keep, places) && at == if keep(last) then places + [|all|] else places
    ensures NoneMissed(all + [last], keep, at)
  {
    if keep(last) { assert at[|places|] == |all|; }
  }

  // One more element in front of the others.
  lemma FilterFront<T>(out: seq<T>, all: seq<T>, keep: T -> bool, front: T)
    requires Filters(out, all, keep)
    ensures Filters(if keep(front) then [front] + out else out, [front] + all, keep)
  {
    hide Placed, Increasing, NoneMissed;
    var later: seq<nat> :| Placed(out, all, keep, later) && Increasing(later) && NoneMissed(all, keep, later);
    var moved: seq<nat> := seq(|later|, i requires 0 <= i < |later| => later[i] + 1);
    var at: seq<nat> := if keep(front) then [0] + moved else moved;
    PlacedFront(out, all, keep, front, later, moved, at);
    NoneMissedFront(all, keep, front, later, moved, at);
    assert Placed(if keep(front) then [front] + out else out, [front] + all, keep, at);
  }

  lemma PlacedFront<T>(out: seq<T>, all: seq<T>, keep: T -> bool, front: T, later: seq<nat>, moved: seq<nat>,
      at: seq<nat>)
    requires Placed(out, all, keep, later) && Increasing(later) && at == if keep(front) then [0] + moved else moved
    requires |moved| == |later| && forall i :: 0 <= i < |later| ==> moved[i] == later[i] + 1
    ensures Placed(if keep(front) then [front] + out else out, [front] + all, keep, at) && Increasing(at)
  {
    var more := [front] + all;
    forall i | 0 <= i < |later|
      ensures more[moved[i]] == out[i]
    {
      assert more[moved[i]] == all[later[i]];
    }
    if keep(front) {
      forall i | 0 <= i < |at|
        ensures at[i] < |more| && ([front] + out)[i] == more[at[i]] && keep(([front] + out)[i])
      {
        if i > 0 { assert at[i] == moved[i - 1]; }
      }
      forall i, j | 0 <= i < j < |at|
        ensures at[i] < at[j]
      {
        assert at[j] == moved[j - 1];
        if i > 0 { assert at[i] == moved[i - 1]; }
      }
    }
  }

  lemma NoneMissedFront<T>(all: seq<T>, keep: T -> bool, front: T, later: seq<nat>, moved: seq<nat>, at: seq<nat>)
    requires NoneMissed(all, keep, later) && at == if keep(front) then [0] + moved else moved
    requires |moved| == |later| && forall i :: 0 <= i < |later| ==> moved[i] == later[i] + 1
    ensures NoneMissed([front] + all, keep, at)
  {
    var lead := if keep(front) then 1 else 0;
    forall k | 0 <= k <= |all| && keep(([front] + all)[k])
      ensures k in at
    {
      if k == 0 {
        assert at[0] == 0;
      } else {
        assert all[k - 1] == ([front] + all)[k];
        var i :| 0 <= i < |later| && later[i] == k - 1;
        assert at[lead + i] == k;
      }
    }
  }

  // Only what passes matters, not how it is told.
  lemma FilterSame<T>(out: seq<T>, all: seq<T>, keep: T -> bool, same: T -> bool)
    requires Filters(out, all, keep) && forall i :: 0 <= i < |all| ==> keep(all[i]) == same(all[i])
    ensures Filters(out, all, same)
  {
    hide Increasing;
    var places: seq<nat> :|
      Placed(out, all, keep, places) && Increasing(places) && NoneMissed(all, keep, places);
    assert Placed(out, all, same, places);
    assert NoneMissed(all, same, places);
  }

  // `pat` stands at position `i` of `s`.
  predicate OccursAt<T(==)>(s: seq<T>, pat: seq<T>, i: int) {
    0 <= i <= |s| - |pat| && s[i..i + |pat|] == pat
  }

  ghost predicate Occurs<T(!new)>(s: seq<T>, pat: seq<T>) {
    exists i :: OccursAt(s, pat, i)
  }

  /** The library search (`bytearray.find`, `str.find`): the leftmost position of `pat`, or -1. */
  function Find<T(==)>(s: seq<T>, pat: seq<T>): (r: int)
    ensures -1 <= r && (r >= 0 ==> r + |pat| <= |s|)
  {
    FindFrom(s, pat, 0)
  }

  function FindFrom<T(==)>(s: seq<T>, pat: seq<T>, start: nat): (r: int)
    ensures -1 <= r && (r >= 0 ==> start <= r && r + |pat| <= |s|)
    decreases |s| - start
  {
    if start + |pat| > |s| then -1
    else if OccursAt(s, pat, start) then start
    else if start == |s| then -1
    else FindFrom(s, pat, start + 1)
  }

  lemma {:induction false} FindFromIsLeftmost<T>(s: seq<T>, pat: seq<T>, start: nat)
    ensures var r := FindFrom(s, pat, start);
      && (r >= 0 ==> OccursAt(s, pat, r))
      && forall i :: start <= i && (r >= 0 ==> i < r) ==> !OccursAt(s, pat, i)
    decreases |s| - start
  {
    if start + |pat| <= |s| && !OccursAt(s, pat, start) && start < |s| {
      FindFromIsLeftmost(s, pat, start + 1);
    }
  }

  lemma FindIsLeftmost<T>(s: seq<T>, pat: seq<T>)
    ensures Find(s, pat) >= 0 ==> OccursAt(s, pat, Find(s, pat))
    ensures forall i :: 0 <= i && (Find(s, pat) >= 0 ==> i < Find(s, pat)) ==> !OccursAt(s, pat, i)
  {
    FindFromIsLeftmost(s, pat, 0);
  }

  // An occurrence inside `a` is an occurrence of `a + b`, and every occurrence of `a + b`
  // that ends inside `a` is one of `a`.
  lemma OccursInPrefix<T>(a: seq<T>, b: seq<T>, pat: seq<T>, i: nat)
    requires i + |pat| <= |a|
    ensures OccursAt(a + b, pat, i) <==> OccursAt(a, pat, i)
  {
    assert (a + b)[i..i + |pat|] == a[i..i + |pat|];
  }

  // Cutting `a` off the front shifts the occurrences that start after it.
  lemma OccursInSuffix<T>(a: seq<T>, b: seq<T>, pat: seq<T>, i: nat)
    ensures OccursAt(a + b, pat, |a| + i) <==> OccursAt(b, pat, i)
  {
    if i + |pat| <= |b| {
      assert (a + b)[|a| + i..|a| + i + |pat|] == b[i..i + |pat|];
    }
  }

  // The leftmost occurrence is not moved by appending.
  lemma FindStable<T>(a: seq<T>, b: seq<T>, pat: seq<T>)
    requires Find(a, pat) >= 0
    ensures Find(a + b, pat) == Find(a, pat)
  {
    hide Find;
    FindIsLeftmost(a, pat);
    FindIsLeftmost(a + b, pat);
    var i := Find(a, pat);
    OccursInPrefix(a, b, pat, i);
    var j := Find(a + b, pat);
    if 0 <= j < i {
      OccursInPrefix(a, b, pat, j);
    }
  }
}
