/**
 `LRUDict` of `core/handler.py`: the bounded dictionary behind the rotation cursors. It is
 compared with an unbounded dictionary over every sequence of reads and writes.
 */
module LruDict {
  /** The dictionary's contents; `order` runs from least to most recently used. */
  datatype Lru<K, V> = Lru(order: seq<K>, entries: map<K, V>)

  datatype Operation<K, V> = Read(key: K) | Write(key: K, value: V)

  function Elements<K>(s: seq<K>): set<K> { set x | x in s }

  predicate NoRepeats<K(==)>(s: seq<K>) {
    s == [] || (s[0] !in s[1..] && NoRepeats(s[1..]))
  }

  ghost predicate Valid<K, V>(l: Lru<K, V>, maxsize: nat) {
    NoRepeats(l.order) && Elements(l.order) == l.entries.Keys && |l.order| <= maxsize
  }

  function Without<K(==)>(order: seq<K>, key: K): seq<K> {
    if order == [] then []
    else if order[0] == key then order[1..]
    else [order[0]] + Without(order[1..], key)
  }

  // `move_to_end`
  function Refreshed<K(==)>(order: seq<K>, key: K): seq<K> {
    Without(order, key) + [key]
  }

  function AfterRead<K, V>(l: Lru<K, V>, key: K): Lru<K, V> {
    if key in l.entries then l.(order := Refreshed(l.order, key)) else l
  }

  function AfterWrite<K, V>(l: Lru<K, V>, maxsize: nat, key: K, value: V): Lru<K, V> {
    var order := if key in l.entries then Refreshed(l.order, key) else l.order + [key];
    var entries := l.entries[key := value];
    if |order| > maxsize then Lru(order[1..], entries - {order[0]}) else Lru(order, entries)
  }

  function Applied<K, V>(l: Lru<K, V>, maxsize: nat, op: Operation<K, V>): Lru<K, V> {
    match op
    case Read(key) => AfterRead(l, key)
    case Write(key, value) => AfterWrite(l, maxsize, key, value)
  }

  function Run<K, V>(maxsize: nat, ops: seq<Operation<K, V>>): Lru<K, V> {
    if ops == [] then Lru([], map[]) else Applied(Run(maxsize, ops[..|ops| - 1]), maxsize, ops[|ops| - 1])
  }

  // The dictionary that never evicts.
  function Unbounded<K, V>(ops: seq<Operation<K, V>>): map<K, V> {
    if ops == [] then map[]
    else
      var before, op := Unbounded(ops[..|ops| - 1]), ops[|ops| - 1];
      if op.Write? then before[op.key := op.value] else before
  }

  // An operation touches its key, unless it reads a key that is not there.
  predicate Touches<K, V>(l: Lru<K, V>, op: Operation<K, V>) {
    op.Write? || op.key in l.entries
  }

  /** The distinct other keys touched since `key` was last touched. */
  function Rivals<K, V>(maxsize: nat, ops: seq<Operation<K, V>>, key: K): set<K> {
    if ops == [] then {}
    else
      var init, op := ops[..|ops| - 1], ops[|ops| - 1];
      if !Touches(Run(maxsize, init), op) then Rivals(maxsize, init, key)
      else if op.key == key then {}
      else Rivals(maxsize, init, key) + {op.key}
  }

  // The keys used more recently than `key`.
  function Newer<K>(order: seq<K>, key: K): set<K> {
    if order == [] then {}
    else if order[0] == key then Elements(order[1..])
    else Newer(order[1..], key)
  }

  // ---------- facts on orders ----------

  lemma {:induction false} WithoutFacts<K>(order: seq<K>, key: K)
    requires NoRepeats(order)
    ensures NoRepeats(Without(order, key))
    ensures forall x :: x in Without(order, key) <==> x in order && x != key
    ensures |Without(order, key)| == |order| - (if key in order then 1 else 0)
  {
    if order != [] && order[0] != key {
      WithoutFacts(order[1..], key);
      var rest := Without(order[1..], key);
      assert ([order[0]] + rest)[1..] == rest;
      assert forall x :: x in [order[0]] + rest <==> x == order[0] || x in rest;
      assert forall x :: x in order <==> x == order[0] || x in order[1..];
    }
  }

  lemma {:induction false} NoRepeatsAppend<K>(s: seq<K>, last: K)
    requires NoRepeats(s) && last !in s
    ensures NoRepeats(s + [last])
  {
    if s != [] {
      NoRepeatsAppend(s[1..], last);
      assert (s + [last])[1..] == s[1..] + [last];
    }
  }

  lemma {:induction false} NewerWithout<K>(order: seq<K>, other: K, key: K)
    requires NoRepeats(order) && other != key && key in order
    ensures Newer(Without(order, other), key) == Newer(order, key) - {other}
  {
    if order[0] == other {
      NewerWithin(order[1..], key);
      assert other !in order[1..];
    } else {
      var rest := Without(order[1..], other);
      assert Without(order, other)[1..] == rest;
      if order[0] == key {
        WithoutFacts(order[1..], other);
        assert Elements(rest) == Elements(order[1..]) - {other};
      } else {
        NewerWithout(order[1..], other, key);
      }
    }
  }

  lemma {:induction false} NewerWithin<K>(order: seq<K>, key: K)
    ensures Newer(order, key) <= Elements(order)
  {
    if order != [] && order[0] != key { NewerWithin(order[1..], key); }
  }

  lemma {:induction false} NewerAppend<K>(order: seq<K>, last: K, key: K)
    ensures Newer(order + [last], key) == if key in order then Newer(order, key) + {last} else {}
  {
    if order == [] {
      assert order + [last] == [last];
    } else {
      assert (order + [last])[1..] == order[1..] + [last];
      NewerAppend(order[1..], last, key);
    }
  }

  lemma {:induction false} ElementsCount<K>(s: seq<K>)
    requires NoRepeats(s)
    ensures |Elements(s)| == |s|
  {
    if s != [] {
      ElementsCount(s[1..]);
      assert Elements(s) == Elements(s[1..]) + {s[0]};
    }
  }

  // A key has fewer newer keys than there are keys, one fewer exactly when it is the oldest.
  lemma NewerCount<K>(order: seq<K>, key: K)
    requires NoRepeats(order) && key in order
    ensures |Newer(order, key)| <= |order| - 1
    ensures |Newer(order, key)| == |order| - 1 <==> order[0] == key
    ensures order[0] != key ==> Newer(order[1..], key) == Newer(order, key)
  {
    ElementsCount(order[1..]);
    if order[0] != key {
      NewerCount(order[1..], key);
    }
  }

  // ---------- what every operation keeps ----------

  // The order once `key` is the newest, before anything is evicted.
  function Ordered<K, V>(l: Lru<K, V>, key: K): seq<K> {
    if key in l.entries then Refreshed(l.order, key) else l.order + [key]
  }

  lemma OrderedFacts<K, V>(l: Lru<K, V>, maxsize: nat, key: K)
    requires Valid(l, maxsize)
    ensures var order := Ordered(l, key);
      && NoRepeats(order) && order != [] && Elements(order) == l.entries.Keys + {key}
      && |order| == |l.order| + (if key in l.entries then 0 else 1)
      && order[|order| - 1] == key
  {
    assert key in l.order <==> key in Elements(l.order);
    var before := if key in l.entries then Without(l.order, key) else l.order;
    WithoutFacts(l.order, key);
    NoRepeatsAppend(before, key);
    assert Ordered(l, key) == before + [key];
    forall x
      ensures x in Elements(before + [key]) <==> x in l.entries.Keys + {key}
    {
      assert x in before + [key] <==> x in before || x == key;
      assert x in l.order <==> x in Elements(l.order);
    }
    assert Elements(before + [key]) == l.entries.Keys + {key};
  }

  lemma EvictionValid<K, V>(order: seq<K>, entries: map<K, V>, maxsize: nat)
    requires Valid(Lru(order, entries), maxsize + 1) && |order| == maxsize + 1
    ensures Valid(Lru(order[1..], entries - {order[0]}), maxsize)
  {
    assert order == [order[0]] + order[1..];
    assert forall x :: x in order[1..] <==> x in Elements(order) && x != order[0];
  }

  lemma AppliedValid<K, V>(l: Lru<K, V>, maxsize: nat, op: Operation<K, V>)
    requires Valid(l, maxsize)
    ensures Valid(Applied(l, maxsize, op), maxsize)
  {
    OrderedFacts(l, maxsize, op.key);
    if op.Write? && |Ordered(l, op.key)| > maxsize {
      EvictionValid(Ordered(l, op.key), l.entries[op.key := op.value], maxsize);
    }
  }

  // The keys newer than `key` after a touch, before anything is evicted.
  lemma NewerOrdered<K, V>(l: Lru<K, V>, maxsize: nat, touched: K, key: K)
    requires Valid(l, maxsize) && (touched == key || key in l.entries)
    ensures Newer(Ordered(l, touched), key) == if touched == key then {} else Newer(l.order, key) + {touched}
  {
    WithoutFacts(l.order, touched);
    assert key in l.order <==> key in Elements(l.order);
    assert touched in l.order <==> touched in Elements(l.order);
    NewerAppend(Without(l.order, touched), touched, key);
    NewerAppend(l.order, touched, key);
    if touched != key && touched in l.entries {
      NewerWithout(l.order, touched, key);
    }
  }

  // A touch makes its key the newest and adds it to the keys newer than any other that stays.
  lemma OrderAfterTouch<K, V>(l: Lru<K, V>, maxsize: nat, op: Operation<K, V>, key: K)
    requires Valid(l, maxsize) && Touches(l, op)
    requires op.key == key || key in l.entries
    ensures var l', newer := Applied(l, maxsize, op), if op.key == key then {} else Newer(l.order, key) + {op.key};
      && (key in l'.entries <==> |newer| < maxsize)
      && (key in l'.entries ==> Newer(l'.order, key) == newer)
  {
    hide Newer, Without, Elements, NoRepeats;
    var order := Ordered(l, op.key);
    OrderedFacts(l, maxsize, op.key);
    NewerOrdered(l, maxsize, op.key, key);
    assert key in order by { ElementsOf(order, key); }
    NewerCount(order, key);
  }

  lemma ElementsOf<K>(s: seq<K>, x: K)
    ensures x in s <==> x in Elements(s)
  {
  }

  // What is known of `key` after `ops`.
  ghost predicate Tracked<K, V>(maxsize: nat, ops: seq<Operation<K, V>>, key: K) {
    var l, rivals := Run(maxsize, ops), Rivals(maxsize, ops, key);
    && Valid(l, maxsize)
    && (key in l.entries <==> key in Unbounded(ops) && |rivals| < maxsize)
    && (key in l.entries ==> l.entries[key] == Unbounded(ops)[key] && Newer(l.order, key) == rivals)
  }

  /** Over every sequence of reads and writes the bounded dictionary holds at most `maxsize`
      entries; it holds a key exactly when the unbounded one does and fewer than `maxsize`
      distinct other keys were touched since, and then with the same value. */
  lemma {:induction false} AgreesWithUnbounded<K, V>(maxsize: nat, ops: seq<Operation<K, V>>, key: K)
    ensures Tracked(maxsize, ops, key)
  {
    if ops != [] {
      var init, op := ops[..|ops| - 1], ops[|ops| - 1];
      var l := Run(maxsize, init);
      AgreesWithUnbounded(maxsize, init, key);
      AppliedValid(l, maxsize, op);
      if Touches(l, op) {
        if op.key == key || key in l.entries {
          OrderAfterTouch(l, maxsize, op, key);
        } else if key in Unbounded(init) {
          assert Rivals(maxsize, init, key) <= Rivals(maxsize, ops, key);
          SubsetCount(Rivals(maxsize, init, key), Rivals(maxsize, ops, key));
        }
      }
    }
  }

  lemma SubsetCount<K>(a: set<K>, b: set<K>)
    requires a <= b
    ensures |a| <= |b|
  {
    assert b == a + (b - a);
  }

  function KeysOf<K, V>(ops: seq<Operation<K, V>>): set<K> {
    set i | 0 <= i < |ops| :: ops[i].key
  }

  function AppliedAll<K, V>(l: Lru<K, V>, maxsize: nat, ops: seq<Operation<K, V>>): Lru<K, V> {
    if ops == [] then l else Applied(AppliedAll(l, maxsize, ops[..|ops| - 1]), maxsize, ops[|ops| - 1])
  }

  lemma {:induction false} AppliedJoin<K, V>(l: Lru<K, V>, maxsize: nat, ops: seq<Operation<K, V>>,
      more: seq<Operation<K, V>>)
    ensures AppliedAll(l, maxsize, ops + more) == AppliedAll(AppliedAll(l, maxsize, ops), maxsize, more)
    ensures KeysOf(ops + more) == KeysOf(ops) + KeysOf(more)
  {
    if more == [] {
      assert ops + more == ops;
    } else {
      var init := more[..|more| - 1];
      AppliedJoin(l, maxsize, ops, init);
      assert (ops + more)[..|ops + more| - 1] == ops + init;
    }
    KeysJoin(ops, more);
  }

  lemma TwoApplied<K, V>(l: Lru<K, V>, maxsize: nat, first: Operation<K, V>, second: Operation<K, V>)
    ensures AppliedAll(l, maxsize, [first, second]) == Applied(Applied(l, maxsize, first), maxsize, second)
  {
    var ops := [first, second];
    assert ops[..1] == [first] && ops[..1][..0] == [];
    assert AppliedAll(l, maxsize, []) == l;
    assert AppliedAll(l, maxsize, [first]) == Applied(l, maxsize, first);
  }

  lemma KeysJoin<K, V>(ops: seq<Operation<K, V>>, more: seq<Operation<K, V>>)
    ensures KeysOf(ops + more) == KeysOf(ops) + KeysOf(more)
  {
    var all := ops + more;
    forall k | k in KeysOf(ops) + KeysOf(more)
      ensures k in KeysOf(all)
    {
      if k in KeysOf(ops) {
        var i :| 0 <= i < |ops| && ops[i].key == k;
        assert all[i].key == k;
      } else {
        var i :| 0 <= i < |more| && more[i].key == k;
        assert all[|ops| + i].key == k;
      }
    }
    forall k | k in KeysOf(all)
      ensures k in KeysOf(ops) + KeysOf(more)
    {
      var i :| 0 <= i < |all| && all[i].key == k;
      if i < |ops| { assert ops[i].key == k; } else { assert more[i - |ops|].key == k; }
    }
  }

  /** A key just used survives, with its value, whatever is done to fewer than `maxsize` others
      and however often it is read itself. */
  lemma {:induction false} SurvivesOthers<K, V>(l: Lru<K, V>, maxsize: nat, ops: seq<Operation<K, V>>, key: K)
    requires Valid(l, maxsize) && key in l.entries && Newer(l.order, key) == {}
    requires forall i :: 0 <= i < |ops| && ops[i].key == key ==> ops[i].Read?
    requires |KeysOf(ops) - {key}| < maxsize
    ensures var l' := AppliedAll(l, maxsize, ops);
      && Valid(l', maxsize) && key in l'.entries && l'.entries[key] == l.entries[key]
      && Newer(l'.order, key) <= KeysOf(ops) - {key}
  {
    hide Valid, Newer, KeysOf, AfterRead, AfterWrite;
    if ops == [] {
      assert Newer(l.order, key) <= KeysOf(ops) - {key};
    } else {
      var init, op := ops[..|ops| - 1], ops[|ops| - 1];
      assert ops == init + [op];
      KeysJoin(init, [op]);
      OneKey(op);
      SubsetCount(KeysOf(init) - {key}, KeysOf(ops) - {key});
      SurvivesOthers(l, maxsize, init, key);
      var before := AppliedAll(l, maxsize, init);
      AppliedValid(before, maxsize, op);
      if Touches(before, op) {
        if op.key != key { SubsetCount(Newer(before.order, key) + {op.key}, KeysOf(ops) - {key}); }
        OrderAfterTouch(before, maxsize, op, key);
      }
      ValueKept(before, maxsize, op, key);
    }
  }

  lemma OneKey<K, V>(op: Operation<K, V>)
    ensures KeysOf([op]) == {op.key}
  {
    assert [op][0] == op;
  }

  // What is not written to keeps its value while it is held; an absent key that is read changes nothing.
  lemma ValueKept<K, V>(l: Lru<K, V>, maxsize: nat, op: Operation<K, V>, key: K)
    requires key in l.entries && (op.key == key ==> op.Read?)
    ensures key in Applied(l, maxsize, op).entries ==> Applied(l, maxsize, op).entries[key] == l.entries[key]
    ensures !Touches(l, op) ==> Applied(l, maxsize, op) == l
  {
  }

  // ---------- the class ----------

  class LRUDict<K(==), V> {
    const maxsize: nat
    var order: seq<K>
    var entries: map<K, V>

    function Contents(): Lru<K, V>
      reads this
    {
      Lru(order, entries)
    }

    constructor (maxsize: nat)
      ensures this.maxsize == maxsize && Contents() == Lru([], map[])
    {
      this.maxsize := maxsize;
      order, entries := [], map[];
    }

    // `get(key, default)`
    method Get(key: K, default: V) returns (value: V)
      modifies this
      ensures value == if key in old(entries) then old(entries)[key] else default
      ensures Contents() == Applied(old(Contents()), maxsize, Read(key))
    {
      if key in entries {
        value := entries[key];
        order := Refreshed(order, key);
      } else {
        value := default;
      }
    }

    // `self[key] = value`
    method Set(key: K, value: V)
      modifies this
      ensures Contents() == Applied(old(Contents()), maxsize, Write(key, value))
    {
      if key in entries {
        order := Refreshed(order, key);
      } else {
        order := order + [key];
      }
      entries := entries[key := value];
      if |order| > maxsize {
        entries := entries - {order[0]};
        order := order[1..];
      }
    }
  }
}
