/** Sequences without duplicates, first-occurrence de-duplication (the
    `dedupe` helper and the `Array.from(new Set(...))` idiom), and ordered
    maps with JavaScript `Map` insertion-order semantics. */
module Collections {
  import opened Wrappers

  /** The elements of a sequence, as a set. */
  function Elems<T>(s: seq<T>): set<T> {
    set x | x in s
  }

  /** No element occurs twice. */
  predicate NoDups<T(==)>(s: seq<T>) {
    forall i, j :: 0 <= i < j < |s| ==> s[i] != s[j]
  }

  /** Index of the first occurrence of `x` in `s`. */
  function FirstIndex<T(==)>(s: seq<T>, x: T): (i: nat)
    requires x in s
    ensures i < |s| && s[i] == x && x !in s[..i]
  {
    if s[0] == x then 0 else 1 + FirstIndex(s[1..], x)
  }

  /** Keeps the first occurrence of every element, in order: the result of
      adding each element to a JavaScript `Set` and reading it back. */
  function Dedupe<T(==)>(s: seq<T>): (r: seq<T>)
    ensures NoDups(r)
    ensures forall i :: 0 <= i < |r| ==> r[i] in s
    ensures forall i :: 0 <= i < |s| ==> s[i] in r
    ensures |r| <= |s|
    decreases |s|
  {
    if |s| == 0 then []
    else
      var d := Dedupe(s[..|s| - 1]);
      if s[|s| - 1] in d then d else d + [s[|s| - 1]]
  }

  lemma FirstIndexPrefix<T>(s: seq<T>, n: nat, x: T)
    requires n <= |s| && x in s[..n]
    ensures x in s && FirstIndex(s, x) == FirstIndex(s[..n], x)
  {
    var i := FirstIndex(s[..n], x);
    assert s[i] == x;
    assert s[..n][..i] == s[..i];
    FirstIndexUnique(s, x, i);
  }

  lemma FirstIndexUnique<T>(s: seq<T>, x: T, i: nat)
    requires i < |s| && s[i] == x && x !in s[..i]
    ensures FirstIndex(s, x) == i
  {
  }

  /** The de-duplicated sequence lists elements in the order of their first
      occurrence in the input. */
  ghost predicate InFirstOccurrenceOrder<T>(s: seq<T>, r: seq<T>) {
    forall i, j :: 0 <= i < j < |r| && r[i] in s && r[j] in s ==>
      FirstIndex(s, r[i]) < FirstIndex(s, r[j])
  }

  lemma {:induction false} DedupeFirstOccurrenceOrder<T>(s: seq<T>)
    ensures InFirstOccurrenceOrder(s, Dedupe(s))
  {
    if |s| > 0 {
      var p := s[..|s| - 1];
      var y := s[|s| - 1];
      var d := Dedupe(p);
      var r := Dedupe(s);
      assert r == if y in d then d else d + [y];
      DedupeFirstOccurrenceOrder(p);
      forall i, j | 0 <= i < j < |r| && r[i] in s && r[j] in s
        ensures FirstIndex(s, r[i]) < FirstIndex(s, r[j])
      {
        DedupeOrderStep(s, i, j);
      }
    }
  }

  lemma DedupeOrderStep<T>(s: seq<T>, i: nat, j: nat)
    requires |s| > 0
    requires 0 <= i < j < |Dedupe(s)|
    requires InFirstOccurrenceOrder(s[..|s| - 1], Dedupe(s[..|s| - 1]))
    ensures FirstIndex(s, Dedupe(s)[i]) < FirstIndex(s, Dedupe(s)[j])
  {
    var n := |s| - 1;
    var p := s[..n];
    var y := s[n];
    var d := Dedupe(p);
    var r := Dedupe(s);
    assert r == if y in d then d else d + [y];
    var x := d[i];
    assert r[i] == x && x in p;
    FirstIndexPrefix(s, n, x);
    if j < |d| {
      var z := d[j];
      assert r[j] == z && z in p;
      FirstIndexPrefix(s, n, z);
      assert FirstIndex(p, x) < FirstIndex(p, z);
    } else {
      assert r[j] == y && y !in p;
      FirstIndexUnique(s, y, n);
      assert FirstIndex(s, x) < n;
    }
  }

  /** A sequence that already has no duplicates is returned unchanged. */
  lemma {:induction false} DedupeNoDups<T>(s: seq<T>)
    requires NoDups(s)
    ensures Dedupe(s) == s
  {
    if |s| > 0 {
      var p := s[..|s| - 1];
      assert NoDups(p);
      DedupeNoDups(p);
      assert s[|s| - 1] !in p;
      assert p + [s[|s| - 1]] == s;
    }
  }

  /** Appending one element to the input changes the output only by that
      element, and only when it is new: the step of a `Set.add` loop. */
  lemma DedupeSnoc<T>(s: seq<T>, x: T)
    ensures Dedupe(s + [x]) == if x in s then Dedupe(s) else Dedupe(s) + [x]
  {
    assert (s + [x])[..|s + [x]| - 1] == s;
  }

  /** The ordered (insertion-order) map of JavaScript's `Map`: `keys`
      lists each key once, in the order it was first set. */
  datatype OrderedMap<K, V> = OrderedMap(keys: seq<K>, values: map<K, V>) {

    ghost predicate Valid() {
      NoDups(keys) && (forall i :: 0 <= i < |keys| ==> keys[i] in values) && (forall k :: k in values ==> k in keys)
    }

    /** `Map.prototype.set`: an existing key keeps its position and takes the
        new value; a new key goes last. */
    function Set(k: K, v: V): (m: OrderedMap<K, V>)
      requires Valid()
      ensures m.Valid()
      ensures m.values == values[k := v]
      ensures m.keys == if k in values then keys else keys + [k]
    {
      OrderedMap(if k in values then keys else keys + [k], values[k := v])
    }

    function Get(k: K): Option<V> {
      if k in values then Some(values[k]) else None
    }
  }

  function EmptyMap<K, V>(): (m: OrderedMap<K, V>)
    ensures m.Valid() && m.keys == [] && m.values == map[]
  {
    OrderedMap([], map[])
  }

  /** `Map.set` of every present entry in turn, absent entries skipped:
      the map a `for` loop with `continue` for skipped items builds. */
  function SetAll<K, V>(m: OrderedMap<K, V>, entries: seq<Option<(K, V)>>): (r: OrderedMap<K, V>)
    requires m.Valid()
    ensures r.Valid()
    decreases |entries|
  {
    if |entries| == 0 then m
    else
      var prev := SetAll(m, entries[..|entries| - 1]);
      var e := entries[|entries| - 1];
      if e.Some? then prev.Set(e.value.0, e.value.1) else prev
  }

  /** The keys of the present entries, in order, repeats included. */
  function PresentKeys<K, V>(entries: seq<Option<(K, V)>>): (r: seq<K>)
    ensures |r| <= |entries|
    decreases |entries|
  {
    if |entries| == 0 then []
    else
      var prev := PresentKeys(entries[..|entries| - 1]);
      var e := entries[|entries| - 1];
      if e.Some? then prev + [e.value.0] else prev
  }

  /** One more entry sets one more key when it is present. */
  lemma SetAllPrefix<K, V>(m: OrderedMap<K, V>, entries: seq<Option<(K, V)>>, i: nat)
    requires m.Valid() && i < |entries|
    ensures SetAll(m, entries[..i + 1]) ==
      if entries[i].Some? then SetAll(m, entries[..i]).Set(entries[i].value.0, entries[i].value.1)
      else SetAll(m, entries[..i])
  {
    assert entries[..i + 1][..i] == entries[..i];
  }

  /** The keys end up in the order they were first set: those already in
      the map first, then each new key where it first occurs. */
  lemma {:induction false} SetAllKeys<K, V>(m: OrderedMap<K, V>, entries: seq<Option<(K, V)>>)
    requires m.Valid()
    ensures SetAll(m, entries).keys == Dedupe(m.keys + PresentKeys(entries))
    decreases |entries|
  {
    if |entries| == 0 {
      assert m.keys + [] == m.keys;
      DedupeNoDups(m.keys);
    } else {
      var init := entries[..|entries| - 1];
      var e := entries[|entries| - 1];
      SetAllKeys(m, init);
      if e.Some? {
        var s := m.keys + PresentKeys(init);
        assert m.keys + PresentKeys(entries) == s + [e.value.0];
        DedupeSnoc(s, e.value.0);
        var prev := SetAll(m, init);
        assert e.value.0 in prev.values <==> e.value.0 in s by {
          assert e.value.0 in prev.values <==> e.value.0 in prev.keys;
        }
      }
    }
  }

  /** A present entry whose key no later entry sets is the key's value. */
  lemma {:induction false} SetAllLastWins<K, V>(m: OrderedMap<K, V>, entries: seq<Option<(K, V)>>, i: nat)
    requires m.Valid() && i < |entries| && entries[i].Some?
    requires forall j :: i < j < |entries| && entries[j].Some? ==> entries[j].value.0 != entries[i].value.0
    ensures entries[i].value.0 in SetAll(m, entries).values
    ensures SetAll(m, entries).values[entries[i].value.0] == entries[i].value.1
    decreases |entries|
  {
    var init := entries[..|entries| - 1];
    if i < |entries| - 1 {
      assert init[i] == entries[i];
      SetAllLastWins(m, init, i);
    }
  }

  /** A key no entry sets keeps the value it had in `m`, or stays absent. */
  lemma {:induction false} SetAllUntouched<K, V>(m: OrderedMap<K, V>, entries: seq<Option<(K, V)>>, k: K)
    requires m.Valid()
    requires forall j :: 0 <= j < |entries| && entries[j].Some? ==> entries[j].value.0 != k
    ensures SetAll(m, entries).Get(k) == m.Get(k)
    decreases |entries|
  {
    if |entries| > 0 {
      var init := entries[..|entries| - 1];
      assert forall j :: 0 <= j < |init| ==> init[j] == entries[j];
      SetAllUntouched(m, init, k);
    }
  }

  /** A key is in the map afterwards exactly when it was before or some
      present entry sets it. */
  lemma {:induction false} SetAllHas<K, V>(m: OrderedMap<K, V>, entries: seq<Option<(K, V)>>, k: K)
    requires m.Valid()
    ensures k in SetAll(m, entries).values <==>
      k in m.values || exists i :: 0 <= i < |entries| && entries[i].Some? && entries[i].value.0 == k
    decreases |entries|
  {
    if |entries| > 0 {
      var init := entries[..|entries| - 1];
      assert forall i :: 0 <= i < |init| ==> init[i] == entries[i];
      SetAllHas(m, init, k);
    }
  }

  /** When every entry is present, the present keys are all the keys. */
  lemma {:induction false} PresentKeysAll<K, V>(entries: seq<Option<(K, V)>>, ks: seq<K>)
    requires |entries| == |ks|
    requires forall i :: 0 <= i < |ks| ==> entries[i].Some? && entries[i].value.0 == ks[i]
    ensures PresentKeys(entries) == ks
    decreases |ks|
  {
    if |ks| > 0 {
      var n := |ks| - 1;
      assert forall i :: 0 <= i < n ==> entries[..n][i] == entries[i];
      PresentKeysAll(entries[..n], ks[..n]);
      assert ks[..n] + [ks[n]] == ks;
    }
  }
}
