/** Merging build configuration: ordered maps, merged key by key and recursively
    where both sides hold associative arrays. */
module RailpackMerge {
  import opened Text

  datatype Key = IntKey(n: int) | StrKey(s: string)
  datatype Value = Scalar(text: string) | Arr(entries: seq<Entry>)
  datatype Entry = Entry(key: Key, value: Value)

  /** An array is a list when its keys are 0, 1, 2, ... in this order. */
  predicate IsAssoc(es: seq<Entry>) {
    es != [] && exists i :: 0 <= i < |es| && es[i].key != IntKey(i)
  }

  function Keys(es: seq<Entry>): (ks: seq<Key>)
    ensures |ks| == |es| && forall i :: 0 <= i < |es| ==> ks[i] == es[i].key
  {
    if es == [] then [] else [es[0].key] + Keys(es[1..])
  }

  function Find(es: seq<Entry>, k: Key): Option<Value> {
    if es == [] then None else if es[0].key == k then Some(es[0].value) else Find(es[1..], k)
  }

  /** Assignment to an array element: in place, or at the end for a new key. */
  function Put(es: seq<Entry>, k: Key, v: Value): seq<Entry> {
    if es == [] then [Entry(k, v)]
    else if es[0].key == k then [Entry(k, v)] + es[1..]
    else [es[0]] + Put(es[1..], k, v)
  }

  predicate Mergeable(was: Option<Value>, v: Value) {
    was.Some? && was.value.Arr? && v.Arr? && IsAssoc(was.value.entries) && IsAssoc(v.entries)
  }

  /** What a key holds after an override v meets the value it held before. */
  function Combine(was: Option<Value>, v: Value): Value
    decreases v, 0
  {
    if Mergeable(was, v) then Arr(Merge(was.value.entries, v.entries)) else v
  }

  function Merge(base: seq<Entry>, overrides: seq<Entry>): seq<Entry>
    decreases overrides, 1
  {
    if overrides == [] then base
    else
      var o := overrides[0];
      assert o.value < o;
      Merge(Put(base, o.key, Combine(Find(base, o.key), o.value)), overrides[1..])
  }

  method MergeRailpackConfig(base: seq<Entry>, overrides: seq<Entry>) returns (result: seq<Entry>)
    ensures result == Merge(base, overrides)
    decreases overrides
  {
    result := base;
    for i := 0 to |overrides|
      invariant Merge(result, overrides[i..]) == Merge(base, overrides)
    {
      var key, value := overrides[i].key, overrides[i].value;
      var was := Find(result, key);
      assert overrides[i..][0] == overrides[i] && overrides[i..][1..] == overrides[i + 1..];
      assert value < overrides[i];
      if Mergeable(was, value) {
        var merged := MergeRailpackConfig(was.value.entries, value.entries);
        result := Put(result, key, Arr(merged));
      } else {
        result := Put(result, key, value);
      }
    }
  }

  // ----- arrays never hold a key twice -----

  ghost predicate UniqueKeys(es: seq<Entry>) {
    forall i, j :: 0 <= i < j < |es| ==> es[i].key != es[j].key
  }

  ghost predicate WellFormed(es: seq<Entry>)
    decreases es
  {
    && UniqueKeys(es)
    && forall i :: 0 <= i < |es| ==>
         es[i].value.Arr? ==> assert es[i].value < es[i]; WellFormed(es[i].value.entries)
  }

  lemma {:induction false} FindKeys(es: seq<Entry>, k: Key)
    ensures Find(es, k).Some? <==> k in Keys(es)
  {
    if es != [] {
      FindKeys(es[1..], k);
    }
  }

  lemma {:induction false} FindAt(es: seq<Entry>, i: nat)
    requires UniqueKeys(es) && i < |es|
    ensures Find(es, es[i].key) == Some(es[i].value)
  {
    if i > 0 {
      FindAt(es[1..], i - 1);
    }
  }

  /** Well-formed arrays with the same keys in the same order and the same values are equal. */
  lemma SameEntries(xs: seq<Entry>, ys: seq<Entry>)
    requires UniqueKeys(xs) && Keys(xs) == Keys(ys)
    requires forall k :: Find(xs, k) == Find(ys, k)
    ensures xs == ys
  {
    assert |Keys(xs)| == |Keys(ys)|;
    forall i | 0 <= i < |xs| ensures xs[i] == ys[i] {
      assert xs[i].key == Keys(xs)[i] == Keys(ys)[i] == ys[i].key;
      assert forall j :: 0 <= j < |ys| ==> ys[j].key == Keys(ys)[j] == Keys(xs)[j] == xs[j].key;
      FindAt(xs, i);
      FindAt(ys, i);
    }
  }

  // ----- what a merge yields -----

  lemma {:induction false} PutFind(es: seq<Entry>, k: Key, v: Value, k': Key)
    ensures Find(Put(es, k, v), k') == if k' == k then Some(v) else Find(es, k')
  {
    if es != [] && es[0].key != k {
      PutFind(es[1..], k, v, k');
    }
  }

  lemma {:induction false} PutKeys(es: seq<Entry>, k: Key, v: Value)
    ensures Keys(Put(es, k, v)) == if k in Keys(es) then Keys(es) else Keys(es) + [k]
  {
    if es == [] {
      assert Put(es, k, v)[1..] == [];
    } else if es[0].key == k {
      assert Put(es, k, v)[1..] == es[1..];
    } else {
      PutKeys(es[1..], k, v);
      assert Put(es, k, v)[1..] == Put(es[1..], k, v);
    }
  }

  /** The value of every key after a merge. */
  lemma {:induction false} MergeLookup(base: seq<Entry>, overrides: seq<Entry>, k: Key)
    requires UniqueKeys(overrides)
    ensures Find(Merge(base, overrides), k)
            == match Find(overrides, k)
               case None => Find(base, k)
               case Some(v) => Some(Combine(Find(base, k), v))
    decreases |overrides|
  {
    if overrides != [] {
      var o := overrides[0];
      var next := Put(base, o.key, Combine(Find(base, o.key), o.value));
      MergeLookup(next, overrides[1..], k);
      PutFind(base, o.key, Combine(Find(base, o.key), o.value), k);
      if k == o.key {
        FindKeys(overrides[1..], k);
        assert forall i :: 0 <= i < |overrides[1..]| ==> Keys(overrides[1..])[i] == overrides[i + 1].key;
      }
    }
  }

  function NewKeys(known: seq<Key>, ks: seq<Key>): seq<Key>
    decreases ks
  {
    if ks == [] then []
    else if ks[0] in known then NewKeys(known, ks[1..])
    else [ks[0]] + NewKeys(known + [ks[0]], ks[1..])
  }

  /** The keys after a merge: the base's in their order, then the new ones in theirs. */
  lemma {:induction false} MergeKeys(base: seq<Entry>, overrides: seq<Entry>)
    ensures Keys(Merge(base, overrides)) == Keys(base) + NewKeys(Keys(base), Keys(overrides))
    decreases |overrides|
  {
    if overrides == [] {
      assert Keys(base) + [] == Keys(base);
    } else {
      var o := overrides[0];
      var v := Combine(Find(base, o.key), o.value);
      MergeKeys(Put(base, o.key, v), overrides[1..]);
      PutKeys(base, o.key, v);
      NewKeysStep(Keys(base), o.key, Keys(overrides[1..]));
    }
  }

  lemma NewKeysStep(known: seq<Key>, k: Key, ks: seq<Key>)
    ensures known + NewKeys(known, [k] + ks)
            == if k in known then known + NewKeys(known, ks) else (known + [k]) + NewKeys(known + [k], ks)
  {
    assert ([k] + ks)[1..] == ks;
    assert known + ([k] + NewKeys(known + [k], ks)) == (known + [k]) + NewKeys(known + [k], ks);
  }

  /** The key set of a merge is the union, and a key only the base has keeps its value. */
  lemma MergeIsUnion(base: seq<Entry>, overrides: seq<Entry>, k: Key)
    requires UniqueKeys(overrides)
    ensures k in Keys(Merge(base, overrides)) <==> k in Keys(base) || k in Keys(overrides)
    ensures k in Keys(base) && k !in Keys(overrides) ==> Find(Merge(base, overrides), k) == Find(base, k)
    ensures k in Keys(overrides) && k !in Keys(base) ==> Find(Merge(base, overrides), k) == Find(overrides, k)
  {
    MergeLookup(base, overrides, k);
    FindKeys(base, k);
    FindKeys(overrides, k);
    FindKeys(Merge(base, overrides), k);
  }

  lemma NoNewKeys(known: seq<Key>, ks: seq<Key>)
    requires forall i :: 0 <= i < |ks| ==> ks[i] in known
    ensures NewKeys(known, ks) == []
  {
  }

  /** Merging into an associative array never yields a list. */
  lemma AssocStaysAssoc(base: seq<Entry>, overrides: seq<Entry>)
    requires IsAssoc(base)
    ensures IsAssoc(Merge(base, overrides))
  {
    MergeKeys(base, overrides);
    var m := Merge(base, overrides);
    var i :| 0 <= i < |base| && base[i].key != IntKey(i);
    assert |Keys(m)| >= |Keys(base)|;
    assert m[i].key == Keys(m)[i] == Keys(base)[i] == base[i].key;
  }

  // ----- merging again changes nothing -----

  lemma EntryOf(es: seq<Entry>, k: Key) returns (i: nat)
    requires UniqueKeys(es) && Find(es, k).Some?
    ensures i < |es| && Find(es, k) == Some(es[i].value)
  {
    FindKeys(es, k);
    i :| 0 <= i < |es| && Keys(es)[i] == k;
    FindAt(es, i);
  }

  /** Overriding a configuration with itself. */
  lemma {:induction false} MergeSelf(es: seq<Entry>)
    requires WellFormed(es)
    ensures Merge(es, es) == es
    decreases es
  {
    forall k ensures Find(Merge(es, es), k) == Find(es, k) {
      MergeLookup(es, es, k);
      if Find(es, k).Some? {
        var i := EntryOf(es, k);
        if es[i].value.Arr? {
          assert es[i].value < es[i];
          MergeSelf(es[i].value.entries);
        }
      }
    }
    MergeKeys(es, es);
    NoNewKeys(Keys(es), Keys(es));
    SameEntries(es, Merge(es, es));
  }

  lemma {:induction false} CombineTwice(was: Option<Value>, v: Value)
    requires v.Arr? ==> WellFormed(v.entries)
    requires was.Some? && was.value.Arr? ==> WellFormed(was.value.entries)
    ensures Combine(Some(Combine(was, v)), v) == Combine(was, v)
    decreases v, 0
  {
    if Mergeable(was, v) {
      AssocStaysAssoc(was.value.entries, v.entries);
      MergeTwice(was.value.entries, v.entries);
    } else if v.Arr? {
      MergeSelf(v.entries);
    }
  }

  lemma MergeUnique(base: seq<Entry>, overrides: seq<Entry>)
    requires UniqueKeys(base)
    ensures UniqueKeys(Merge(base, overrides))
  {
    MergeKeys(base, overrides);
    NewKeysUnique(Keys(base), Keys(overrides));
    var m := Merge(base, overrides);
    assert forall i :: 0 <= i < |m| ==> m[i].key == Keys(m)[i];
  }

  ghost predicate Distinct(ks: seq<Key>) {
    forall i, j :: 0 <= i < j < |ks| ==> ks[i] != ks[j]
  }

  lemma {:induction false} NewKeysUnique(known: seq<Key>, ks: seq<Key>)
    requires Distinct(known)
    ensures Distinct(known + NewKeys(known, ks))
    decreases ks
  {
    if ks == [] {
      assert known + [] == known;
    } else if ks[0] in known {
      NewKeysUnique(known, ks[1..]);
    } else {
      NewKeysUnique(known + [ks[0]], ks[1..]);
      var more := NewKeys(known + [ks[0]], ks[1..]);
      assert known + [ks[0]] + more == known + ([ks[0]] + more);
    }
  }

  /** Applying the same overrides a second time changes nothing. */
  lemma {:induction false} MergeTwice(base: seq<Entry>, overrides: seq<Entry>)
    requires WellFormed(base) && WellFormed(overrides)
    ensures Merge(Merge(base, overrides), overrides) == Merge(base, overrides)
    decreases overrides, 1
  {
    var m := Merge(base, overrides);
    forall k ensures Find(Merge(m, overrides), k) == Find(m, k) {
      MergeLookup(base, overrides, k);
      MergeLookup(m, overrides, k);
      if Find(overrides, k).Some? {
        var i := EntryOf(overrides, k);
        assert overrides[i].value < overrides[i];
        if Find(base, k).Some? {
          var j := EntryOf(base, k);
        }
        CombineTwice(Find(base, k), overrides[i].value);
      }
    }
    MergeUnique(base, overrides);
    MergeKeys(m, overrides);
    forall i | 0 <= i < |Keys(overrides)| ensures Keys(overrides)[i] in Keys(m) {
      MergeIsUnion(base, overrides, Keys(overrides)[i]);
    }
    NoNewKeys(Keys(m), Keys(overrides));
    SameEntries(m, Merge(m, overrides));
  }

  // ----- along every path -----

  /** The value is an array whose keys are not just 0, 1, 2, ... in this order. */
  ghost predicate Associative(v: Option<Value>) {
    v.Some? && v.value.Arr? && exists i :: 0 <= i < |v.value.entries| && v.value.entries[i].key != IntKey(i)
  }

  /** What stands at the end of a path of keys. */
  function Look(es: seq<Entry>, path: seq<Key>): Option<Value>
    requires path != []
    decreases |path|
  {
    var v := Find(es, path[0]);
    if |path| == 1 then v
    else if v.Some? && v.value.Arr? then Look(v.value.entries, path[1..])
    else None
  }

  /** At every step before the last, both sides hold an associative array. */
  ghost predicate BothOpen(base: seq<Entry>, overrides: seq<Entry>, path: seq<Key>)
    requires path != []
    decreases |path|
  {
    |path| > 1 ==>
      var b, o := Find(base, path[0]), Find(overrides, path[0]);
      Associative(b) && Associative(o) && BothOpen(b.value.entries, o.value.entries, path[1..])
  }

  lemma {:induction false} FindWellFormed(es: seq<Entry>, k: Key)
    requires WellFormed(es) && Find(es, k).Some? && Find(es, k).value.Arr?
    ensures WellFormed(Find(es, k).value.entries)
  {
    FindKeys(es, k);
    var i := EntryOf(es, k);
    assert es[i].value < es[i];
  }

  /** One key: what only one side has is kept; two associative arrays are merged; in every
      other case the override stands, whole. */
  lemma MergeAt(base: seq<Entry>, overrides: seq<Entry>, k: Key)
    requires UniqueKeys(overrides)
    ensures var b, o, r := Find(base, k), Find(overrides, k), Find(Merge(base, overrides), k);
            && (o.None? ==> r == b)
            && (o.Some? && !(Associative(b) && Associative(o)) ==> r == o)
            && (Associative(b) && Associative(o) ==> r == Some(Arr(Merge(b.value.entries, o.value.entries))))
  {
    MergeLookup(base, overrides, k);
  }

  /** The merge is deep: along any path on which both sides hold associative arrays, the
      same holds at its end, and the keys there are the base's followed by the new ones. */
  lemma {:induction false} MergeAlongPath(base: seq<Entry>, overrides: seq<Entry>, path: seq<Key>)
    requires path != [] && WellFormed(overrides) && BothOpen(base, overrides, path)
    ensures var b, o, r := Look(base, path), Look(overrides, path), Look(Merge(base, overrides), path);
            && (o.None? ==> r == b)
            && (o.Some? && !(Associative(b) && Associative(o)) ==> r == o)
            && (Associative(b) && Associative(o) ==>
                  r.Some? && r.value.Arr? &&
                  Keys(r.value.entries) == Keys(b.value.entries) + NewKeys(Keys(b.value.entries), Keys(o.value.entries)))
    decreases |path|
  {
    MergeAt(base, overrides, path[0]);
    var b, o := Find(base, path[0]), Find(overrides, path[0]);
    if |path| > 1 {
      FindWellFormed(overrides, path[0]);
      MergeAlongPath(b.value.entries, o.value.entries, path[1..]);
    } else if Associative(b) && Associative(o) {
      MergeKeys(b.value.entries, o.value.entries);
    }
  }
}
