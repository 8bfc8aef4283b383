/** Insertion-ordered maps, as a JavaScript `Map` or a plain object keeps its entries:
    setting an existing key replaces its value in place, a new key goes at the end. */
module OrderedMaps {
  import opened Wrappers

  function Keys<K(==), V>(m: seq<(K, V)>): (ks: seq<K>)
    ensures |ks| == |m|
    ensures forall i :: 0 <= i < |m| ==> ks[i] == m[i].0
  {
    seq(|m|, i requires 0 <= i < |m| => m[i].0)
  }

  predicate DistinctKeys<K(==), V>(m: seq<(K, V)>) {
    forall i, j :: 0 <= i < j < |m| ==> m[i].0 != m[j].0
  }

  /** `m.get(k)`: the value stored under `k`. */
  function Get<K(==), V>(m: seq<(K, V)>, k: K): (r: Option<V>)
  {
    if m == [] then None
    else if m[0].0 == k then Some(m[0].1)
    else Get(m[1..], k)
  }

  /** A key is missing exactly when no entry carries it. */
  lemma {:induction false} GetNone<K, V>(m: seq<(K, V)>, k: K)
    ensures Get(m, k).None? <==> k !in Keys(m)
  {
    if m != [] {
      assert Keys(m) == [m[0].0] + Keys(m[1..]);
      GetNone(m[1..], k);
    }
  }

  /** `k` followed by the keys of `ks` not yet seen, as `m.set` grows the key order. */
  function AppendNew<K(==)>(ks: seq<K>, k: K): seq<K> {
    if k in ks then ks else ks + [k]
  }

  /** `m.set(k, v)`. */
  function Put<K(==), V>(m: seq<(K, V)>, k: K, v: V): (r: seq<(K, V)>)
    ensures |m| <= |r| <= |m| + 1
  {
    if m == [] then [(k, v)]
    else if m[0].0 == k then [(k, v)] + m[1..]
    else [m[0]] + Put(m[1..], k, v)
  }

  /** `m.set` keeps an existing key where it is and appends a new one. */
  lemma KeysPut<K, V>(m: seq<(K, V)>, k: K, v: V)
    ensures Keys(Put(m, k, v)) == AppendNew(Keys(m), k)
  {
    PutLength(m, k, v);
    if k in Keys(m) {
      forall i | 0 <= i < |m| ensures Put(m, k, v)[i].0 == m[i].0 {
        PutKeyAt(m, k, v, i);
      }
    } else {
      PutNew(m, k, v);
    }
  }

  /** `m.set` grows the map exactly when the key is new. */
  lemma {:induction false} PutLength<K, V>(m: seq<(K, V)>, k: K, v: V)
    ensures |Put(m, k, v)| == if k in Keys(m) then |m| else |m| + 1
  {
    if m != [] {
      assert Keys(m) == [m[0].0] + Keys(m[1..]);
      PutLength(m[1..], k, v);
    }
  }

  /** `m.set` leaves the key at every old position unchanged. */
  lemma {:induction false} PutKeyAt<K, V>(m: seq<(K, V)>, k: K, v: V, i: nat)
    requires i < |m|
    ensures i < |Put(m, k, v)| && Put(m, k, v)[i].0 == m[i].0
  {
    if i > 0 {
      PutKeyAt(m[1..], k, v, i - 1);
    }
  }

  /** After `m.set(k, v)`, `k` holds `v` and every other key keeps its value. */
  lemma {:induction false} GetPut<K, V>(m: seq<(K, V)>, k: K, v: V, k': K)
    ensures Get(Put(m, k, v), k') == if k' == k then Some(v) else Get(m, k')
  {
    if m != [] && m[0].0 != k {
      GetPut(m[1..], k, v, k');
    }
  }

  /** `m.set` keeps keys distinct. */
  lemma {:induction false} DistinctPut<K, V>(m: seq<(K, V)>, k: K, v: V)
    requires DistinctKeys(m)
    ensures DistinctKeys(Put(m, k, v))
  {
    var r := Put(m, k, v);
    KeysPut(m, k, v);
    forall i, j | 0 <= i < j < |r| ensures r[i].0 != r[j].0 {
      assert Keys(r)[i] == r[i].0 && Keys(r)[j] == r[j].0;
      assert Keys(m) == Keys(m);
      if k in Keys(m) {
        assert Keys(m)[i] == m[i].0 && Keys(m)[j] == m[j].0;
      } else if j < |m| {
        assert Keys(m)[i] == m[i].0 && Keys(m)[j] == m[j].0;
      } else {
        assert Keys(m)[i] == m[i].0;
      }
    }
  }

  /** The value the last entry of `e` with key `k` carries. */
  function LastValue<K(==), V>(e: seq<(K, V)>, k: K): (r: Option<V>)
    ensures r.None? <==> k !in Keys(e)
  {
    if e == [] then None
    else
      assert Keys(e) == [e[0].0] + Keys(e[1..]);
      var later := LastValue(e[1..], k);
      if later.Some? then later else if e[0].0 == k then Some(e[0].1) else None
  }

  /** Setting every entry of `e` in turn: `{...m, ...e}` for objects. */
  function PutAll<K(==), V>(m: seq<(K, V)>, e: seq<(K, V)>): seq<(K, V)>
    decreases |e|
  {
    if e == [] then m else PutAll(Put(m, e[0].0, e[0].1), e[1..])
  }

  /** After `PutAll`, a key holds the last value `e` gives it, or its old value when `e` does not mention it. */
  lemma {:induction false} GetPutAll<K, V>(m: seq<(K, V)>, e: seq<(K, V)>, k: K)
    ensures Get(PutAll(m, e), k) == if k in Keys(e) then LastValue(e, k) else Get(m, k)
    decreases |e|
  {
    if e != [] {
      assert Keys(e) == [e[0].0] + Keys(e[1..]);
      GetPutAll(Put(m, e[0].0, e[0].1), e[1..], k);
      GetPut(m, e[0].0, e[0].1, k);
    }
  }

  /** `PutAll` keeps keys distinct. */
  lemma {:induction false} DistinctPutAll<K, V>(m: seq<(K, V)>, e: seq<(K, V)>)
    requires DistinctKeys(m)
    ensures DistinctKeys(PutAll(m, e))
    decreases |e|
  {
    if e != [] {
      DistinctPut(m, e[0].0, e[0].1);
      DistinctPutAll(Put(m, e[0].0, e[0].1), e[1..]);
    }
  }

  /** The keys after `PutAll` are the old keys and then the keys new to `e`, in first-set order. */
  lemma {:induction false} KeysPutAll<K, V>(m: seq<(K, V)>, e: seq<(K, V)>, k: K)
    ensures k in Keys(PutAll(m, e)) <==> k in Keys(m) || k in Keys(e)
    decreases |e|
  {
    if e != [] {
      assert Keys(e) == [e[0].0] + Keys(e[1..]);
      KeysPut(m, e[0].0, e[0].1);
      KeysPutAll(Put(m, e[0].0, e[0].1), e[1..], k);
    }
  }

  lemma KeysConcat<K, V>(a: seq<(K, V)>, b: seq<(K, V)>)
    ensures Keys(a + b) == Keys(a) + Keys(b)
  {
  }

  /** Setting a key that is not there yet appends it. */
  lemma {:induction false} PutNew<K, V>(m: seq<(K, V)>, k: K, v: V)
    requires k !in Keys(m)
    ensures Put(m, k, v) == m + [(k, v)]
  {
    if m != [] {
      assert Keys(m) == [m[0].0] + Keys(m[1..]);
      PutNew(m[1..], k, v);
      assert m == [m[0]] + m[1..];
    }
  }

  /** Setting entries whose keys are all new and distinct appends them in order: spreading an
      object literal into `{}` gives back its fields. */
  lemma {:induction false} PutAllFresh<K, V>(m: seq<(K, V)>, e: seq<(K, V)>)
    requires DistinctKeys(m + e)
    ensures PutAll(m, e) == m + e
    decreases |e|
  {
    if e != [] {
      var me := m + e;
      assert e[0].0 !in Keys(m) by {
        forall i | 0 <= i < |m| ensures m[i].0 != e[0].0 {
          assert me[i] == m[i] && me[|m|] == e[0];
        }
      }
      PutNew(m, e[0].0, e[0].1);
      assert (m + [e[0]]) + e[1..] == me;
      PutAllFresh(m + [e[0]], e[1..]);
    }
  }

  /** `LastValue` is the value of the last entry carrying the key. */
  lemma {:induction false} LastValueAt<K, V>(e: seq<(K, V)>, k: K, i: nat)
    requires i < |e| && e[i].0 == k
    requires forall j :: i < j < |e| ==> e[j].0 != k
    ensures LastValue(e, k) == Some(e[i].1)
  {
    assert Keys(e) == [e[0].0] + Keys(e[1..]);
    if i == 0 {
      assert k !in Keys(e[1..]) by {
        forall j | 0 <= j < |e[1..]| ensures Keys(e[1..])[j] != k {
          assert e[1..][j] == e[j + 1];
        }
      }
    } else {
      LastValueAt(e[1..], k, i - 1);
    }
  }

  /** `Array.from(m.values())`. */
  function Values<K, V>(m: seq<(K, V)>): (vs: seq<V>)
    ensures |vs| == |m|
    ensures forall i :: 0 <= i < |m| ==> vs[i] == m[i].1
  {
    seq(|m|, i requires 0 <= i < |m| => m[i].1)
  }

  /** With distinct keys, looking up the key of an entry finds that entry. */
  lemma {:induction false} GetAt<K, V>(m: seq<(K, V)>, i: nat)
    requires DistinctKeys(m) && i < |m|
    ensures Get(m, m[i].0) == Some(m[i].1)
  {
    if i > 0 {
      assert m[0].0 != m[i].0;
      assert m[1..][i - 1] == m[i];
      GetAt(m[1..], i - 1);
    }
  }

  /** The keys of `ks` in first-occurrence order appended to `acc`, as a sequence of `m.set`
      calls grows the key order. */
  function AppendAll<K(==)>(acc: seq<K>, ks: seq<K>): (r: seq<K>)
    ensures forall i :: 0 <= i < |r| ==> r[i] in acc || r[i] in ks
    ensures forall i :: 0 <= i < |acc| ==> acc[i] in r
    ensures forall i :: 0 <= i < |ks| ==> ks[i] in r
  {
    if ks == [] then acc
    else
      var r := AppendNew(AppendAll(acc, ks[..|ks| - 1]), ks[|ks| - 1]);
      assert ks == ks[..|ks| - 1] + [ks[|ks| - 1]];
      r
  }

  lemma {:induction false} AppendAllConcat<K>(acc: seq<K>, a: seq<K>, b: seq<K>)
    ensures AppendAll(AppendAll(acc, a), b) == AppendAll(acc, a + b)
    decreases |b|
  {
    if b == [] {
      assert a + b == a;
    } else {
      assert (a + b)[..|a + b| - 1] == a + b[..|b| - 1];
      assert (a + b)[|a + b| - 1] == b[|b| - 1];
      AppendAllConcat(acc, a, b[..|b| - 1]);
    }
  }

  predicate Distinct<K(==)>(ks: seq<K>) {
    forall i, j :: 0 <= i < j < |ks| ==> ks[i] != ks[j]
  }

  /** Appending keys never repeats one, and keeps those already there where they were. */
  lemma {:induction false} AppendAllDistinct<K>(acc: seq<K>, ks: seq<K>)
    requires Distinct(acc)
    ensures Distinct(AppendAll(acc, ks))
    ensures |acc| <= |AppendAll(acc, ks)| && AppendAll(acc, ks)[..|acc|] == acc
    decreases |ks|
  {
    if ks != [] {
      var prev := AppendAll(acc, ks[..|ks| - 1]);
      AppendAllDistinct(acc, ks[..|ks| - 1]);
      var k := ks[|ks| - 1];
      if k !in prev {
        assert (prev + [k])[..|acc|] == prev[..|acc|];
        forall i, j | 0 <= i < j < |prev + [k]| ensures (prev + [k])[i] != (prev + [k])[j] {
          if j == |prev| { assert prev[i] in prev; }
        }
      }
    }
  }
}
