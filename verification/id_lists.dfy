/** The two list updates the local screens perform on records carrying a string id:
    `list.filter(x => x.id !== k)` and `list.map(x => x.id === k ? f(x) : x)`. */
module IdLists {
  type Id = string

  /** The records whose id differs from `k`, in their original order. */
  function Without<T(==)>(xs: seq<T>, key: T -> Id, k: Id): (r: seq<T>)
    ensures |r| <= |xs|
    ensures forall i :: 0 <= i < |r| ==> key(r[i]) != k
    ensures forall i :: 0 <= i < |r| ==> r[i] in xs
    ensures forall i :: 0 <= i < |xs| && key(xs[i]) != k ==> xs[i] in r
  {
    if xs == [] then []
    else
      var rest := Without(xs[1..], key, k);
      assert forall i :: 1 <= i < |xs| ==> xs[i] == xs[1..][i - 1];
      if key(xs[0]) == k then rest else [xs[0]] + rest
  }

  /** Filtering distributes over concatenation, so the survivors keep their relative order. */
  lemma {:induction false} WithoutConcat<T>(a: seq<T>, b: seq<T>, key: T -> Id, k: Id)
    ensures Without(a + b, key, k) == Without(a, key, k) + Without(b, key, k)
    decreases |a|
  {
    if a == [] {
      assert a + b == b;
    } else {
      assert (a + b)[0] == a[0];
      assert (a + b)[1..] == a[1..] + b;
      WithoutConcat(a[1..], b, key, k);
    }
  }

  predicate NoneWith<T>(xs: seq<T>, key: T -> Id, k: Id) {
    forall i :: 0 <= i < |xs| ==> key(xs[i]) != k
  }

  /** Removing an id nobody carries changes nothing. */
  lemma {:induction false} WithoutAbsent<T>(xs: seq<T>, key: T -> Id, k: Id)
    requires NoneWith(xs, key, k)
    ensures Without(xs, key, k) == xs
  {
    if xs != [] {
      WithoutAbsent(xs[1..], key, k);
      assert [xs[0]] + xs[1..] == xs;
    }
  }

  /** Adding a record under a fresh id and then removing that id gives the original list back. */
  lemma AppendThenWithout<T>(xs: seq<T>, x: T, key: T -> Id)
    requires NoneWith(xs, key, key(x))
    ensures Without(xs + [x], key, key(x)) == xs
  {
    WithoutConcat(xs, [x], key, key(x));
    WithoutAbsent(xs, key, key(x));
    assert [x][1..] == [];
  }

  /** Each record with id `k` replaced by `f` of itself; the others, the length and the order kept. */
  function Replace<T>(xs: seq<T>, key: T -> Id, k: Id, f: T -> T): (r: seq<T>)
    ensures |r| == |xs|
  {
    if xs == [] then []
    else [if key(xs[0]) == k then f(xs[0]) else xs[0]] + Replace(xs[1..], key, k, f)
  }

  /** What `Replace` leaves at one position: `f` of the record there if it carries `k`, else the
      record itself. */
  lemma {:induction false} ReplaceAt<T>(xs: seq<T>, key: T -> Id, k: Id, f: T -> T, i: nat)
    requires i < |xs|
    ensures Replace(xs, key, k, f)[i] == if key(xs[i]) == k then f(xs[i]) else xs[i]
    decreases i
  {
    if i > 0 {
      ReplaceAt(xs[1..], key, k, f, i - 1);
    }
  }

  /** Replacing records by themselves is the identity: an edit that changes nothing. */
  lemma {:induction false} ReplaceUnchanged<T>(xs: seq<T>, key: T -> Id, k: Id, f: T -> T)
    requires forall i :: 0 <= i < |xs| && key(xs[i]) == k ==> f(xs[i]) == xs[i]
    ensures Replace(xs, key, k, f) == xs
  {
    if xs != [] {
      assert forall i :: 0 <= i < |xs| - 1 ==> xs[1..][i] == xs[i + 1];
      ReplaceUnchanged(xs[1..], key, k, f);
      assert [xs[0]] + xs[1..] == xs;
    }
  }

  /** An update that keeps ids, followed by removing that id, is the removal alone. */
  lemma {:induction false} WithoutAfterReplace<T>(xs: seq<T>, key: T -> Id, k: Id, f: T -> T)
    requires forall x :: key(f(x)) == key(x)
    ensures Without(Replace(xs, key, k, f), key, k) == Without(xs, key, k)
  {
    if xs != [] {
      var r := Replace(xs, key, k, f);
      assert r[1..] == Replace(xs[1..], key, k, f);
      WithoutAfterReplace(xs[1..], key, k, f);
    }
  }

  /** The ids, position by position. */
  function Ids<T>(xs: seq<T>, key: T -> Id): (ids: seq<Id>)
    ensures |ids| == |xs|
    ensures forall i :: 0 <= i < |xs| ==> ids[i] == key(xs[i])
  {
    if xs == [] then [] else [key(xs[0])] + Ids(xs[1..], key)
  }

  predicate UniqueIds<T>(xs: seq<T>, key: T -> Id) {
    forall i, j :: 0 <= i < j < |xs| ==> key(xs[i]) != key(xs[j])
  }

  /** Under unique ids, two positions with the same id are the same position. */
  lemma UniqueIdsAt<T>(xs: seq<T>, key: T -> Id, i: nat, j: nat)
    requires UniqueIds(xs, key) && i < |xs| && j < |xs| && key(xs[i]) == key(xs[j])
    ensures i == j
  {
  }

  /** A replacement that keeps ids keeps the id column. */
  lemma ReplaceKeepsIds<T>(xs: seq<T>, key: T -> Id, k: Id, f: T -> T)
    requires forall i :: 0 <= i < |xs| && key(xs[i]) == k ==> key(f(xs[i])) == k
    ensures Ids(Replace(xs, key, k, f), key) == Ids(xs, key)
  {
    var r := Replace(xs, key, k, f);
    forall i | 0 <= i < |xs| ensures key(r[i]) == key(xs[i]) {
      ReplaceAt(xs, key, k, f, i);
    }
  }
}
