/** Sequences whose elements have distinct keys, and the maps and sets built from them. */
module Indexes {

  ghost predicate Distinct<T>(key: T -> string, xs: seq<T>, n: nat)
    requires n <= |xs|
  {
    forall i, j :: 0 <= i < j < n ==> key(xs[i]) != key(xs[j])
  }

  /** The map holds exactly the values of the first n elements, under their keys. */
  ghost predicate Indexed<T, V>(m: map<string, V>, key: T -> string, val: T -> V, xs: seq<T>, n: nat)
    requires n <= |xs|
  {
    && (forall i :: 0 <= i < n ==> key(xs[i]) in m && m[key(xs[i])] == val(xs[i]))
    && (forall k :: k in m ==> exists i :: 0 <= i < n && key(xs[i]) == k)
  }

  lemma IndexGrows<T, V>(m: map<string, V>, key: T -> string, val: T -> V, xs: seq<T>, n: nat)
    requires n < |xs| && Indexed(m, key, val, xs, n) && Distinct(key, xs, n)
    ensures key(xs[n]) in m <==> !Distinct(key, xs, n + 1)
    ensures key(xs[n]) !in m ==> Indexed(m[key(xs[n]) := val(xs[n])], key, val, xs, n + 1)
  {
    var m' := m[key(xs[n]) := val(xs[n])];
    forall k | k in m' ensures exists i :: 0 <= i < n + 1 && key(xs[i]) == k {
      if k != key(xs[n]) {
        assert k in m;
        var i :| 0 <= i < n && key(xs[i]) == k;
        assert 0 <= i < n + 1 && key(xs[i]) == k;
      }
    }
  }

  /** The set of the first n keys. */
  ghost predicate KeySet<T>(s: set<string>, key: T -> string, xs: seq<T>, n: nat)
    requires n <= |xs|
  {
    && (forall i :: 0 <= i < n ==> key(xs[i]) in s)
    && (forall k :: k in s ==> exists i :: 0 <= i < n && key(xs[i]) == k)
  }

  lemma KeySetGrows<T>(s: set<string>, key: T -> string, xs: seq<T>, n: nat)
    requires n < |xs| && KeySet(s, key, xs, n) && Distinct(key, xs, n)
    ensures key(xs[n]) in s <==> !Distinct(key, xs, n + 1)
    ensures KeySet(s + {key(xs[n])}, key, xs, n + 1)
  {
    forall k | k in s + {key(xs[n])} ensures exists i :: 0 <= i < n + 1 && key(xs[i]) == k {
      if k in s {
        var i :| 0 <= i < n && key(xs[i]) == k;
        assert 0 <= i < n + 1 && key(xs[i]) == k;
      }
    }
  }

  lemma DistinctPrefix<T>(key: T -> string, xs: seq<T>, n: nat)
    requires n <= |xs| && !Distinct(key, xs, n)
    ensures !Distinct(key, xs, |xs|)
  {
  }

  /** With distinct keys, looking a key up finds the element that has it. */
  lemma LookupFinds<T, V>(m: map<string, V>, key: T -> string, val: T -> V, xs: seq<T>, k: string, ok: V -> bool)
    requires Indexed(m, key, val, xs, |xs|)
    ensures (k in m && ok(m[k])) <==> exists i :: 0 <= i < |xs| && key(xs[i]) == k && ok(val(xs[i]))
  {
  }

  ghost predicate AllOk<T>(ok: T -> bool, xs: seq<T>, n: nat)
    requires n <= |xs|
  {
    forall i :: 0 <= i < n ==> ok(xs[i])
  }

  /** One pass that checks every element and refuses a repeated key. */
  method CheckDistinct<T>(key: T -> string, ok: T -> bool, xs: seq<T>) returns (fine: bool)
    ensures fine <==> AllOk(ok, xs, |xs|) && Distinct(key, xs, |xs|)
  {
    var seen := {};
    for n := 0 to |xs|
      invariant KeySet(seen, key, xs, n) && Distinct(key, xs, n) && AllOk(ok, xs, n)
    {
      KeySetGrows(seen, key, xs, n);
      if key(xs[n]) in seen {
        DistinctPrefix(key, xs, n + 1);
        return false;
      }
      if !ok(xs[n]) {
        return false;
      }
      seen := seen + {key(xs[n])};
    }
    return true;
  }

  /** The values of the elements under their keys; of two elements with one key the later counts. */
  function IndexOf<T, V>(key: T -> string, val: T -> V, xs: seq<T>): map<string, V> {
    if xs == [] then map[]
    else IndexOf(key, val, xs[..|xs| - 1])[key(xs[|xs| - 1]) := val(xs[|xs| - 1])]
  }

  /** Nothing is found but under the keys of the elements. */
  lemma {:induction false} IndexOfKeys<T, V>(key: T -> string, val: T -> V, xs: seq<T>, k: string)
    ensures k in IndexOf(key, val, xs) <==> exists i :: 0 <= i < |xs| && key(xs[i]) == k
  {
    if xs != [] {
      var last := |xs| - 1;
      IndexOfKeys(key, val, xs[..last], k);
      assert forall i :: 0 <= i < last ==> xs[..last][i] == xs[i];
      forall i | 0 <= i < |xs| && key(xs[i]) == k ensures k in IndexOf(key, val, xs) {
        assert i < last ==> key(xs[..last][i]) == k;
      }
      if k != key(xs[last]) && k in IndexOf(key, val, xs) {
        var i :| 0 <= i < last && key(xs[..last][i]) == k;
        assert key(xs[i]) == k;
      }
    }
  }

  /** The last element with a key is the one found under it. */
  lemma {:induction false} IndexOfLast<T, V>(key: T -> string, val: T -> V, xs: seq<T>, i: nat)
    requires i < |xs| && forall j :: i < j < |xs| ==> key(xs[j]) != key(xs[i])
    ensures key(xs[i]) in IndexOf(key, val, xs) && IndexOf(key, val, xs)[key(xs[i])] == val(xs[i])
  {
    var last := |xs| - 1;
    if i < last {
      var before := xs[..last];
      assert forall j :: i < j < last ==> key(before[j]) == key(xs[j]);
      IndexOfLast(key, val, before, i);
    }
  }

  lemma DistinctIndex<T, V>(key: T -> string, val: T -> V, xs: seq<T>)
    requires Distinct(key, xs, |xs|)
    ensures Indexed(IndexOf(key, val, xs), key, val, xs, |xs|)
  {
    forall i | 0 <= i < |xs|
      ensures key(xs[i]) in IndexOf(key, val, xs) && IndexOf(key, val, xs)[key(xs[i])] == val(xs[i])
    {
      IndexOfLast(key, val, xs, i);
    }
    forall k | k in IndexOf(key, val, xs) ensures exists i :: 0 <= i < |xs| && key(xs[i]) == k {
      IndexOfKeys(key, val, xs, k);
    }
  }

  /** One pass that indexes the values of the elements, unless one is refused. */
  method BuildIndex<T, V>(key: T -> string, val: T -> V, ok: T -> bool, xs: seq<T>)
    returns (m: map<string, V>, fine: bool)
    ensures fine <==> AllOk(ok, xs, |xs|)
    ensures fine ==> m == IndexOf(key, val, xs)
  {
    m := map[];
    for n := 0 to |xs|
      invariant m == IndexOf(key, val, xs[..n]) && AllOk(ok, xs, n)
    {
      if !ok(xs[n]) {
        return m, false;
      }
      assert xs[..n + 1][..n] == xs[..n];
      m := m[key(xs[n]) := val(xs[n])];
    }
    assert xs[..|xs|] == xs;
    return m, true;
  }
}
