/**
 * Python dicts as insertion-ordered sequences of key/value pairs.
 * `Set` is `d[k] = v` and `Update` is `d.update(other)`.
 */
module OrderedDicts {
  import opened Wrappers

  type Pairs<V> = seq<(string, V)>

  function Keys<V>(m: Pairs<V>): (ks: seq<string>)
    ensures |ks| == |m|
    ensures forall i :: 0 <= i < |m| ==> ks[i] == m[i].0
  {
    seq(|m|, i requires 0 <= i < |m| => m[i].0)
  }

  predicate Distinct(ks: seq<string>) {
    forall i, j :: 0 <= i < j < |ks| ==> ks[i] != ks[j]
  }

  /** The invariant of every Python dict: no key occurs twice. */
  predicate UniqueKeys<V>(m: Pairs<V>) {
    Distinct(Keys(m))
  }

  /** The position of the first pair whose key is `k`, or -1. */
  function IndexOf<V>(m: Pairs<V>, k: string): (i: int)
    ensures -1 <= i < |m|
    ensures i == -1 <==> k !in Keys(m)
    ensures 0 <= i ==> m[i].0 == k && forall j :: 0 <= j < i ==> m[j].0 != k
  {
    if m == [] then -1
    else if m[0].0 == k then 0
    else
      var j := IndexOf(m[1..], k);
      assert Keys(m) == [m[0].0] + Keys(m[1..]);
      if j == -1 then -1 else j + 1
  }

  /** Two dicts with the same key sequence find a key at the same position. */
  lemma SameKeysIndexOf<V, W>(m: Pairs<V>, m2: Pairs<W>, k: string)
    requires Keys(m) == Keys(m2)
    ensures IndexOf(m, k) == IndexOf(m2, k)
  {
  }

  /** `d.get(k)`: the value stored under `k`, if any. */
  function Get<V>(m: Pairs<V>, k: string): (r: Option<V>)
    ensures r.Some? <==> k in Keys(m)
    ensures r.Some? ==> (k, r.value) in m
  {
    var i := IndexOf(m, k);
    if i < 0 then None else Some(m[i].1)
  }

  /** `d[k] = v`: an existing key keeps its position, a new key goes last. */
  function Set<V>(m: Pairs<V>, k: string, v: V): (r: Pairs<V>)
    ensures Keys(r) == if k in Keys(m) then Keys(m) else Keys(m) + [k]
  {
    var i := IndexOf(m, k);
    if i < 0 then m + [(k, v)] else m[i := (k, v)]
  }

  /** After `d[k] = v`, `k` holds `v` and every other key keeps its value. */
  lemma SetGet<V>(m: Pairs<V>, k: string, v: V, j: string)
    ensures Get(Set(m, k, v), j) == if j == k then Some(v) else Get(m, j)
  {
    var i := IndexOf(m, k);
    SetAt(m, k, v, i, Set(m, k, v));
  }

  /** Assignment keeps the keys of a dict unique. */
  lemma SetUnique<V>(m: Pairs<V>, k: string, v: V)
    requires UniqueKeys(m)
    ensures UniqueKeys(Set(m, k, v))
  {
  }

  /** Every pair after `d[k] = v` was there before or is the new one. */
  lemma SetElements<V>(m: Pairs<V>, k: string, v: V)
    ensures forall p :: p in Set(m, k, v) ==> p in m || p == (k, v)
  {
  }

  /** Assigning a key that is not there yet appends it. */
  lemma SetFresh<V>(m: Pairs<V>, k: string, v: V)
    requires k !in Keys(m)
    ensures Set(m, k, v) == m + [(k, v)]
  {
  }

  /** The value found by `Get` is the one at the first occurrence of `k`. */
  lemma GetAt<V>(m: Pairs<V>, k: string, i: int)
    requires 0 <= i < |m| && m[i].0 == k
    requires forall j :: 0 <= j < i ==> m[j].0 != k
    ensures Get(m, k) == Some(m[i].1)
  {
  }

  lemma SetAt<V>(m: Pairs<V>, k: string, v: V, i: int, r: Pairs<V>)
    requires i == IndexOf(m, k)
    requires r == if i < 0 then m + [(k, v)] else m[i := (k, v)]
    ensures Get(r, k) == Some(v)
    ensures forall j :: j != k ==> Get(r, j) == Get(m, j)
  {
    if i < 0 {
      assert forall q :: 0 <= q < |m| ==> r[q] == m[q];
      GetAt(r, k, |m|);
    } else {
      GetAt(r, k, i);
    }
    forall j | j != k
      ensures Get(r, j) == Get(m, j)
    {
      SetOther(m, k, v, i, r, j);
    }
  }

  lemma SetOther<V>(m: Pairs<V>, k: string, v: V, i: int, r: Pairs<V>, j: string)
    requires i == IndexOf(m, k) && j != k
    requires r == if i < 0 then m + [(k, v)] else m[i := (k, v)]
    ensures Get(r, j) == Get(m, j)
  {
    var t := IndexOf(m, j);
    assert Keys(r) == if i < 0 then Keys(m) + [k] else Keys(m)[i := k];
    if 0 <= t {
      assert r[t] == m[t];
      GetAt(r, j, t);
    } else {
      assert j !in Keys(r);
    }
  }

  /** Assigning the same key twice leaves only the second assignment. */
  lemma SetSet<V>(m: Pairs<V>, k: string, a: V, b: V)
    ensures Set(Set(m, k, a), k, b) == Set(m, k, b)
  {
    var i := IndexOf(m, k);
    if i < 0 {
      var m1 := m + [(k, a)];
      assert IndexOf(m1, k) == |m| by {
        assert Keys(m1)[|m|] == k;
        GetAt(m1, k, |m|);
      }
    } else {
      var m1 := m[i := (k, a)];
      assert IndexOf(m1, k) == i by {
        GetAt(m1, k, i);
      }
    }
  }

  /** The keys of a prefix are the prefix of the keys. */
  lemma KeysPrefix<V>(m: Pairs<V>, n: nat)
    requires n < |m|
    ensures Keys(m[..n + 1]) == Keys(m[..n]) + [m[n].0]
    ensures Keys(m[..n + 1])[..n] == Keys(m[..n])
  {
  }

  /** In a dict with unique keys, a key does not occur before its own position. */
  lemma FreshAt<V>(m: Pairs<V>, n: nat)
    requires n < |m| && UniqueKeys(m)
    ensures m[n].0 !in Keys(m[..n])
  {
    assert Keys(m)[n] == m[n].0;
    forall i | 0 <= i < n ensures Keys(m[..n])[i] != m[n].0 {
      assert Keys(m)[i] == Keys(m[..n])[i];
    }
  }

  /** Looking up a key in a sequence with one more pair at the end. */
  lemma GetLast<V>(m: Pairs<V>, name: string, value: V, k: string)
    ensures Get(m + [(name, value)], k) ==
      if k in Keys(m) then Get(m, k) else if k == name then Some(value) else None
  {
    var m' := m + [(name, value)];
    if k in Keys(m) {
      GetAt(m', k, IndexOf(m, k));
    } else if k == name {
      GetAt(m', k, |m|);
    }
  }

  /** `d.update(other)`: every pair of `other` is assigned in order. */
  function Update<V>(m: Pairs<V>, other: Pairs<V>): Pairs<V>
  {
    if other == [] then m
    else
      var last := other[|other| - 1];
      Set(Update(m, other[..|other| - 1]), last.0, last.1)
  }

  /** `d.update(other)` keeps the keys of `d` in place and adds those of `other`. */
  lemma {:induction false} UpdateKeys<V>(m: Pairs<V>, other: Pairs<V>)
    ensures Keys(m) <= Keys(Update(m, other))
    ensures forall k :: k in Keys(Update(m, other)) <==> k in Keys(m) || k in Keys(other)
  {
    if other != [] {
      var init, last := other[..|other| - 1], other[|other| - 1];
      UpdateKeys(m, init);
      assert Keys(other) == Keys(init) + [last.0];
    }
  }

  /** `d.update(other)` keeps the keys of `d` unique. */
  lemma {:induction false} UpdateUnique<V>(m: Pairs<V>, other: Pairs<V>)
    requires UniqueKeys(m)
    ensures UniqueKeys(Update(m, other))
  {
    if other != [] {
      var init, last := other[..|other| - 1], other[|other| - 1];
      UpdateUnique(m, init);
      SetUnique(Update(m, init), last.0, last.1);
    }
  }

  /** After `d.update(other)` a key of `other` holds the value `other` gives it
      and every other key keeps its old value. */
  lemma {:induction false} UpdateGet<V>(m: Pairs<V>, other: Pairs<V>, k: string)
    requires UniqueKeys(other)
    ensures Get(Update(m, other), k) == if k in Keys(other) then Get(other, k) else Get(m, k)
  {
    if other != [] {
      var init, last := other[..|other| - 1], other[|other| - 1];
      assert UniqueKeys(init) by {
        KeysInit(other);
      }
      assert Get(Update(m, init), k) == if k in Keys(init) then Get(init, k) else Get(m, k) by {
        UpdateGet(m, init, k);
      }
      UpdateGetStep(m, other, k);
    }
  }

  /** The keys of all but the last pair are all but the last key, and the
      last key does not occur among them when the keys are unique. */
  lemma KeysInit<V>(m: Pairs<V>)
    requires m != []
    ensures Keys(m) == Keys(m[..|m| - 1]) + [m[|m| - 1].0]
    ensures UniqueKeys(m) ==> UniqueKeys(m[..|m| - 1]) && m[|m| - 1].0 !in Keys(m[..|m| - 1])
  {
    var n := |m| - 1;
    assert Keys(m) == Keys(m[..n]) + [m[n].0];
    if UniqueKeys(m) {
      FreshAt(m, n);
    }
  }

  lemma UpdateGetStep<V>(m: Pairs<V>, other: Pairs<V>, k: string)
    requires other != [] && UniqueKeys(other)
    requires var init := other[..|other| - 1];
      Get(Update(m, init), k) == if k in Keys(init) then Get(init, k) else Get(m, k)
    ensures Get(Update(m, other), k) == if k in Keys(other) then Get(other, k) else Get(m, k)
  {
    var init, last := other[..|other| - 1], other[|other| - 1];
    assert other == init + [(last.0, last.1)] by {
      InitLast(other);
    }
    KeysInit(other);
    SetGet(Update(m, init), last.0, last.1, k);
    GetLast(init, last.0, last.1, k);
  }

  /** A prefix one longer is the shorter prefix and one more element. */
  lemma PrefixSnoc<T>(s: seq<T>, n: nat)
    requires n < |s|
    ensures s[..n + 1] == s[..n] + [s[n]]
  {
  }

  /** A non-empty sequence is all but its last element, then that element. */
  lemma InitLast<T>(s: seq<T>)
    requires s != []
    ensures s == s[..|s| - 1] + [s[|s| - 1]]
  {
  }
}
