/**
 * `create_structure` and its two helpers: rebuild a value so that every
 * dict becomes an `XDict`, keeping keys, order, list lengths and scalars.
 */
module Normaliser {
  import opened OrderedDicts
  import opened Values

  /** The structure `create_structure(v)` returns. */
  function Normalize(v: Value): (r: Value)
    ensures v.Dict? <==> r.Dict?
    ensures v.List? ==> r.List? && |r.items| == |v.items|
    ensures v.Scalar? ==> r == v
    decreases v, 1, 0
  {
    match v
    case Dict(_, ms) => Dict(true, NormalizeMembers(v, |ms|))
    case List(items) => List(seq(|items|, i requires 0 <= i < |items| => Normalize(items[i])))
    case Scalar(_) => v
  }

  /** The `XDict` `_create_structure_by_dict` has built after the first `n` keys. */
  function NormalizeMembers(v: Value, n: nat): Pairs<Value>
    requires v.Dict? && n <= |v.members|
    decreases v, 0, n
  {
    if n == 0 then []
    else Set(NormalizeMembers(v, n - 1), v.members[n - 1].0, Normalize(v.members[n - 1].1))
  }

  /** Whatever the input, the result is a well-formed value made of `XDict`s. */
  lemma {:induction false} NormalizeInvariants(v: Value)
    ensures WellFormed(Normalize(v)) && AllXDict(Normalize(v))
    decreases v, 1, 0
  {
    match v
    case Dict(_, ms) =>
      NormalizeMembersInvariants(v, |ms|);
    case List(items) =>
      forall i | 0 <= i < |items|
        ensures WellFormed(Normalize(items[i])) && AllXDict(Normalize(items[i]))
      {
        NormalizeInvariants(items[i]);
      }
    case Scalar(_) =>
  }

  lemma {:induction false} NormalizeMembersInvariants(v: Value, n: nat)
    requires v.Dict? && n <= |v.members|
    ensures NormalPairs(NormalizeMembers(v, n))
    decreases v, 0, n
  {
    if n > 0 {
      var m := n - 1;
      assert NormalPairs(NormalizeMembers(v, m)) by {
        NormalizeMembersInvariants(v, m);
      }
      var x := Normalize(v.members[m].1);
      assert WellFormed(x) && AllXDict(x) by {
        NormalizeInvariants(v.members[m].1);
      }
      SetKeepsNormal(NormalizeMembers(v, m), v.members[m].0, x);
    }
  }

  /** What every dict `create_structure` builds holds: unique keys, and
      values that are well formed and made of `XDict`s. */
  predicate NormalPairs(r: Pairs<Value>)
  {
    UniqueKeys(r) && forall p :: p in r ==> WellFormed(p.1) && AllXDict(p.1)
  }

  lemma SetKeepsNormal(prev: Pairs<Value>, k: string, x: Value)
    requires NormalPairs(prev) && WellFormed(x) && AllXDict(x)
    ensures NormalPairs(Set(prev, k, x))
  {
    SetUnique(prev, k, x);
    SetElements(prev, k, x);
  }

  /** With unique keys each assignment appends, so the new dict pairs every
      key, in order, with its normalised value. */
  lemma {:induction false} NormalizeMembersPointwise(v: Value, n: nat)
    requires v.Dict? && n <= |v.members| && UniqueKeys(v.members)
    ensures NormalizedAt(v, n)
    decreases n
  {
    if n > 0 {
      var m := n - 1;
      assert NormalizedAt(v, m) by {
        NormalizeMembersPointwise(v, m);
      }
      assert v.members[m].0 !in Keys(v.members[..m]) by {
        FreshAt(v.members, m);
      }
      NormalizePointwiseStep(v, m);
    }
  }

  /** The first `n` pairs `NormalizeMembers` builds are the first `n` keys of
      `v`, in order, each with its value normalised. */
  predicate NormalizedAt(v: Value, n: nat)
    requires v.Dict? && n <= |v.members|
  {
    var r := NormalizeMembers(v, n);
    |r| == n && forall i :: 0 <= i < n ==> r[i] == (v.members[i].0, Normalize(v.members[i].1))
  }

  lemma NormalizePointwiseStep(v: Value, m: nat)
    requires v.Dict? && m < |v.members| && v.members[m].0 !in Keys(v.members[..m])
    requires NormalizedAt(v, m)
    ensures NormalizedAt(v, m + 1)
  {
    var prev := NormalizeMembers(v, m);
    var k, x := v.members[m].0, Normalize(v.members[m].1);
    assert Keys(prev) == Keys(v.members[..m]);
    SetFresh(prev, k, x);
  }

  /** Normalising keeps the shape: the same keys in the same order, the same
      list lengths and the same scalars. */
  lemma {:induction false} NormalizeKeepsShape(v: Value)
    requires WellFormed(v)
    ensures Plain(Normalize(v)) == Plain(v)
    decreases v
  {
    match v
    case Dict(_, ms) =>
      NormalizeMembersPointwise(v, |ms|);
      forall i | 0 <= i < |ms| ensures Plain(Normalize(ms[i].1)) == Plain(ms[i].1) {
        NormalizeKeepsShape(ms[i].1);
      }
    case List(items) =>
      forall i | 0 <= i < |items| ensures Plain(Normalize(items[i])) == Plain(items[i]) {
        NormalizeKeepsShape(items[i]);
      }
    case Scalar(_) =>
  }

  /** A structure that is already normal is left as it is. */
  lemma {:induction false} NormalizeFixpoint(v: Value)
    requires WellFormed(v) && AllXDict(v)
    ensures Normalize(v) == v
    decreases v
  {
    match v
    case Dict(_, ms) =>
      NormalizeMembersPointwise(v, |ms|);
      forall i | 0 <= i < |ms| ensures Normalize(ms[i].1) == ms[i].1 {
        NormalizeFixpoint(ms[i].1);
      }
    case List(items) =>
      forall i | 0 <= i < |items| ensures Normalize(items[i]) == items[i] {
        NormalizeFixpoint(items[i]);
      }
    case Scalar(_) =>
  }

  /** Applying `create_structure` twice gives what applying it once gives. */
  lemma NormalizeIdempotent(v: Value)
    ensures Normalize(Normalize(v)) == Normalize(v)
  {
    NormalizeInvariants(v);
    NormalizeFixpoint(Normalize(v));
  }

  /** `create_structure(data)`: dispatch on the kind of `data`. */
  method CreateStructure(data: Value) returns (r: Value)
    ensures r == Normalize(data)
    decreases data, 1
  {
    match data
    case Dict(_, _) => r := CreateStructureByDict(data);
    case List(_) => r := CreateStructureByList(data);
    case Scalar(_) => r := data;
  }

  /** `_create_structure_by_list`: append the normalised elements in order. */
  method CreateStructureByList(data: Value) returns (r: Value)
    requires data.List?
    ensures r == Normalize(data)
    decreases data, 0
  {
    var result: seq<Value> := [];
    for i := 0 to |data.items|
      invariant result == seq(i, j requires 0 <= j < i => Normalize(data.items[j]))
    {
      var value := CreateStructure(data.items[i]);
      result := result + [value];
    }
    r := List(result);
  }

  /** `_create_structure_by_dict`: assign every key of a fresh `XDict`. */
  method CreateStructureByDict(data: Value) returns (r: Value)
    requires data.Dict?
    ensures r == Normalize(data)
    decreases data, 0
  {
    var result: Pairs<Value> := [];
    for i := 0 to |data.members|
      invariant result == NormalizeMembers(data, i)
    {
      var name, value := data.members[i].0, data.members[i].1;
      var normal := CreateStructure(value);
      result := Set(result, name, normal);
    }
    r := Dict(true, result);
  }
}
