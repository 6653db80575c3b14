/**
 * `_copy_node`: a deep copy made of plain dicts and lists, optionally
 * dropping the `_info` key at every level.
 */
module Copier {
  import opened Wrappers
  import opened OrderedDicts
  import opened Values

  /** The value `_copy_node(v, excludeInfo)` builds (for a scalar: the scalar). */
  function Copy(v: Value, excludeInfo: bool): (r: Value)
    ensures v.Dict? <==> r.Dict?
    ensures v.List? ==> r.List? && |r.items| == |v.items|
    ensures v.Scalar? ==> r == v
    decreases v, 1, 0
  {
    match v
    case Dict(_, ms) => Dict(false, CopyMembers(v, |ms|, excludeInfo))
    case List(items) => List(seq(|items|, i requires 0 <= i < |items| => Copy(items[i], excludeInfo)))
    case Scalar(_) => v
  }

  /** The dict the dict branch of `_copy_node` has built after the first `n` keys. */
  function CopyMembers(v: Value, n: nat, excludeInfo: bool): Pairs<Value>
    requires v.Dict? && n <= |v.members|
    decreases v, 0, n
  {
    if n == 0 then []
    else
      var prev := CopyMembers(v, n - 1, excludeInfo);
      var name, value := v.members[n - 1].0, v.members[n - 1].1;
      if excludeInfo && name == InfoKey then prev
      else Set(prev, name, Copy(value, excludeInfo))
  }

  /** What every copy is: well formed, made of plain dicts, and free of
      `_info` keys at every level when they are excluded. */
  predicate Copied(r: Value, excludeInfo: bool)
  {
    WellFormed(r) && AllPlain(r) && (excludeInfo ==> NoInfo(r))
  }

  /** Whatever the source, its copy is `Copied`. */
  lemma {:induction false} CopyInvariants(v: Value, excludeInfo: bool)
    ensures Copied(Copy(v, excludeInfo), excludeInfo)
    decreases v, 1, 0
  {
    match v
    case Dict(_, ms) =>
      CopyMembersInvariants(v, |ms|, excludeInfo);
    case List(items) =>
      forall i | 0 <= i < |items| ensures Copied(Copy(items[i], excludeInfo), excludeInfo) {
        CopyInvariants(items[i], excludeInfo);
      }
    case Scalar(_) =>
  }

  /** What every dict a copy builds is: unique keys, no `_info` key when it is
      excluded, and `Copied` values. */
  predicate CopiedPairs(r: Pairs<Value>, excludeInfo: bool)
  {
    UniqueKeys(r) && (excludeInfo ==> InfoKey !in Keys(r)) &&
    forall p :: p in r ==> Copied(p.1, excludeInfo)
  }

  lemma {:induction false} CopyMembersInvariants(v: Value, n: nat, excludeInfo: bool)
    requires v.Dict? && n <= |v.members|
    ensures CopiedPairs(CopyMembers(v, n, excludeInfo), excludeInfo)
    decreases v, 0, n
  {
    if n > 0 {
      var m := n - 1;
      assert CopiedPairs(CopyMembers(v, m, excludeInfo), excludeInfo) by {
        CopyMembersInvariants(v, m, excludeInfo);
      }
      assert Copied(Copy(v.members[m].1, excludeInfo), excludeInfo) by {
        CopyInvariants(v.members[m].1, excludeInfo);
      }
      CopyInvariantsStep(v, m, excludeInfo);
    }
  }

  lemma CopyInvariantsStep(v: Value, m: nat, excludeInfo: bool)
    requires v.Dict? && m < |v.members|
    requires CopiedPairs(CopyMembers(v, m, excludeInfo), excludeInfo)
    requires Copied(Copy(v.members[m].1, excludeInfo), excludeInfo)
    ensures CopiedPairs(CopyMembers(v, m + 1, excludeInfo), excludeInfo)
  {
    var name := v.members[m].0;
    if !(excludeInfo && name == InfoKey) {
      SetKeepsCopied(CopyMembers(v, m, excludeInfo), name, Copy(v.members[m].1, excludeInfo), excludeInfo);
    }
  }

  /** Setting a `Copied` value under a key other than an excluded `_info`
      keeps a dict `CopiedPairs`. */
  lemma SetKeepsCopied(prev: Pairs<Value>, name: string, x: Value, excludeInfo: bool)
    requires CopiedPairs(prev, excludeInfo) && Copied(x, excludeInfo)
    requires !(excludeInfo && name == InfoKey)
    ensures CopiedPairs(Set(prev, name, x), excludeInfo)
  {
    var r := Set(prev, name, x);
    SetUnique(prev, name, x);
    assert forall p :: p in r ==> p in prev || p == (name, x) by {
      SetElements(prev, name, x);
    }
  }

  /** A copy holds the keys of its source, in order, less `_info` when it is excluded. */
  lemma {:induction false} CopyMembersKeys(v: Value, n: nat, excludeInfo: bool)
    requires v.Dict? && n <= |v.members| && UniqueKeys(v.members)
    ensures KeysCopied(v, n, excludeInfo)
    decreases n
  {
    if n > 0 {
      var m := n - 1;
      assert KeysCopied(v, m, excludeInfo) by {
        CopyMembersKeys(v, m, excludeInfo);
      }
      assert v.members[m].0 !in Keys(v.members[..m]) by {
        FreshAt(v.members, m);
      }
      CopyKeysStep(v, m, excludeInfo);
    }
  }

  /** The copy of the first `n` pairs has the keys of those pairs, less an
      excluded `_info`. */
  predicate KeysCopied(v: Value, n: nat, excludeInfo: bool)
    requires v.Dict? && n <= |v.members|
  {
    var ks := Keys(v.members[..n]);
    Keys(CopyMembers(v, n, excludeInfo)) == if excludeInfo then DropInfo(ks) else ks
  }

  lemma CopyKeysStep(v: Value, m: nat, excludeInfo: bool)
    requires v.Dict? && m < |v.members| && v.members[m].0 !in Keys(v.members[..m])
    requires KeysCopied(v, m, excludeInfo)
    ensures KeysCopied(v, m + 1, excludeInfo)
  {
    var prev := CopyMembers(v, m, excludeInfo);
    var name := v.members[m].0;
    KeysPrefix(v.members, m);
    if !(excludeInfo && name == InfoKey) {
      assert name !in Keys(prev);
    }
  }

  /** The copy made of an optional value. */
  function CopyOption(o: Option<Value>, excludeInfo: bool): Option<Value>
  {
    match o
    case Some(x) => Some(Copy(x, excludeInfo))
    case None => None
  }

  /** Each key the copy keeps holds a copy of the source's value. */
  lemma {:induction false} CopyMembersGet(v: Value, n: nat, excludeInfo: bool, k: string)
    requires v.Dict? && n <= |v.members| && UniqueKeys(v.members)
    ensures GetCopied(v, n, excludeInfo, k)
    decreases n
  {
    if n > 0 {
      var m := n - 1;
      assert GetCopied(v, m, excludeInfo, k) by {
        CopyMembersGet(v, m, excludeInfo, k);
      }
      assert v.members[m].0 !in Keys(v.members[..m]) by {
        FreshAt(v.members, m);
      }
      CopyGetStep(v, m, excludeInfo, k);
    }
  }

  /** In the copy of the first `n` pairs, `k` holds the copy of what it holds
      among those pairs, and an excluded `_info` holds nothing. */
  predicate GetCopied(v: Value, n: nat, excludeInfo: bool, k: string)
    requires v.Dict? && n <= |v.members|
  {
    Get(CopyMembers(v, n, excludeInfo), k) ==
      if excludeInfo && k == InfoKey then None
      else CopyOption(Get(v.members[..n], k), excludeInfo)
  }

  lemma CopyGetStep(v: Value, m: nat, excludeInfo: bool, k: string)
    requires v.Dict? && m < |v.members| && v.members[m].0 !in Keys(v.members[..m])
    requires GetCopied(v, m, excludeInfo, k)
    ensures GetCopied(v, m + 1, excludeInfo, k)
  {
    var prev := CopyMembers(v, m, excludeInfo);
    var name, value := v.members[m].0, v.members[m].1;
    var src := v.members[..m];
    assert Get(v.members[..m + 1], k) == if k == name then Some(value) else Get(src, k) by {
      assert v.members[..m + 1] == src + [(name, value)];
      GetLast(src, name, value, k);
    }
    if !(excludeInfo && name == InfoKey) {
      SetGet(prev, name, Copy(value, excludeInfo), k);
    }
  }

  /** With `excludeInfo` false the copy equals its source up to the `XDict`
      tag: same keys in the same order, same list lengths, same scalars. */
  lemma {:induction false} CopyIsStructurallyEqual(v: Value)
    requires WellFormed(v)
    ensures Copy(v, false) == Plain(v)
    decreases v, 1
  {
    match v
    case Dict(_, ms) =>
      CopyMembersPointwise(v, |ms|);
      forall i | 0 <= i < |ms| ensures Copy(ms[i].1, false) == Plain(ms[i].1) {
        CopyIsStructurallyEqual(ms[i].1);
      }
    case List(items) =>
      forall i | 0 <= i < |items| ensures Copy(items[i], false) == Plain(items[i]) {
        CopyIsStructurallyEqual(items[i]);
      }
    case Scalar(_) =>
  }

  /** With unique keys and nothing dropped, each copied key is appended:
      the copy pairs every key, in order, with the copy of its value. */
  lemma {:induction false} CopyMembersPointwise(v: Value, n: nat)
    requires v.Dict? && n <= |v.members| && UniqueKeys(v.members)
    ensures CopiedAt(v, n)
    decreases n
  {
    if n > 0 {
      var m := n - 1;
      assert CopiedAt(v, m) by {
        CopyMembersPointwise(v, m);
      }
      assert v.members[m].0 !in Keys(v.members[..m]) by {
        FreshAt(v.members, m);
      }
      CopyPointwiseStep(v, m);
    }
  }

  /** The first `n` pairs `CopyMembers` builds without exclusion are the first
      `n` keys of `v`, in order, each with the copy of its value. */
  predicate CopiedAt(v: Value, n: nat)
    requires v.Dict? && n <= |v.members|
  {
    var r := CopyMembers(v, n, false);
    |r| == n && forall i :: 0 <= i < n ==> r[i] == (v.members[i].0, Copy(v.members[i].1, false))
  }

  lemma CopyPointwiseStep(v: Value, m: nat)
    requires v.Dict? && m < |v.members| && v.members[m].0 !in Keys(v.members[..m])
    requires CopiedAt(v, m)
    ensures CopiedAt(v, m + 1)
  {
    var prev := CopyMembers(v, m, false);
    var k, x := v.members[m].0, Copy(v.members[m].1, false);
    assert Keys(prev) == Keys(v.members[..m]);
    SetFresh(prev, k, x);
  }

  /** Copying a value that is already a plain copy gives it back. */
  lemma {:induction false} CopyFixpoint(v: Value, excludeInfo: bool)
    requires WellFormed(v) && AllPlain(v) && (excludeInfo ==> NoInfo(v))
    ensures Copy(v, excludeInfo) == v
    decreases v, 1
  {
    match v
    case Dict(_, ms) =>
      CopyMembersFixpoint(v, |ms|, excludeInfo);
      assert ms[..|ms|] == ms;
    case List(items) =>
      forall i | 0 <= i < |items| ensures Copy(items[i], excludeInfo) == items[i] {
        CopyFixpoint(items[i], excludeInfo);
      }
    case Scalar(_) =>
  }

  lemma {:induction false} CopyMembersFixpoint(v: Value, n: nat, excludeInfo: bool)
    requires v.Dict? && n <= |v.members|
    requires WellFormed(v) && AllPlain(v) && (excludeInfo ==> NoInfo(v))
    ensures CopyMembers(v, n, excludeInfo) == v.members[..n]
    decreases v, 0, n
  {
    if n > 0 {
      var m := n - 1;
      assert CopyMembers(v, m, excludeInfo) == v.members[..m] by {
        CopyMembersFixpoint(v, m, excludeInfo);
      }
      var x := v.members[m].1;
      assert Copy(x, excludeInfo) == x by {
        assert WellFormed(x) && AllPlain(x) && (excludeInfo ==> NoInfo(x));
        CopyFixpoint(x, excludeInfo);
      }
      assert v.members[m].0 !in Keys(v.members[..m]) by {
        FreshAt(v.members, m);
      }
      assert excludeInfo ==> v.members[m].0 != InfoKey by {
        assert Keys(v.members)[m] == v.members[m].0;
      }
      CopyFixpointStep(v, m, excludeInfo);
    }
  }

  lemma CopyFixpointStep(v: Value, m: nat, excludeInfo: bool)
    requires v.Dict? && m < |v.members| && v.members[m].0 !in Keys(v.members[..m])
    requires excludeInfo ==> v.members[m].0 != InfoKey
    requires CopyMembers(v, m, excludeInfo) == v.members[..m]
    requires Copy(v.members[m].1, excludeInfo) == v.members[m].1
    ensures CopyMembers(v, m + 1, excludeInfo) == v.members[..m + 1]
  {
    var prev := CopyMembers(v, m, excludeInfo);
    var k, x := v.members[m].0, v.members[m].1;
    SetFresh(prev, k, x);
    PrefixSnoc(v.members, m);
  }

  /** Copying twice gives what copying once gives. */
  lemma CopyIdempotent(v: Value, excludeInfo: bool)
    ensures Copy(Copy(v, excludeInfo), excludeInfo) == Copy(v, excludeInfo)
  {
    CopyInvariants(v, excludeInfo);
    CopyFixpoint(Copy(v, excludeInfo), excludeInfo);
  }

  /** With unique keys every copied key is new, so the copy only grows at the end. */
  lemma CopyMembersAppend(v: Value, m: nat, excludeInfo: bool)
    requires v.Dict? && m < |v.members| && UniqueKeys(v.members)
    ensures var name, value := v.members[m].0, v.members[m].1;
      CopyMembers(v, m + 1, excludeInfo) == CopyMembers(v, m, excludeInfo) +
        (if excludeInfo && name == InfoKey then [] else [(name, Copy(value, excludeInfo))])
  {
    var name, value := v.members[m].0, v.members[m].1;
    if !(excludeInfo && name == InfoKey) {
      var prev := CopyMembers(v, m, excludeInfo);
      assert name !in Keys(prev) by {
        FreshAt(v.members, m);
        CopyMembersKeys(v, m, excludeInfo);
      }
      SetFresh(prev, name, Copy(value, excludeInfo));
    }
  }

  /** `_copy_node(node, exclude_info)` on a dict or a list. */
  method CopyNode(node: Value, excludeInfo: bool) returns (r: Value)
    requires node.Dict? || node.List?
    ensures r == Copy(node, excludeInfo)
    decreases node
  {
    if node.Dict? {
      var result: Pairs<Value> := [];
      for i := 0 to |node.members|
        invariant result == CopyMembers(node, i, excludeInfo)
      {
        var name, value := node.members[i].0, node.members[i].1;
        if excludeInfo && name == InfoKey {
          continue;
        }
        if value.Dict? || value.List? {
          value := CopyNode(value, excludeInfo);
        }
        result := Set(result, name, value);
      }
      r := Dict(false, result);
    } else {
      var result: seq<Value> := [];
      for i := 0 to |node.items|
        invariant result == seq(i, j requires 0 <= j < i => Copy(node.items[j], excludeInfo))
      {
        var value := node.items[i];
        if value.Dict? || value.List? {
          value := CopyNode(value, excludeInfo);
        }
        result := result + [value];
      }
      r := List(result);
    }
  }
}
