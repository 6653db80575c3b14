/**
 * `_get_value`, `get_value`'s path splitting, and the facts about where a
 * path leads: through `XDict`s by key, through lists by integer index.
 */
module Navigator {
  import opened Wrappers
  import opened OrderedDicts
  import opened Text
  import opened Values
  import opened Normaliser

  /**
   * `_get_value(path, node)`. `Ok(Some(w))` is a value found, `Ok(None)` is
   * the `None` of a miss, and `Raised(ValueError)` is `int()` refusing a
   * segment used on a list; no other error can occur.
   */
  function GetValueAt(path: seq<string>, node: Value): (r: Result<Option<Value>>)
    ensures path == [] ==> r == Ok(Some(node))
    ensures r.Raised? ==> r.error == ValueError
    decreases |path|
  {
    if path == [] then Ok(Some(node))
    else
      var name := path[0];
      match node
      case Dict(isXDict, ms) =>
        if isXDict && name in Keys(ms) then GetValueAt(path[1..], Get(ms, name).value) else Ok(None)
      case List(items) =>
        (match ParseInt(name)
         case None => Raised(ValueError)
         case Some(i) => if 0 <= i < |items| then GetValueAt(path[1..], items[i]) else Ok(None))
      case Scalar(_) => Ok(None)
  }

  /** `_get_value(path.split('.'), node)`, what `get_value` does with the structure. */
  function GetDotted(path: string, node: Value): (r: Result<Option<Value>>)
    ensures r.Raised? ==> r.error == ValueError
    ensures '.' !in path ==> r == GetValueAt([path], node)
  {
    if '.' !in path then SplitField(path, '.'); GetValueAt(Split(path, '.'), node)
    else GetValueAt(Split(path, '.'), node)
  }

  /** Walking `p + q` is walking `p` and then, from what was found, `q`;
      a miss or an error along `p` is the result of the whole walk. */
  lemma {:induction false} PathConcat(p: seq<string>, q: seq<string>, node: Value)
    ensures GetValueAt(p + q, node) ==
      match GetValueAt(p, node)
      case Ok(Some(w)) => GetValueAt(q, w)
      case other => other
    decreases |p|
  {
    if p == [] {
      assert p + q == q;
    } else {
      assert (p + q)[0] == p[0];
      assert (p + q)[1..] == p[1..] + q;
      match node
      case Dict(isXDict, ms) =>
        if isXDict && p[0] in Keys(ms) {
          PathConcat(p[1..], q, Get(ms, p[0]).value);
        }
      case List(items) =>
        if ParseInt(p[0]).Some? && 0 <= ParseInt(p[0]).value < |items| {
          PathConcat(p[1..], q, items[ParseInt(p[0]).value]);
        }
      case Scalar(_) =>
    }
  }

  /** A segment naming a key of an `XDict` descends into that key's value. */
  lemma KeyHit(ms: Pairs<Value>, k: string, w: Value, rest: seq<string>)
    requires UniqueKeys(ms) && (k, w) in ms
    ensures GetValueAt([k] + rest, Dict(true, ms)) == GetValueAt(rest, w)
  {
    var j :| 0 <= j < |ms| && ms[j] == (k, w);
    var i := IndexOf(ms, k);
    assert Keys(ms)[i] == Keys(ms)[j];
    assert ([k] + rest)[1..] == rest;
  }

  /** A key an `XDict` lacks is a miss, whatever follows. */
  lemma KeyMiss(ms: Pairs<Value>, k: string, rest: seq<string>)
    requires k !in Keys(ms)
    ensures GetValueAt([k] + rest, Dict(true, ms)) == Ok(None)
  {
  }

  /** A scalar has nothing to descend into: segments left over give `None`. */
  lemma ScalarMiss(a: Atom, path: seq<string>)
    requires path != []
    ensures GetValueAt(path, Scalar(a)) == Ok(None)
  {
  }

  /** A plain dict is never descended, whatever the path: after `clear`,
      `from_dict` of a plain dict or `copy_from`, every lookup misses. */
  lemma PlainDictMisses(ms: Pairs<Value>, path: string)
    ensures GetDotted(path, Dict(false, ms)) == Ok(None)
  {
    var segments := Split(path, '.');
    assert segments != [];
  }

  /** `str(i)` used on a list finds element `i` when `0 <= i < len`, and is a
      miss otherwise, for negative indices too (no Python wrap-around). */
  lemma IndexLookup(items: seq<Value>, i: int, rest: seq<string>)
    ensures GetValueAt([IntToString(i)] + rest, List(items)) ==
      if 0 <= i < |items| then GetValueAt(rest, items[i]) else Ok(None)
  {
    ParseIntToString(i);
    assert ([IntToString(i)] + rest)[1..] == rest;
  }

  /** A segment `int()` refuses, used on a list, raises `ValueError`. */
  lemma NotAnIndex(items: seq<Value>, name: string, rest: seq<string>)
    requires ParseInt(name).None?
    ensures GetValueAt([name] + rest, List(items)) == Raised(ValueError)
  {
  }

  /** `get_value` on a path made by joining dot-free segments walks exactly
      those segments. */
  lemma DottedJoin(segments: seq<string>, node: Value)
    requires |segments| >= 1
    requires forall i :: 0 <= i < |segments| ==> '.' !in segments[i]
    ensures GetDotted(Join(segments, '.'), node) == GetValueAt(segments, node)
  {
    SplitJoin(segments, '.');
  }

  /** `"".split('.')` is `[""]`: the empty path is one empty segment, not the
      root. On an `XDict` without an empty key it misses; on a list it
      raises. */
  lemma EmptyPathIsNotRoot(node: Value)
    ensures GetDotted("", node) == GetValueAt([""], node)
    ensures node.Dict? && "" !in Keys(node.members) ==> GetDotted("", node) == Ok(None)
    ensures node.List? ==> GetDotted("", node) == Raised(ValueError)
  {
  }

  /** Navigation as if every dict were an `XDict`: the reference for a
      structure that has been through `create_structure`. */
  function Resolve(path: seq<string>, node: Value): (r: Result<Option<Value>>)
    ensures path == [] ==> r == Ok(Some(node))
    decreases |path|
  {
    if path == [] then Ok(Some(node))
    else
      match node
      case Dict(_, ms) =>
        (match Get(ms, path[0])
         case Some(w) => Resolve(path[1..], w)
         case None => Ok(None))
      case List(items) =>
        (match ParseInt(path[0])
         case None => Raised(ValueError)
         case Some(i) => if 0 <= i < |items| then Resolve(path[1..], items[i]) else Ok(None))
      case Scalar(_) => Ok(None)
  }

  /** The outcome of a lookup, with a found value normalised. */
  function NormalizeFound(r: Result<Option<Value>>): Result<Option<Value>>
  {
    match r
    case Ok(Some(w)) => Ok(Some(Normalize(w)))
    case other => other
  }

  /** On a structure made of `XDict`s, `_get_value` is the tag-blind walk. */
  lemma {:induction false} AllXDictResolves(path: seq<string>, node: Value)
    requires AllXDict(node)
    ensures GetValueAt(path, node) == Resolve(path, node)
    decreases |path|
  {
    if path != [] {
      match node
      case Dict(_, ms) =>
        var w := Get(ms, path[0]);
        if w.Some? {
          assert (path[0], w.value) in ms;
          AllXDictResolves(path[1..], w.value);
        }
      case List(items) =>
        var i := ParseInt(path[0]);
        if i.Some? && 0 <= i.value < |items| {
          AllXDictResolves(path[1..], items[i.value]);
        }
      case Scalar(_) =>
    }
  }

  /** After `create_structure`, every dict of the source can be navigated:
      a lookup in the normalised structure finds the normalised value the
      tag-blind walk finds in the source. */
  lemma {:induction false} NavigateNormalized(path: seq<string>, v: Value)
    requires WellFormed(v)
    ensures GetValueAt(path, Normalize(v)) == NormalizeFound(Resolve(path, v))
    decreases |path|
  {
    if path != [] {
      match v
      case Dict(_, ms) =>
        var k := path[0];
        var nm := seq(|ms|, i requires 0 <= i < |ms| => (ms[i].0, Normalize(ms[i].1)));
        assert Normalize(v) == Dict(true, nm) by {
          NormalizeMembersPointwise(v, |ms|);
        }
        assert Keys(nm) == Keys(ms);
        SameKeysIndexOf(ms, nm, k);
        var i := IndexOf(ms, k);
        if i >= 0 {
          NavigateNormalized(path[1..], ms[i].1);
        }
      case List(items) =>
        var i := ParseInt(path[0]);
        if i.Some? && 0 <= i.value < |items| {
          NavigateNormalized(path[1..], items[i.value]);
        }
      case Scalar(_) =>
    }
  }
}
