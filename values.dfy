/**
 * The nested value the container holds: what the JSON plugin returns and
 * what `create_structure` rebuilds. A dict remembers whether it is an
 * `XDict`, because the path navigator descends only into those.
 */
module Values {
  import opened OrderedDicts
  import Text

  /** The key under which per-node file information is stored. */
  const InfoKey := "_info"
  /** The top-level key holding the alias table. */
  const AliasesKey := "_aliases"
  /** The optional per-directory document (`_index + '.json'`). */
  const IndexFile := "index.json"

  /** A leaf: the scalars a JSON document can hold. `Other` stands for a
      float, carried with the text `str()` gives it. */
  datatype Atom = Null | Bool(b: bool) | Int(i: int) | Str(s: string) | Other(text: string)

  datatype Value =
    | Dict(isXDict: bool, members: Pairs<Value>)
    | List(items: seq<Value>)
    | Scalar(atom: Atom)

  /** `str(a)` */
  function AtomText(a: Atom): string
  {
    match a
    case Null => "None"
    case Bool(b) => if b then "True" else "False"
    case Int(i) => Text.IntToString(i)
    case Str(s) => s
    case Other(t) => t
  }

  /** An integer prints as a literal that `int()` reads back, and `None`,
      `True` and `False` print as names that are not integers. */
  lemma AtomTextParse(a: Atom)
    ensures a.Int? ==> Text.ParseInt(AtomText(a)).Some? && Text.ParseInt(AtomText(a)).value == a.i
    ensures a.Null? || a.Bool? ==> Text.ParseInt(AtomText(a)).None?
  {
    match a
    case Null => Text.ParseIntRejects("None", 0);
    case Bool(b) => Text.ParseIntRejects("True", 0); Text.ParseIntRejects("False", 0);
    case Int(i) => Text.ParseIntToString(i);
    case _ =>
  }

  predicate IsNull(v: Value) {
    v.Scalar? && v.atom.Null?
  }

  /** Every dict in `v` has unique keys, as every Python dict does. */
  predicate WellFormed(v: Value)
  {
    match v
    case Dict(_, ms) => UniqueKeys(ms) && forall i :: 0 <= i < |ms| ==> WellFormed(ms[i].1)
    case List(items) => forall i :: 0 <= i < |items| ==> WellFormed(items[i])
    case Scalar(_) => true
  }

  /** No `None` leaf anywhere in `v`. */
  predicate NoNull(v: Value)
  {
    match v
    case Dict(_, ms) => forall i :: 0 <= i < |ms| ==> NoNull(ms[i].1)
    case List(items) => forall i :: 0 <= i < |items| ==> NoNull(items[i])
    case Scalar(a) => !a.Null?
  }

  /** Every dict in `v` is an `XDict`. */
  predicate AllXDict(v: Value)
  {
    match v
    case Dict(x, ms) => x && forall i :: 0 <= i < |ms| ==> AllXDict(ms[i].1)
    case List(items) => forall i :: 0 <= i < |items| ==> AllXDict(items[i])
    case Scalar(_) => true
  }

  /** Every dict in `v` is a plain dict. */
  predicate AllPlain(v: Value)
  {
    match v
    case Dict(x, ms) => !x && forall i :: 0 <= i < |ms| ==> AllPlain(ms[i].1)
    case List(items) => forall i :: 0 <= i < |items| ==> AllPlain(items[i])
    case Scalar(_) => true
  }

  /** No dict in `v` has an `_info` key. */
  predicate NoInfo(v: Value)
  {
    match v
    case Dict(_, ms) => InfoKey !in Keys(ms) && forall i :: 0 <= i < |ms| ==> NoInfo(ms[i].1)
    case List(items) => forall i :: 0 <= i < |items| ==> NoInfo(items[i])
    case Scalar(_) => true
  }

  /**
   * `v` with every `XDict` replaced by a plain dict of the same pairs: two
   * values with equal `Plain` images have the same keys in the same order,
   * the same list lengths and the same scalars, so Python's `==` holds.
   */
  function Plain(v: Value): Value
  {
    match v
    case Dict(_, ms) => Dict(false, seq(|ms|, i requires 0 <= i < |ms| => (ms[i].0, Plain(ms[i].1))))
    case List(items) => List(seq(|items|, i requires 0 <= i < |items| => Plain(items[i])))
    case Scalar(_) => v
  }

  /** The keys of `ks` other than `_info`, in order. */
  function DropInfo(ks: seq<string>): (r: seq<string>)
    ensures forall k :: k in r <==> k in ks && k != InfoKey
  {
    if ks == [] then []
    else DropInfo(ks[..|ks| - 1]) + (if ks[|ks| - 1] == InfoKey then [] else [ks[|ks| - 1]])
  }
}
