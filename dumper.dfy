/**
 * `dump` and its helpers `_dump_val`, `_dump_arr` and `_dump_obj`: the
 * indented text rendering of a structure.
 */
module Dumper {
  import opened OrderedDicts
  import opened Text
  import opened Values
  import opened Normaliser
  import opened Copier

  /** The line a container opens with: `key + ": \n"`, nothing for an empty key. */
  function Header(key: string): string
  {
    if key == "" then "" else key + ": \n"
  }

  /** `_dump_val`: `indent`, then `key: ` when the key is not empty, then `str(value)` and a line break. */
  function DumpVal(a: Atom, key: string, indent: string): string
  {
    indent + (if key == "" then "" else key + ": ") + AtomText(a) + "\n"
  }

  /** A scalar prints as one line: it starts with the indent, ends with
      `str(value)` and a line break, and holds no other line break when the
      indent, the key and the value hold none. */
  lemma DumpValLine(a: Atom, key: string, indent: string)
    ensures var s := DumpVal(a, key, indent);
      |s| > |indent| + |AtomText(a)| && indent <= s &&
      s[|s| - 1 - |AtomText(a)|..] == AtomText(a) + "\n" &&
      ('\n' !in indent + key + AtomText(a) ==> '\n' !in s[..|s| - 1])
  {
    var prefix := if key == "" then "" else key + ": ";
    var s := DumpVal(a, key, indent);
    assert s == indent + prefix + AtomText(a) + "\n";
    assert s[..|s| - 1] == indent + prefix + AtomText(a);
    assert s[|s| - 1 - |AtomText(a)|..] == AtomText(a) + "\n";
    assert '\n' !in ": ";
  }

  /** The key `_dump_arr` gives element `i`: `"#" + str(i)`. */
  function Label(i: nat): string
  {
    "#" + NatToString(i)
  }

  /**
   * The text `dump(v, key=key, indent=indent)` returns. `dump` never passes
   * its `exclude_info` on, so every dict below it skips `_info`.
   */
  function DumpText(v: Value, key: string, indent: string): (s: string)
    ensures indent <= s
    decreases v, 1, 0
  {
    match v
    case List(items) => indent + Header(key) + DumpItems(v, |items|, indent + ". ")
    case Dict(_, ms) => indent + Header(key) + DumpMembers(v, |ms|, indent + ". ", true)
    case Scalar(a) => DumpVal(a, key, indent)
  }

  /** What `_dump_arr`'s loop has accumulated after the first `n` elements. */
  function DumpItems(v: Value, n: nat, indent: string): (s: string)
    requires v.List? && n <= |v.items|
    decreases v, 0, n
  {
    if n == 0 then ""
    else DumpItems(v, n - 1, indent) + DumpText(v.items[n - 1], Label(n - 1), indent)
  }

  /** What `_dump_obj`'s loop has accumulated after the first `n` keys. */
  function DumpMembers(v: Value, n: nat, indent: string, excludeInfo: bool): (s: string)
    requires v.Dict? && n <= |v.members|
    decreases v, 0, n
  {
    if n == 0 then ""
    else
      var name, value := v.members[n - 1].0, v.members[n - 1].1;
      DumpMembers(v, n - 1, indent, excludeInfo) +
        (if excludeInfo && name == InfoKey then "" else DumpText(value, name, indent))
  }

  // ---------------------------------------------------------------------
  // The text does not depend on the `XDict` tag

  /** Dumping looks at keys, order, lengths and scalars only, never at
      whether a dict is an `XDict`. */
  lemma {:induction false} DumpIgnoresTags(v: Value, key: string, indent: string)
    ensures DumpText(Plain(v), key, indent) == DumpText(v, key, indent)
    decreases v, 1, 0
  {
    match v
    case List(items) =>
      DumpItemsIgnoreTags(v, |items|, indent + ". ");
    case Dict(_, ms) =>
      DumpMembersIgnoreTags(v, |ms|, indent + ". ");
    case Scalar(_) =>
  }

  lemma {:induction false} DumpItemsIgnoreTags(v: Value, n: nat, indent: string)
    requires v.List? && n <= |v.items|
    ensures DumpItems(Plain(v), n, indent) == DumpItems(v, n, indent)
    decreases v, 0, n
  {
    if n > 0 {
      var m := n - 1;
      assert DumpItems(Plain(v), m, indent) == DumpItems(v, m, indent) by {
        DumpItemsIgnoreTags(v, m, indent);
      }
      assert DumpText(Plain(v.items[m]), Label(m), indent) == DumpText(v.items[m], Label(m), indent) by {
        DumpIgnoresTags(v.items[m], Label(m), indent);
      }
      assert Plain(v).items[m] == Plain(v.items[m]);
    }
  }

  lemma {:induction false} DumpMembersIgnoreTags(v: Value, n: nat, indent: string)
    requires v.Dict? && n <= |v.members|
    ensures DumpMembers(Plain(v), n, indent, true) == DumpMembers(v, n, indent, true)
    decreases v, 0, n
  {
    if n > 0 {
      var m := n - 1;
      assert DumpMembers(Plain(v), m, indent, true) == DumpMembers(v, m, indent, true) by {
        DumpMembersIgnoreTags(v, m, indent);
      }
      var name, value := v.members[m].0, v.members[m].1;
      assert DumpText(Plain(value), name, indent) == DumpText(value, name, indent) by {
        DumpIgnoresTags(value, name, indent);
      }
      assert Plain(v).members[m] == (name, Plain(value));
    }
  }

  /** `create_structure` does not change what `dump` prints. */
  lemma DumpNormalized(v: Value, key: string, indent: string)
    requires WellFormed(v)
    ensures DumpText(Normalize(v), key, indent) == DumpText(v, key, indent)
  {
    NormalizeKeepsShape(v);
    DumpIgnoresTags(Normalize(v), key, indent);
    DumpIgnoresTags(v, key, indent);
  }

  /** A copy made with `exclude_info` false prints as its source does. */
  lemma DumpCopy(v: Value, key: string, indent: string)
    requires WellFormed(v)
    ensures DumpText(Copy(v, false), key, indent) == DumpText(v, key, indent)
  {
    CopyIsStructurallyEqual(v);
    DumpIgnoresTags(v, key, indent);
  }

  // ---------------------------------------------------------------------
  // Dropping `_info` does not change the text either

  /** The text of the first `n` keys depends on those keys only. */
  lemma {:induction false} DumpMembersPrefix(v: Value, w: Value, n: nat, indent: string, excludeInfo: bool)
    requires v.Dict? && w.Dict? && n <= |v.members| && n <= |w.members|
    requires v.members[..n] == w.members[..n]
    ensures DumpMembers(v, n, indent, excludeInfo) == DumpMembers(w, n, indent, excludeInfo)
    decreases n
  {
    if n > 0 {
      assert v.members[n - 1] == v.members[..n][n - 1] == w.members[n - 1];
      assert v.members[..n - 1] == v.members[..n][..n - 1];
      assert w.members[..n - 1] == w.members[..n][..n - 1];
      DumpMembersPrefix(v, w, n - 1, indent, excludeInfo);
    }
  }

  /** `to_dict()` (which drops `_info`) prints as the structure does. */
  lemma {:induction false} DumpCopyExcludingInfo(v: Value, key: string, indent: string)
    requires WellFormed(v)
    ensures DumpText(Copy(v, true), key, indent) == DumpText(v, key, indent)
    decreases v, 1, 0
  {
    match v
    case List(items) =>
      DumpItemsCopy(v, |items|, indent + ". ");
    case Dict(_, ms) =>
      DumpMembersCopy(v, |ms|, indent + ". ");
    case Scalar(_) =>
  }

  lemma {:induction false} DumpItemsCopy(v: Value, n: nat, indent: string)
    requires v.List? && n <= |v.items| && WellFormed(v)
    ensures DumpItems(Copy(v, true), n, indent) == DumpItems(v, n, indent)
    decreases v, 0, n
  {
    if n > 0 {
      var m := n - 1;
      assert DumpItems(Copy(v, true), m, indent) == DumpItems(v, m, indent) by {
        DumpItemsCopy(v, m, indent);
      }
      assert DumpText(Copy(v.items[m], true), Label(m), indent) == DumpText(v.items[m], Label(m), indent) by {
        DumpCopyExcludingInfo(v.items[m], Label(m), indent);
      }
    }
  }

  /** One more key adds its own text, unless it is a skipped `_info`. */
  lemma DumpMembersStep(v: Value, m: nat, indent: string)
    requires v.Dict? && m < |v.members|
    ensures DumpMembers(v, m + 1, indent, true) == DumpMembers(v, m, indent, true) +
      (if v.members[m].0 == InfoKey then "" else DumpText(v.members[m].1, v.members[m].0, indent))
  {
  }

  /** The text of the copy of the first `n` keys. */
  function CopiedText(v: Value, n: nat, indent: string): string
    requires v.Dict? && n <= |v.members|
  {
    var pn := CopyMembers(v, n, true);
    DumpMembers(Dict(false, pn), |pn|, indent, true)
  }

  /** The copy of the first `n` keys prints what those `n` keys print. */
  lemma {:induction false} DumpMembersCopy(v: Value, n: nat, indent: string)
    requires v.Dict? && n <= |v.members| && WellFormed(v)
    ensures CopiedText(v, n, indent) == DumpMembers(v, n, indent, true)
    decreases v, 0, n
  {
    if n > 0 {
      var m := n - 1;
      assert CopiedText(v, m, indent) == DumpMembers(v, m, indent, true) by {
        DumpMembersCopy(v, m, indent);
      }
      assert ValueTextCopied(v, m, indent) by {
        var name, value := v.members[m].0, v.members[m].1;
        if name != InfoKey {
          assert WellFormed(value);
          DumpCopyExcludingInfo(value, name, indent);
        }
      }
      CopyTextStep(v, m, indent);
    }
  }

  /** Key `m` of `v`, unless it is `_info`, prints the same before and after copying. */
  predicate ValueTextCopied(v: Value, m: nat, indent: string)
    requires v.Dict? && m < |v.members|
  {
    var name, value := v.members[m].0, v.members[m].1;
    name != InfoKey ==> DumpText(Copy(value, true), name, indent) == DumpText(value, name, indent)
  }

  lemma CopyTextStep(v: Value, m: nat, indent: string)
    requires v.Dict? && m < |v.members| && WellFormed(v)
    requires CopiedText(v, m, indent) == DumpMembers(v, m, indent, true)
    requires ValueTextCopied(v, m, indent)
    ensures CopiedText(v, m + 1, indent) == DumpMembers(v, m + 1, indent, true)
  {
    if v.members[m].0 == InfoKey {
      CopySkipsInfo(v, m, indent);
    } else {
      CopyKeepsKey(v, m, indent);
    }
  }

  /** An `_info` key adds nothing to either text. */
  lemma CopySkipsInfo(v: Value, m: nat, indent: string)
    requires v.Dict? && m < |v.members| && WellFormed(v) && v.members[m].0 == InfoKey
    requires CopiedText(v, m, indent) == DumpMembers(v, m, indent, true)
    ensures CopiedText(v, m + 1, indent) == DumpMembers(v, m + 1, indent, true)
  {
    assert CopyMembers(v, m + 1, true) == CopyMembers(v, m, true) by {
      CopyMembersAppend(v, m, true);
    }
    DumpMembersStep(v, m, indent);
  }

  /** Any other key adds its copy's text to one and its own text to the other. */
  lemma CopyKeepsKey(v: Value, m: nat, indent: string)
    requires v.Dict? && m < |v.members| && WellFormed(v) && v.members[m].0 != InfoKey
    requires CopiedText(v, m, indent) == DumpMembers(v, m, indent, true)
    requires DumpText(Copy(v.members[m].1, true), v.members[m].0, indent) ==
      DumpText(v.members[m].1, v.members[m].0, indent)
    ensures CopiedText(v, m + 1, indent) == DumpMembers(v, m + 1, indent, true)
  {
    var name, value := v.members[m].0, v.members[m].1;
    var pn := CopyMembers(v, m + 1, true);
    var prev := CopyMembers(v, m, true);
    var c, d := Dict(false, pn), Dict(false, prev);
    assert pn == prev + [(name, Copy(value, true))] by {
      CopyMembersAppend(v, m, true);
    }
    assert DumpMembers(c, |prev|, indent, true) == DumpMembers(d, |prev|, indent, true) by {
      assert pn[..|prev|] == prev[..|prev|];
      DumpMembersPrefix(c, d, |prev|, indent, true);
    }
    assert |pn| == |prev| + 1 && pn[|prev|] == (name, Copy(value, true));
    DumpMembersStep(c, |prev|, indent);
    DumpMembersStep(v, m, indent);
  }

  // ---------------------------------------------------------------------
  // Shapes of the text

  /** Keys that are all `_info` print nothing. */
  lemma {:induction false} InfoOnlyMembers(v: Value, n: nat, indent: string)
    requires v.Dict? && n <= |v.members|
    requires forall i :: 0 <= i < n ==> v.members[i].0 == InfoKey
    ensures DumpMembers(v, n, indent, true) == ""
    decreases n
  {
    if n > 0 {
      InfoOnlyMembers(v, n - 1, indent);
    }
  }

  /** A dict with no key but `_info`, dumped with an empty key, is just its
      indent: `""` at the top level. This is what an empty directory, or an
      empty object, dumps to. */
  lemma InfoOnlyDict(isXDict: bool, ms: Pairs<Value>, indent: string)
    requires forall i :: 0 <= i < |ms| ==> ms[i].0 == InfoKey
    ensures DumpText(Dict(isXDict, ms), "", indent) == indent
  {
    InfoOnlyMembers(Dict(isXDict, ms), |ms|, indent + ". ");
  }

  /** A nested container with an empty key contributes its bare indent and
      no line break, so the next line is glued to it. */
  lemma EmptyKeyLeavesIndent()
    ensures DumpText(Dict(true, [("", Dict(true, [])), ("b", Scalar(Int(1)))]), "", "") == ". . b: 1\n"
  {
    var v := Dict(true, [("", Dict(true, [])), ("b", Scalar(Int(1)))]);
    assert DumpText(Dict(true, []), "", ". ") == ". ";
    assert DumpText(Scalar(Int(1)), "b", ". ") == ". b: 1\n" by {
      assert NatToString(1) == "1";
    }
    assert DumpMembers(v, 1, ". ", true) == ". ";
  }
}
