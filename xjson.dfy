/**
 * The `XJson` container: the structure read from a file or a directory
 * tree of documents, the alias table found in it, and the operations on
 * them.
 */
module Container {
  import opened Wrappers
  import opened OrderedDicts
  import opened Text
  import opened Values
  import opened Normaliser
  import opened Navigator
  import opened Dumper
  import opened Copier
  import opened Aggregator

  // ---------------------------------------------------------------------
  // `_scan`

  /** Where `_scan(name)` finds its entry: at `name`, else at `name + '.json'`. */
  function Locate(name: string, fs: FileSystem): (r: Option<(string, Entry)>)
    ensures r.None? <==> fs.lookup(name).None? && fs.lookup(name + ".json").None?
    ensures r.Some? ==> fs.lookup(r.value.0) == Some(r.value.1)
    ensures r.Some? && r.value.0 != name ==> r.value.0 == name + ".json" && fs.lookup(name).None?
  {
    if fs.lookup(name).Some? then Some((name, fs.lookup(name).value))
    else if fs.lookup(name + ".json").Some? then Some((name + ".json", fs.lookup(name + ".json").value))
    else None
  }

  /**
   * What `_scan(name)` does: `Ok(None)` when neither path exists and the
   * structure stays as it was, `Ok(Some(s))` for the new structure
   * `create_structure(_add_file(path))`, or the error `_add_file` raised.
   * A new structure is always made of `XDict`s with unique keys.
   */
  function Scanned(name: string, fs: FileSystem): (r: Result<Option<Value>>)
    ensures Locate(name, fs).None? ==> r == Ok(None)
    ensures r.Ok? && r.value.Some? ==> WellFormed(r.value.value) && AllXDict(r.value.value)
  {
    match Locate(name, fs)
    case None => Ok(None)
    case Some((path, e)) =>
      match Aggregate(path, e, fs)
      case Raised(err) => Raised(err)
      case Ok(v) =>
        NormalizeInvariants(v);
        Ok(Some(Normalize(v)))
  }

  /** The outcome of a scan as the method reports it: whether anything was read. */
  function ScanStatus(r: Result<Option<Value>>): Result<bool>
  {
    match r
    case Ok(o) => Ok(o.Some?)
    case Raised(err) => Raised(err)
  }

  /** The structure after a scan, starting from `before`. */
  function AfterScan(r: Result<Option<Value>>, before: Value): Value
  {
    match r
    case Ok(Some(v)) => v
    case _ => before
  }

  // ---------------------------------------------------------------------
  // The alias table

  /** Every value of the table is a string, as `_add_aliases` concatenates them. */
  predicate AllStr(table: Pairs<Value>)
  {
    forall i :: 0 <= i < |table| ==> table[i].1.Scalar? && table[i].1.atom.Str?
  }

  /** `path + ('.' if path > '' else '') + target` */
  function AliasPath(path: string, target: string): string
  {
    path + (if path != "" then "." else "") + target
  }

  /** The aliases `_add_aliases(table, path)` records for the first `n`
      names, one assignment per name in order. */
  function AliasesFrom(table: Pairs<Value>, n: nat, path: string): (r: map<string, string>)
    requires n <= |table| && AllStr(table)
    ensures n > 0 ==> table[n - 1].0 in r && r[table[n - 1].0] == AliasPath(path, table[n - 1].1.atom.s)
  {
    if n == 0 then map[]
    else AliasesFrom(table, n - 1, path)[table[n - 1].0 := AliasPath(path, table[n - 1].1.atom.s)]
  }

  /** `_add_aliases` records exactly the names of the table. */
  lemma {:induction false} AliasesFromDomain(table: Pairs<Value>, n: nat, path: string)
    requires n <= |table| && AllStr(table)
    ensures AliasesFrom(table, n, path).Keys == set i | 0 <= i < n :: table[i].0
  {
    if n > 0 {
      AliasesFromDomain(table, n - 1, path);
      assert (set i | 0 <= i < n :: table[i].0) == (set i | 0 <= i < n - 1 :: table[i].0) + {table[n - 1].0};
    }
  }

  /** Each name of a table (whose names are unique, as a dict's are) is an
      alias for its own target below `path`. */
  lemma {:induction false} AliasesFromLookup(table: Pairs<Value>, n: nat, path: string, i: nat)
    requires n <= |table| && AllStr(table) && UniqueKeys(table) && i < n
    ensures table[i].0 in AliasesFrom(table, n, path)
    ensures AliasesFrom(table, n, path)[table[i].0] == AliasPath(path, table[i].1.atom.s)
  {
    if i < n - 1 {
      AliasesFromLookup(table, n - 1, path, i);
      assert Keys(table)[i] != Keys(table)[n - 1];
    }
  }

  /** An alias made below `path` walks `path` first, then the target from
      whatever `path` leads to. */
  lemma AliasPathWalk(path: string, target: string, node: Value)
    requires path != ""
    ensures GetDotted(AliasPath(path, target), node) ==
      match GetDotted(path, node)
      case Ok(Some(w)) => GetDotted(target, w)
      case other => other
  {
    assert AliasPath(path, target) == path + ['.'] + target;
    SplitConcat(path, '.', target);
    PathConcat(Split(path, '.'), Split(target, '.'), node);
  }

  /** `s` holds `t` as a substring (Python's `t in s` on strings). */
  predicate Contains(s: string, t: string)
    decreases |s|
  {
    if |s| < |t| then false else s[..|t|] == t || Contains(s[1..], t)
  }

  /** `_add_aliases` can run over the value stored under `_aliases`: a dict of
      strings, or an empty iterable. */
  predicate AliasTableLoads(t: Value)
  {
    match t
    case Dict(_, ms) => AllStr(ms)
    case List(items) => items == []
    case Scalar(a) => a == Str("")
  }

  /** `if _aliases in structure: _add_aliases(structure[_aliases])` raises
      nothing. A scalar other than a string is not a container at all. */
  predicate AliasesLoad(s: Value)
  {
    match s
    case Dict(_, ms) => AliasesKey in Keys(ms) ==> AliasTableLoads(Get(ms, AliasesKey).value)
    case List(items) => Scalar(Str(AliasesKey)) !in items
    case Scalar(a) => a.Str? && !Contains(a.s, AliasesKey)
  }

  /** The aliases `__init__` records for a loaded structure. */
  function LoadedAliases(s: Value): map<string, string>
    requires AliasesLoad(s)
  {
    if s.Dict? && AliasesKey in Keys(s.members) && Get(s.members, AliasesKey).value.Dict? then
      var table := Get(s.members, AliasesKey).value.members;
      AliasesFrom(table, |table|, "")
    else map[]
  }

  /** The structure `XJson(name)` starts with. */
  function InitialStructure(name: string, fs: FileSystem): Value
  {
    if name == "" then Dict(true, []) else AfterScan(Scanned(name, fs), Dict(true, []))
  }

  // ---------------------------------------------------------------------
  // The container

  class XJson {
    var structure: Value
    var aliases: map<string, string>

    /** `XJson(name)`: an empty `XDict`, then the scan of `name` and the
        aliases its top level declares. */
    constructor(name: string, fs: FileSystem)
      requires name != "" ==> Scanned(name, fs).Ok? && AliasesLoad(InitialStructure(name, fs))
      ensures structure == InitialStructure(name, fs)
      ensures aliases == if name == "" then map[] else LoadedAliases(structure)
    {
      structure := Dict(true, []);
      aliases := map[];
      new;
      if name != "" {
        var status := Scan(name, fs);
        if structure.Dict? && AliasesKey in Keys(structure.members) {
          var table := Get(structure.members, AliasesKey).value;
          if table.Dict? {
            AddAliases(table.members, "");
          }
        }
      }
    }

    /** `_add_aliases(table, path)`: each name becomes an alias for its
        target below `path`, replacing an alias of the same name. */
    method AddAliases(table: Pairs<Value>, path: string)
      requires AllStr(table)
      modifies this`aliases
      ensures aliases == old(aliases) + AliasesFrom(table, |table|, path)
    {
      for i := 0 to |table|
        invariant aliases == old(aliases) + AliasesFrom(table, i, path)
      {
        aliases := aliases[table[i].0 := AliasPath(path, table[i].1.atom.s)];
      }
    }

    /** `_scan(name)`: replaces the structure when `name` or `name.json`
        exists and reads without error; otherwise leaves it. */
    method Scan(name: string, fs: FileSystem) returns (r: Result<bool>)
      modifies this`structure
      ensures r == ScanStatus(Scanned(name, fs))
      ensures structure == AfterScan(Scanned(name, fs), old(structure))
    {
      var fileName := name;
      var found := fs.lookup(fileName);
      if found.None? {
        fileName := fileName + ".json";
        found := fs.lookup(fileName);
        if found.None? {
          return Ok(false);
        }
      }
      var node := AddFile(fileName, found.value, fs);
      if node.Raised? {
        return Raised(node.error);
      }
      structure := CreateStructure(node.value);
      return Ok(true);
    }

    /** `clear()`: a plain empty dict and no aliases. */
    method Clear()
      modifies this
      ensures structure == Dict(false, []) && aliases == map[]
    {
      structure := Dict(false, []);
      aliases := map[];
    }

    /** `refresh(name)`: clear, then scan again. The alias table is not
        rebuilt, and a missing path leaves the cleared plain dict. */
    method Refresh(name: string, fs: FileSystem) returns (r: Result<bool>)
      modifies this
      ensures aliases == map[]
      ensures structure == AfterScan(Scanned(name, fs), Dict(false, []))
      ensures r == ScanStatus(Scanned(name, fs))
    {
      Clear();
      r := Scan(name, fs);
    }

    /** `get_value(path)` */
    function GetValue(path: string): (r: Result<Option<Value>>)
      reads this
      ensures r.Raised? ==> r.error == ValueError
      ensures structure.Dict? && !structure.isXDict ==> r == Ok(None)
    {
      GetDotted(path, structure)
    }

    /** `alias(name)`: the value at the alias's path, `None` for an unknown name. */
    function Alias(name: string): (r: Result<Option<Value>>)
      reads this
      ensures r.Raised? ==> r.error == ValueError
      ensures name !in aliases || (structure.Dict? && !structure.isXDict) ==> r == Ok(None)
    {
      if name in aliases then GetValue(aliases[name]) else Ok(None)
    }

    /** `dump(node, key, indent)`. A `None` node stands for the structure. */
    method Dump(node: Value, key: string, indent: string) returns (s: string)
      requires NoNull(structure) && (IsNull(node) || NoNull(node))
      ensures s == DumpText(if IsNull(node) then structure else node, key, indent)
      decreases if IsNull(node) then structure else node, 2
    {
      var target := if IsNull(node) then structure else node;
      if target.List? {
        s := DumpArr(target, key, indent);
      } else if target.Dict? {
        s := DumpObj(target, key, indent, true);
      } else {
        s := DumpVal(target.atom, key, indent);
      }
    }

    /** `_dump_arr`: the header line, then every element labelled `#i`, one
        level deeper. */
    method DumpArr(node: Value, key: string, indent: string) returns (s: string)
      requires node.List? && NoNull(structure) && NoNull(node)
      ensures s == DumpText(node, key, indent)
      decreases node, 1
    {
      var result := "";
      var n := 0;
      while n < |node.items|
        invariant n <= |node.items|
        invariant result == DumpItems(node, n, indent + ". ")
      {
        var value := Dump(node.items[n], Label(n), indent + ". ");
        result := result + value;
        n := n + 1;
      }
      s := indent + Header(key) + result;
    }

    /** `_dump_obj`: the header line, then every member under its own key,
        one level deeper; `_info` is skipped when `excludeInfo` is set. */
    method DumpObj(node: Value, key: string, indent: string, excludeInfo: bool) returns (s: string)
      requires node.Dict? && NoNull(structure) && NoNull(node)
      ensures s == indent + Header(key) + DumpMembers(node, |node.members|, indent + ". ", excludeInfo)
      ensures excludeInfo ==> s == DumpText(node, key, indent)
      decreases node, 1
    {
      var result := "";
      for i := 0 to |node.members|
        invariant result == DumpMembers(node, i, indent + ". ", excludeInfo)
      {
        var name, value := node.members[i].0, node.members[i].1;
        if excludeInfo && name == InfoKey {
          continue;
        }
        var text := Dump(value, name, indent + ". ");
        result := result + text;
      }
      s := indent + Header(key) + result;
    }

    /** `to_dict(exclude_info)`: a plain copy of the structure. */
    method ToDict(excludeInfo: bool) returns (r: Value)
      requires structure.Dict? || structure.List?
      ensures r == Copy(structure, excludeInfo)
    {
      r := CopyNode(structure, excludeInfo);
    }

    /** `from_dict(data)`: the structure becomes (a deep copy of) `data`. */
    method FromDict(data: Value)
      modifies this`structure
      ensures structure == data
    {
      structure := data;
    }

    /** `copy_from(src)`: a plain copy of `src`'s structure, `_info` included. */
    method CopyFrom(src: XJson)
      requires src.structure.Dict? || src.structure.List?
      modifies this`structure
      ensures structure == Copy(old(src.structure), false)
    {
      var copied := CopyNode(src.structure, false);
      structure := copied;
    }
  }

  // ---------------------------------------------------------------------
  // Facts about the container

  /** A name of the alias table is an alias for its target; any other name
      is unknown and `alias` returns `None`. */
  lemma AliasLookup(x: XJson, table: Pairs<Value>, k: string)
    requires AllStr(table) && UniqueKeys(table)
    requires x.aliases == AliasesFrom(table, |table|, "")
    ensures k in Keys(table) ==> x.Alias(k) == x.GetValue(Get(table, k).value.atom.s)
    ensures k !in Keys(table) ==> x.Alias(k) == Ok(None)
  {
    var m := AliasesFrom(table, |table|, "");
    if k in Keys(table) {
      var i := IndexOf(table, k);
      var target := table[i].1.atom.s;
      assert Get(table, k) == Some(table[i].1);
      AliasesFromLookup(table, |table|, "", i);
      assert AliasPath("", target) == target;
      assert k in m && m[k] == target;
    } else {
      assert k !in m by {
        AliasesFromDomain(table, |table|, "");
        assert forall i :: 0 <= i < |table| ==> Keys(table)[i] != k;
      }
    }
  }
}
