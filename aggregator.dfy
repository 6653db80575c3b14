/**
 * `_add_file`: fold a file, or a directory tree of documents, into one
 * nested dict. A directory starts from its `index.json` (or `{}`), merges
 * every other entry one level deep under the entry's name without its
 * extension, and finally stores its file information under `_info`.
 */
module Aggregator {
  import opened Wrappers
  import opened OrderedDicts
  import opened Values
  import opened Text

  /** A directory listing, in the order `os.listdir` returns it. */
  datatype Entry = File(name: string, content: string) | Dir(name: string, entries: seq<Entry>)

  /**
   * The I/O the container performs, as plain functions: what is found at a
   * path (`os.path.exists` and `isfile`), what the JSON plugin makes of a
   * file (`_apply_plugins`), and `BaseFilePlugin.get_file_info`.
   */
  datatype FileSystem = FileSystem(
    lookup: string -> Option<Entry>,
    plugin: (string, string) -> Value,
    fileInfo: string -> Pairs<Value>)

  /** The contents of the directory's `index.json`, if it has one. */
  function FindIndex(entries: seq<Entry>): (r: Option<string>)
    ensures r.Some? <==> exists i :: 0 <= i < |entries| && entries[i].File? && entries[i].name == IndexFile
    ensures r.Some? ==> exists i :: 0 <= i < |entries| && entries[i] == File(IndexFile, r.value)
  {
    if entries == [] then None
    else if entries[0].File? && entries[0].name == IndexFile then Some(entries[0].content)
    else
      var r := FindIndex(entries[1..]);
      assert forall i :: 0 < i < |entries| ==> entries[i] == entries[1..][i - 1];
      r
  }

  /** The node a directory starts from: the plugin's reading of `index.json`,
      or `{}` when there is none (`FileNotFoundException`). */
  function IndexNode(path: string, entries: seq<Entry>, fs: FileSystem): Value
  {
    match FindIndex(entries)
    case Some(content) => fs.plugin(JoinPath(path, IndexFile), content)
    case None => Dict(false, [])
  }

  /** The key an entry is merged under: its name without the extension. */
  function Stem(name: string): string
  {
    SplitExt(name).0
  }

  /**
   * `target.update(child)` on a dict `target`. A dict child is merged. An
   * empty list or an empty string updates nothing. A non-empty string is a
   * sequence of one-character strings, which `update` rejects with a
   * `ValueError`. Anything else is not an iterable of pairs: `TypeError`.
   */
  function DictUpdate(target: Pairs<Value>, child: Value): (r: Result<Pairs<Value>>)
    ensures r.Raised? ==> r.error == TypeError || r.error == ValueError
    ensures r.Ok? ==> Keys(target) <= Keys(r.value)
    ensures !child.Dict? && r.Ok? ==> r.value == target
  {
    match child
    case Dict(_, ms) => UpdateKeys(target, ms); Ok(Update(target, ms))
    case List(items) => if items == [] then Ok(target) else Raised(TypeError)
    case Scalar(a) =>
      if a == Str("") then Ok(target)
      else if a.Str? then Raised(ValueError)
      else Raised(TypeError)
  }

  /** What `_add_file(path)` returns for the entry found at `path`. */
  function Aggregate(path: string, e: Entry, fs: FileSystem): (r: Result<Value>)
    ensures e.File? ==> r == Ok(fs.plugin(path, e.content))
    ensures e.Dir? && r.Ok? ==> r.value.Dict? && InfoKey in Keys(r.value.members)
    decreases e, 1, 0
  {
    match e
    case File(_, content) => Ok(fs.plugin(path, content))
    case Dir(_, entries) =>
      match MergeEntries(path, e, |entries|, fs)
      case Raised(err) => Raised(err)
      case Ok(node) => Finish(path, e, node, fs)
  }

  /** After the loop: `info.update(get_file_info(path))` and `node['_info'] = info`,
      where `info` is the index's own `_info` object when it had one. */
  function Finish(path: string, e: Entry, node: Pairs<Value>, fs: FileSystem): (r: Result<Value>)
    requires e.Dir? && IndexNode(path, e.entries, fs).Dict?
    ensures r.Ok? ==> r.value.Dict? && InfoKey in Keys(r.value.members)
  {
    var index := IndexNode(path, e.entries, fs);
    var info := if InfoKey in Keys(index.members) then Get(node, InfoKey).GetOr(Dict(false, [])) else Dict(false, []);
    if !info.Dict? then Raised(AttributeError)
    else Ok(Dict(index.isXDict, Set(node, InfoKey, Dict(info.isXDict, Update(info.members, fs.fileInfo(path))))))
  }

  /** The directory node after `_add_file`'s loop has seen the first `n` entries. */
  function MergeEntries(path: string, e: Entry, n: nat, fs: FileSystem): (r: Result<Pairs<Value>>)
    requires e.Dir? && n <= |e.entries|
    ensures r.Ok? ==> IndexNode(path, e.entries, fs).Dict?
    decreases e, 0, n
  {
    if n == 0 then
      var index := IndexNode(path, e.entries, fs);
      if index.Dict? then Ok(index.members) else Raised(AttributeError)
    else
      match MergeEntries(path, e, n - 1, fs)
      case Raised(err) => Raised(err)
      case Ok(node) => MergeChild(path, node, e.entries[n - 1], fs)
  }

  /** One turn of the loop: merge `entry` into `node` under its stem. */
  function MergeChild(path: string, node: Pairs<Value>, entry: Entry, fs: FileSystem): Result<Pairs<Value>>
    decreases entry, 3, 0
  {
    if entry.name == IndexFile then Ok(node)
    else
      match ChildValue(path, node, entry, fs)
      case Raised(err) => Raised(err)
      case Ok(x) => Ok(Set(node, Stem(entry.name), x))
  }

  /** `node[name].update(_add_file(join(path, fn)))`: the new dict under the
      entry's stem, starting from the dict already there or from `{}`. */
  function ChildValue(path: string, node: Pairs<Value>, entry: Entry, fs: FileSystem): Result<Value>
    decreases entry, 2, 0
  {
    var target := Get(node, Stem(entry.name)).GetOr(Dict(false, []));
    if !target.Dict? then Raised(AttributeError)
    else
      match Aggregate(JoinPath(path, entry.name), entry, fs)
      case Raised(err) => Raised(err)
      case Ok(child) =>
        match DictUpdate(target.members, child)
        case Raised(err) => Raised(err)
        case Ok(merged) => Ok(Dict(target.isXDict, merged))
  }

  /** The loop's next turn, as a lemma about `m + 1`. */
  lemma MergeEntriesNext(path: string, e: Entry, m: nat, fs: FileSystem)
    requires e.Dir? && m < |e.entries|
    ensures MergeEntries(path, e, m + 1, fs) ==
      match MergeEntries(path, e, m, fs)
      case Raised(err) => Raised(err)
      case Ok(node) => MergeChild(path, node, e.entries[m], fs)
  {
  }

  /** The stems of the first `n` entries other than `index.json`, in order. */
  function Stems(entries: seq<Entry>, n: nat): seq<string>
    requires n <= |entries|
  {
    if n == 0 then []
    else Stems(entries, n - 1) + (if entries[n - 1].name == IndexFile then [] else [Stem(entries[n - 1].name)])
  }

  /** Each turn of the loop either raises or assigns one key: the entry's stem. */
  lemma MergeNext(path: string, e: Entry, m: nat, fs: FileSystem)
    requires e.Dir? && m < |e.entries|
    requires MergeEntries(path, e, m + 1, fs).Ok?
    ensures MergeEntries(path, e, m, fs).Ok?
    ensures var node, entry := MergeEntries(path, e, m, fs).value, e.entries[m];
      var next := MergeEntries(path, e, m + 1, fs).value;
      (entry.name == IndexFile ==> next == node) &&
      (entry.name != IndexFile ==>
        ChildValue(path, node, entry, fs).Ok? &&
        next == Set(node, Stem(entry.name), ChildValue(path, node, entry, fs).value))
    ensures Stems(e.entries, m + 1) ==
      Stems(e.entries, m) + (if e.entries[m].name == IndexFile then [] else [Stem(e.entries[m].name)])
  {
    MergeEntriesNext(path, e, m, fs);
  }

  /** Once a turn raises, the whole loop raises the same exception. */
  lemma {:induction false} MergeStaysRaised(path: string, e: Entry, i: nat, n: nat, fs: FileSystem)
    requires e.Dir? && i <= n <= |e.entries| && MergeEntries(path, e, i, fs).Raised?
    ensures MergeEntries(path, e, n, fs) == MergeEntries(path, e, i, fs)
    decreases n
  {
    if n > i {
      MergeStaysRaised(path, e, i, n - 1, fs);
      MergeEntriesNext(path, e, n - 1, fs);
    }
  }

  // ---------------------------------------------------------------------
  // The keys of a directory node

  /** The keys after `n` entries: the index keys, in place, then the stems. */
  ghost predicate KeysAfter(path: string, e: Entry, n: nat, fs: FileSystem)
    requires e.Dir? && n <= |e.entries|
  {
    var r := MergeEntries(path, e, n, fs);
    r.Ok? ==>
      var index, ks := IndexNode(path, e.entries, fs).members, Keys(r.value);
      Keys(index) <= ks && forall k :: k in ks <==> k in Keys(index) || k in Stems(e.entries, n)
  }

  lemma {:induction false} MergeKeys(path: string, e: Entry, n: nat, fs: FileSystem)
    requires e.Dir? && n <= |e.entries|
    ensures KeysAfter(path, e, n, fs)
    decreases n
  {
    if n > 0 {
      var m := n - 1;
      assert KeysAfter(path, e, m, fs) by {
        MergeKeys(path, e, m, fs);
      }
      MergeKeysStep(path, e, m, fs);
    }
  }

  lemma MergeKeysStep(path: string, e: Entry, m: nat, fs: FileSystem)
    requires e.Dir? && m < |e.entries|
    requires KeysAfter(path, e, m, fs)
    ensures KeysAfter(path, e, m + 1, fs)
  {
    if MergeEntries(path, e, m + 1, fs).Ok? {
      MergeNext(path, e, m, fs);
    }
  }

  /**
   * A directory's keys are those of its `index.json`, in their places,
   * followed by the stem of every other entry, and `_info`.
   */
  lemma DirKeys(path: string, e: Entry, fs: FileSystem)
    requires e.Dir?
    ensures var r := Aggregate(path, e, fs);
      r.Ok? ==> (IndexNode(path, e.entries, fs).Dict? &&
        var index := IndexNode(path, e.entries, fs).members;
        Keys(index) <= Keys(r.value.members) &&
        forall k :: k in Keys(r.value.members) <==>
          k in Keys(index) || k in Stems(e.entries, |e.entries|) || k == InfoKey)
  {
    MergeKeys(path, e, |e.entries|, fs);
  }

  // ---------------------------------------------------------------------
  // The value under each key

  /**
   * One entry merged: its stem holds the old (or a fresh) dict updated with
   * the entry's own result, where a key of that result overwrites the same
   * key of the old dict; every other key is left alone.
   */
  lemma MergeChildGet(path: string, node: Pairs<Value>, entry: Entry, fs: FileSystem, k: string, j: string)
    requires entry.name != IndexFile && MergeChild(path, node, entry, fs).Ok?
    requires var child := Aggregate(JoinPath(path, entry.name), entry, fs);
      child.Ok? && child.value.Dict? && UniqueKeys(child.value.members)
    ensures var stem := Stem(entry.name);
      var target := Get(node, stem).GetOr(Dict(false, []));
      var child := Aggregate(JoinPath(path, entry.name), entry, fs).value.members;
      var r := MergeChild(path, node, entry, fs).value;
      target.Dict? &&
      Get(r, stem) == Some(Dict(target.isXDict, Update(target.members, child))) &&
      (k != stem ==> Get(r, k) == Get(node, k)) &&
      Get(Update(target.members, child), j) ==
        (if j in Keys(child) then Get(child, j) else Get(target.members, j))
  {
    var stem := Stem(entry.name);
    var target := Get(node, stem).GetOr(Dict(false, []));
    var child := Aggregate(JoinPath(path, entry.name), entry, fs).value.members;
    var x := Dict(target.isXDict, Update(target.members, child));
    assert MergeChild(path, node, entry, fs).value == Set(node, stem, x);
    SetGet(node, stem, x, stem);
    SetGet(node, stem, x, k);
    UpdateGet(target.members, child, j);
  }

  /** A key that no entry's stem names holds what `index.json` gave it. */
  predicate UntouchedAfter(path: string, e: Entry, n: nat, fs: FileSystem, k: string)
    requires e.Dir? && n <= |e.entries|
  {
    var r := MergeEntries(path, e, n, fs);
    r.Ok? && k !in Stems(e.entries, n) ==> Get(r.value, k) == Get(IndexNode(path, e.entries, fs).members, k)
  }

  lemma {:induction false} MergeUntouched(path: string, e: Entry, n: nat, fs: FileSystem, k: string)
    requires e.Dir? && n <= |e.entries|
    ensures UntouchedAfter(path, e, n, fs, k)
    decreases n
  {
    if n > 0 {
      var m := n - 1;
      assert UntouchedAfter(path, e, m, fs, k) by {
        MergeUntouched(path, e, m, fs, k);
      }
      UntouchedStep(path, e, m, fs, k);
    }
  }

  lemma UntouchedStep(path: string, e: Entry, m: nat, fs: FileSystem, k: string)
    requires e.Dir? && m < |e.entries|
    requires UntouchedAfter(path, e, m, fs, k)
    ensures UntouchedAfter(path, e, m + 1, fs, k)
  {
    var r := MergeEntries(path, e, m + 1, fs);
    if r.Ok? && k !in Stems(e.entries, m + 1) {
      MergeNext(path, e, m, fs);
      var node, entry := MergeEntries(path, e, m, fs).value, e.entries[m];
      if entry.name != IndexFile {
        SetGet(node, Stem(entry.name), ChildValue(path, node, entry, fs).value, k);
      }
    }
  }

  /**
   * When no entry is named `_info` (less its extension), the directory's
   * `_info` is the `_info` of its `index.json` (or `{}`) updated with the
   * directory's own file information.
   */
  lemma DirInfo(path: string, e: Entry, fs: FileSystem)
    requires e.Dir? && InfoKey !in Stems(e.entries, |e.entries|)
    ensures var r := Aggregate(path, e, fs);
      r.Ok? ==> (IndexNode(path, e.entries, fs).Dict? &&
        var info := Get(IndexNode(path, e.entries, fs).members, InfoKey).GetOr(Dict(false, []));
        info.Dict? &&
        Get(r.value.members, InfoKey) == Some(Dict(info.isXDict, Update(info.members, fs.fileInfo(path)))))
  {
    var r := Aggregate(path, e, fs);
    if r.Ok? {
      var index := IndexNode(path, e.entries, fs);
      var node := MergeEntries(path, e, |e.entries|, fs).value;
      assert Get(node, InfoKey) == Get(index.members, InfoKey) by {
        MergeUntouched(path, e, |e.entries|, fs, InfoKey);
      }
      var info := Get(index.members, InfoKey).GetOr(Dict(false, []));
      assert r.value.members == Set(node, InfoKey, Dict(info.isXDict, Update(info.members, fs.fileInfo(path))));
      SetGet(node, InfoKey, Dict(info.isXDict, Update(info.members, fs.fileInfo(path))), InfoKey);
    }
  }

  /** `_info.json` is merged under `_info`. */
  lemma InfoStem()
    ensures Stem(InfoKey + ".json") == InfoKey
  {
    var name := InfoKey + ".json";
    assert SplitExt(name).1 != "" by {
      assert name[5] == '.' && name[1] != '.';
    }
    assert '.' !in InfoKey;
  }

  /**
   * An entry whose stem is `_info`, when the `index.json` has an `_info`
   * dict: `info` is the very dict stored under `_info`, so the entry's
   * result is merged into it and the file information lands on top.
   */
  lemma DirInfoShared(path: string, e: Entry, fs: FileSystem, c: string, d: string,
                      x: bool, ms: Pairs<Value>, t: bool, a: Pairs<Value>, u: bool, b: Pairs<Value>)
    requires e.Dir? && e.entries == [File(IndexFile, c), File(InfoKey + ".json", d)]
    requires fs.plugin(JoinPath(path, IndexFile), c) == Dict(x, ms) && Get(ms, InfoKey) == Some(Dict(t, a))
    requires fs.plugin(JoinPath(path, InfoKey + ".json"), d) == Dict(u, b)
    ensures var r := Aggregate(path, e, fs);
      r.Ok? && Get(r.value.members, InfoKey) == Some(Dict(t, Update(Update(a, b), fs.fileInfo(path))))
  {
    var name := InfoKey + ".json";
    InfoStem();
    assert FindIndex(e.entries) == Some(c);
    assert MergeEntries(path, e, 0, fs) == Ok(ms);
    assert MergeEntries(path, e, 1, fs) == Ok(ms);
    var child := Aggregate(JoinPath(path, name), e.entries[1], fs);
    assert child == Ok(Dict(u, b));
    assert name != IndexFile;
    var entry := e.entries[1];
    assert Get(ms, Stem(entry.name)).GetOr(Dict(false, [])) == Dict(t, a);
    assert DictUpdate(a, Dict(u, b)) == Ok(Update(a, b));
    assert ChildValue(path, ms, entry, fs) == Ok(Dict(t, Update(a, b)));
    var merged := Set(ms, InfoKey, Dict(t, Update(a, b)));
    assert MergeChild(path, ms, entry, fs) == Ok(merged);
    MergeEntriesNext(path, e, 1, fs);
    assert MergeEntries(path, e, 2, fs) == Ok(merged);
    SetGet(ms, InfoKey, Dict(t, Update(a, b)), InfoKey);
    var final := Dict(t, Update(Update(a, b), fs.fileInfo(path)));
    SetGet(merged, InfoKey, final, InfoKey);
  }

  /**
   * When the `index.json` has no `_info`, `info` is a fresh `{}`: whatever
   * an entry whose stem is `_info` put under that key is replaced.
   */
  lemma DirInfoFresh(path: string, e: Entry, fs: FileSystem)
    requires e.Dir? && IndexNode(path, e.entries, fs).Dict? && InfoKey !in Keys(IndexNode(path, e.entries, fs).members)
    ensures var r := Aggregate(path, e, fs);
      r.Ok? ==> Get(r.value.members, InfoKey) == Some(Dict(false, Update([], fs.fileInfo(path))))
  {
    var r := Aggregate(path, e, fs);
    if r.Ok? {
      var node := MergeEntries(path, e, |e.entries|, fs).value;
      var info := Dict(false, Update([], fs.fileInfo(path)));
      assert r.value.members == Set(node, InfoKey, info);
      SetGet(node, InfoKey, info, InfoKey);
    }
  }

  /** While the index's `_info` is not a dict, no turn that succeeds changes it. */
  predicate InfoKeptAfter(path: string, e: Entry, n: nat, fs: FileSystem)
    requires e.Dir? && n <= |e.entries|
  {
    var r := MergeEntries(path, e, n, fs);
    var index := IndexNode(path, e.entries, fs);
    index.Dict? && r.Ok? ==>
      var info := Get(index.members, InfoKey);
      info.Some? && !info.value.Dict? ==> Get(r.value, InfoKey) == info
  }

  lemma {:induction false} InfoKept(path: string, e: Entry, n: nat, fs: FileSystem)
    requires e.Dir? && n <= |e.entries|
    ensures InfoKeptAfter(path, e, n, fs)
    decreases n
  {
    if n > 0 {
      var m := n - 1;
      InfoKept(path, e, m, fs);
      var r := MergeEntries(path, e, n, fs);
      if r.Ok? {
        MergeNext(path, e, m, fs);
        var node, entry := MergeEntries(path, e, m, fs).value, e.entries[m];
        if entry.name != IndexFile {
          SetGet(node, Stem(entry.name), ChildValue(path, node, entry, fs).value, InfoKey);
        }
      }
    }
  }

  /**
   * An `index.json` whose `_info` is not a dict: the directory always
   * raises, because `node['_info'].update` or `info.update` is called on
   * that value; when no earlier entry raised, it is `AttributeError`.
   */
  lemma BadInfo(path: string, e: Entry, fs: FileSystem)
    requires e.Dir? && IndexNode(path, e.entries, fs).Dict?
    requires var info := Get(IndexNode(path, e.entries, fs).members, InfoKey);
      info.Some? && !info.value.Dict?
    ensures Aggregate(path, e, fs).Raised?
    ensures MergeEntries(path, e, |e.entries|, fs).Ok? ==> Aggregate(path, e, fs) == Raised(AttributeError)
  {
    InfoKept(path, e, |e.entries|, fs);
  }

  /** An `index.json` that is not an object makes `node.get` fail. */
  lemma BadIndex(path: string, e: Entry, fs: FileSystem)
    requires e.Dir? && !IndexNode(path, e.entries, fs).Dict?
    ensures Aggregate(path, e, fs) == Raised(AttributeError)
  {
    MergeStaysRaised(path, e, 0, |e.entries|, fs);
  }

  /** Every directory node has the unique keys of a Python dict, when its
      `index.json` does. */
  predicate UniqueAfter(path: string, e: Entry, n: nat, fs: FileSystem)
    requires e.Dir? && n <= |e.entries|
  {
    var r := MergeEntries(path, e, n, fs);
    r.Ok? && UniqueKeys(IndexNode(path, e.entries, fs).members) ==> UniqueKeys(r.value)
  }

  lemma {:induction false} MergeUnique(path: string, e: Entry, n: nat, fs: FileSystem)
    requires e.Dir? && n <= |e.entries|
    ensures UniqueAfter(path, e, n, fs)
    decreases n
  {
    if n > 0 {
      var m := n - 1;
      assert UniqueAfter(path, e, m, fs) by {
        MergeUnique(path, e, m, fs);
      }
      UniqueStep(path, e, m, fs);
    }
  }

  lemma UniqueStep(path: string, e: Entry, m: nat, fs: FileSystem)
    requires e.Dir? && m < |e.entries|
    requires UniqueAfter(path, e, m, fs)
    ensures UniqueAfter(path, e, m + 1, fs)
  {
    if MergeEntries(path, e, m + 1, fs).Ok? {
      MergeNext(path, e, m, fs);
      var node, entry := MergeEntries(path, e, m, fs).value, e.entries[m];
      var index := IndexNode(path, e.entries, fs);
      if entry.name != IndexFile && UniqueKeys(index.members) {
        assert UniqueKeys(node);
        SetUnique(node, Stem(entry.name), ChildValue(path, node, entry, fs).value);
      }
    }
  }

  lemma DirUnique(path: string, e: Entry, fs: FileSystem)
    requires e.Dir? && IndexNode(path, e.entries, fs).Dict?
    requires UniqueKeys(IndexNode(path, e.entries, fs).members)
    ensures var r := Aggregate(path, e, fs); r.Ok? ==> UniqueKeys(r.value.members)
  {
    var r := Aggregate(path, e, fs);
    MergeUnique(path, e, |e.entries|, fs);
    if r.Ok? {
      var index := IndexNode(path, e.entries, fs);
      var node := MergeEntries(path, e, |e.entries|, fs).value;
      var info := if InfoKey in Keys(index.members) then Get(node, InfoKey).GetOr(Dict(false, [])) else Dict(false, []);
      SetUnique(node, InfoKey, Dict(info.isXDict, Update(info.members, fs.fileInfo(path))));
    }
  }

  // ---------------------------------------------------------------------
  // The loop itself

  /** Once a turn raises, `_add_file` raises the same exception. */
  lemma AggregateRaises(path: string, e: Entry, i: nat, fs: FileSystem)
    requires e.Dir? && i <= |e.entries| && MergeEntries(path, e, i, fs).Raised?
    ensures Aggregate(path, e, fs) == Raised(MergeEntries(path, e, i, fs).error)
  {
    MergeStaysRaised(path, e, i, |e.entries|, fs);
  }

  /** `_add_file(path)`: the recursive walk, updating `node` in place. */
  method AddFile(path: string, e: Entry, fs: FileSystem) returns (r: Result<Value>)
    ensures r == Aggregate(path, e, fs)
    decreases e
  {
    if e.File? {
      return Ok(fs.plugin(path, e.content));
    }
    var index := IndexNode(path, e.entries, fs);
    if !index.Dict? {
      AggregateRaises(path, e, 0, fs);
      return Raised(AttributeError);
    }
    var node := index.members;
    var hadInfo := InfoKey in Keys(node);
    for i := 0 to |e.entries|
      invariant MergeEntries(path, e, i, fs) == Ok(node)
    {
      var entry := e.entries[i];
      MergeEntriesNext(path, e, i, fs);
      if entry.name == IndexFile {
        continue;
      }
      var stem := Stem(entry.name);
      var before := node;
      if stem !in Keys(node) {
        node := Set(node, stem, Dict(false, []));
      }
      var target := Get(node, stem).value;
      assert target == Get(before, stem).GetOr(Dict(false, [])) by {
        if stem !in Keys(before) {
          SetGet(before, stem, Dict(false, []), stem);
        }
      }
      if !target.Dict? {
        AggregateRaises(path, e, i + 1, fs);
        return Raised(AttributeError);
      }
      var child := AddFile(JoinPath(path, entry.name), entry, fs);
      if child.Raised? {
        AggregateRaises(path, e, i + 1, fs);
        return Raised(child.error);
      }
      var merged := DictUpdate(target.members, child.value);
      if merged.Raised? {
        AggregateRaises(path, e, i + 1, fs);
        return Raised(merged.error);
      }
      node := Set(node, stem, Dict(target.isXDict, merged.value));
      assert node == Set(before, stem, Dict(target.isXDict, merged.value)) by {
        if stem !in Keys(before) {
          SetSet(before, stem, Dict(false, []), Dict(target.isXDict, merged.value));
        }
      }
    }
    var info := if hadInfo then Get(node, InfoKey).GetOr(Dict(false, [])) else Dict(false, []);
    if !info.Dict? {
      return Raised(AttributeError);
    }
    info := Dict(info.isXDict, Update(info.members, fs.fileInfo(path)));
    node := Set(node, InfoKey, info);
    return Ok(Dict(index.isXDict, node));
  }
}
