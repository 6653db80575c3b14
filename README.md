# xjson container, modelled in Dafny

This project models the `XJson` container class of `src/xjson.py`. The class
reads one JSON document, or a whole directory tree of them, into one nested
structure and rebuilds every dict as an `XDict`. It then offers four things
over that structure:

- dotted-path lookups and a table of named aliases for paths;
- an indented text dump, as pinned down by the examples in `tests/test_dump.py`;
- deep copies to and from plain dicts;
- clearing and rescanning.

The modules follow the parts of the class:

| module | file | what it holds |
|---|---|---|
| `Wrappers` | `wrappers.dfy` | `Option`, and `Result`, where a raised Python exception (`ValueError`, `TypeError`, `AttributeError`) is a value. |
| `OrderedDicts` | `ordered_dicts.dfy` | Python dicts as insertion-ordered key/value sequences: `d[k] = v` (`Set`), `d.get(k)` (`Get`), `d.update(o)` (`Update`). |
| `Text` | `text.dfy` | `str.split` and its inverse, `str(int)` and `int(str)`, `os.path.splitext` and `os.path.join`. |
| `Values` | `values.dfy` | The nested value: dicts that remember whether they are `XDict`s, lists, and scalar leaves. |
| `Normaliser` | `normaliser.dfy` | `create_structure` and its two helpers. |
| `Copier` | `copier.dfy` | `_copy_node`. |
| `Navigator` | `navigator.dfy` | `_get_value` and `get_value`. |
| `Dumper` | `dumper.dfy` | `dump`, `_dump_val`, `_dump_arr`, `_dump_obj` as text functions. |
| `Aggregator` | `aggregator.dfy` | `_add_file`: the directory merge over an abstract file system. |
| `Container` | `xjson.dfy` | The class `XJson` itself. Its `structure` and `aliases` fields are updated by its methods, which are proved against the functions of the modules above. It also holds `_scan` and the alias table. |
| `DumpExamples` | `dump_examples.dfy` | The five documents of `tests/test_dump.py` and their dumps, plus the container constructed on the single-file array example and dumped. |

The file system is a parameter, `Aggregator.FileSystem`, holding three functions:

- what is found at a path: `os.path.exists`, `os.path.isfile`, `os.listdir`;
- what the JSON plugin makes of a file's content: `_apply_plugins`;
- what `BaseFilePlugin.get_file_info` returns.

A Python exception is the `Raised` case of a `Result`, except in the few places listed under "## Left out", where a `requires` excludes it. For example, `dict.update` of a number or of a non-empty string and `node.get` on an `index.json` that is a list both come back as `Raised`.

Behaviour of the code worth noting:

- `get_value("")` is not the root. `"".split('.')` is `[""]`, so the empty path is one empty segment (`Navigator.EmptyPathIsNotRoot`).
- The `_info` of a directory's `index.json` is not removed. `node.get(_info, {})` reads it, and the same object is updated and stored back under `_info` (`Aggregator.DirInfo`).
- An entry whose name without its extension is `_info` depends on the index. If the index has an `_info` dict, the entry is merged into that same dict and the file information is added on top (`Aggregator.DirInfoShared`). If the index has no `_info`, `info` is a separate `{}`, and storing it under `_info` throws the entry's result away (`Aggregator.DirInfoFresh`). If the index's `_info` is not a dict, the directory raises, with `AttributeError` when no entry raised first (`Aggregator.BadInfo`).
- `dump` never passes its `exclude_info` argument on. So every nested dict is dumped with the default, which skips `_info`.
- `refresh` does not rebuild the alias table.
- `clear` leaves a plain `{}`, under which no path can be looked up (`Navigator.PlainDictMisses`).

## Model

| member | source | states |
|---|---|---|
| Text.Split | src/xjson.py:147 | `path.split('.')` gives at least one part, and no part contains a dot |
| Text.JoinSplit | src/xjson.py:147 | joining the parts of a split with the separator gives the original string back |
| Text.SplitJoin | src/xjson.py:147 | splitting dot-free segments joined with dots gives exactly those segments |
| Text.SplitConcat | src/xjson.py:147 | splitting `a + "." + b` is splitting `a`, then splitting `b` |
| Text.ParseIntToString | src/xjson.py:141 | `int(str(i)) == i` for every integer, negatives included |
| Text.ParseInt | src/xjson.py:141 | `int(name)` on ASCII text: it succeeds exactly when the text is one or more digits, with an optional leading sign, and a negative result comes only after a minus sign |
| Text.IntToString | src/xjson.py:167 | definition of `str(i)`; `Text.IntToStringDigits` states its shape and `Text.ParseIntToString` its inverse |
| Text.IntToStringDigits | src/xjson.py:167 | `str(i)` is at least one character, begins with `-` exactly when `i` is negative, and is otherwise all digits |
| Text.ParseIntRejects | src/xjson.py:141 | a segment with a character that is neither a digit nor a leading sign is refused by the model's ASCII `int()` |
| Text.SplitExt | src/xjson.py:105 | `os.path.splitext`: stem and extension concatenate to the name; a non-empty extension is a dot followed by no dot, after a stem that is not all dots; the extension is empty exactly when every dot of the name is in its leading run of dots |
| Text.JoinPath | src/xjson.py:94 | `os.path.join`: an absolute name replaces the directory; otherwise an empty directory or one ending in `/` is followed directly by the name, and any other directory is joined to the name with one `/` |
| OrderedDicts.SetGet | src/xjson.py:77 | after `d[k] = v`, `k` holds `v` and every other key keeps its value |
| OrderedDicts.SetUnique | src/xjson.py:77 | assignment keeps a dict's keys unique |
| OrderedDicts.UpdateKeys | src/xjson.py:108 | `d.update(o)` keeps `d`'s keys in place, and afterwards a key is present exactly when it was in `d` or in `o` |
| OrderedDicts.UpdateUnique | src/xjson.py:108 | `d.update(o)` keeps the keys unique |
| OrderedDicts.UpdateGet | src/xjson.py:108 | after `d.update(o)` a key of `o` holds `o`'s value and every other key keeps `d`'s |
| OrderedDicts.Get | src/xjson.py:100 | `d.get(k)` finds a value exactly when `k` is a key, and the value found is paired with `k` in the dict |
| OrderedDicts.Set | src/xjson.py:77 | `d[k] = v` keeps the keys in place when `k` is already a key, and appends `k` otherwise; `OrderedDicts.SetGet` states the values |
| OrderedDicts.Update | src/xjson.py:108 | definition of `d.update(o)` as one assignment per pair of `o`, in order; its properties are `OrderedDicts.UpdateKeys`, `UpdateUnique` and `UpdateGet` |
| Normaliser.Normalize | src/xjson.py:80-87 | a dict stays a dict, a list stays a list of the same length, and a scalar is returned as it is |
| Normaliser.NormalizeInvariants | src/xjson.py:73-87 | for any input, the result of `create_structure` has unique keys in every dict, and every dict is an `XDict` |
| Normaliser.NormalizeKeepsShape | src/xjson.py:67-87 | apart from the `XDict` tags, the result equals its input: the same keys in the same order, the same list lengths, the same scalars |
| Normaliser.NormalizeFixpoint | src/xjson.py:80-87 | a well-formed structure made of `XDict`s is returned unchanged |
| Normaliser.NormalizeIdempotent | src/xjson.py:80-87 | applying `create_structure` twice gives what applying it once gives |
| Normaliser.CreateStructure | src/xjson.py:80-87 | the dispatching method returns `Normalize(data)` for every input, whose properties are the lemmas above |
| Normaliser.CreateStructureByList | src/xjson.py:67-71 | the appending loop returns `Normalize(data)` for a list |
| Normaliser.CreateStructureByDict | src/xjson.py:73-78 | the assigning loop returns `Normalize(data)` for a dict |
| Copier.Copy | src/xjson.py:200-217 | a dict copies to a dict, a list to a list of the same length, and a scalar value is taken as it is |
| Copier.CopyInvariants | src/xjson.py:200-217 | every copy is made of plain dicts with unique keys, and holds no `_info` key at any level when `exclude_info` is set |
| Copier.CopyMembersKeys | src/xjson.py:204-210 | the copy of a dict holds its source's keys in their order, less `_info` when it is excluded |
| Copier.CopyMembersGet | src/xjson.py:204-210 | each key the copy keeps holds the copy of the source's value under that key |
| Copier.CopyIsStructurallyEqual | src/xjson.py:200-217 | with `exclude_info` false, the copy equals its source up to the `XDict` tags |
| Copier.CopyFixpoint | src/xjson.py:200-217 | a value that is already a plain copy is copied to itself |
| Copier.CopyIdempotent | src/xjson.py:200-217 | copying a copy gives the copy again |
| Copier.CopyNode | src/xjson.py:200-217 | the looping method on a dict or a list returns `Copy(node, exclude_info)` |
| Navigator.GetValueAt | src/xjson.py:133-144 | the empty path returns the node itself, and the only exception a lookup can raise is `ValueError` |
| Navigator.GetDotted | src/xjson.py:146-147 | `get_value` on a node: the only exception is `ValueError`, and a path without a dot is the one-segment walk |
| Navigator.PathConcat | src/xjson.py:133-144 | walking `p + q` is walking `p` and then walking `q` from what was found; a miss or an error along `p` is the result of the whole walk |
| Navigator.KeyHit | src/xjson.py:137-139 | a segment naming a key of an `XDict` descends into that key's value |
| Navigator.KeyMiss | src/xjson.py:137-144 | a key an `XDict` lacks returns `None`, whatever follows |
| Navigator.ScalarMiss | src/xjson.py:133-144 | a scalar with path segments left returns `None`, whatever the segments |
| Navigator.PlainDictMisses | src/xjson.py:137-144 | under a plain dict every path returns `None`: only `XDict`s are descended |
| Navigator.IndexLookup | src/xjson.py:140-143 | segment `str(i)` on a list returns element `i` when `0 <= i < len`, and `None` otherwise, negative indices included |
| Navigator.NotAnIndex | src/xjson.py:140-141 | a segment the model's ASCII `int()` refuses, used on a list, raises `ValueError` |
| Navigator.DottedJoin | src/xjson.py:146-147 | `get_value` on dot-free segments joined by dots walks exactly those segments |
| Navigator.EmptyPathIsNotRoot | src/xjson.py:146-147 | the empty path is the one segment `""`: a miss on an `XDict` without that key, and `ValueError` on a list |
| Navigator.AllXDictResolves | src/xjson.py:133-144 | on a structure made of `XDict`s, the lookup is the tag-blind walk `Resolve` |
| Navigator.NavigateNormalized | src/xjson.py:133-144 | after `create_structure`, a lookup finds the normalised form of what the tag-blind walk finds in the source, and misses and errors where that walk does |
| Values.AtomText | src/xjson.py:161 | definition of `str(value)` for a scalar: `None`, `True`, `False`, the decimal integer, the string itself, and a float's text; `Values.AtomTextParse` states what it means |
| Values.AtomTextParse | src/xjson.py:161 | an integer prints as a literal that `int()` reads back as that integer, and `None`, `True` and `False` print as text that is not an integer |
| Dumper.DumpVal | src/xjson.py:160-161 | definition of the scalar line: the indent, `key: ` for a non-empty key, `str(value)`, a line break; its shape is stated by `Dumper.DumpValLine` |
| Dumper.DumpValLine | src/xjson.py:160-161 | a scalar prints as one line: it starts with the indent, ends with `str(value)` and a line break, and holds no other line break when the indent, the key and the value hold none |
| Dumper.DumpText | src/xjson.py:186-198 | every dump starts with the indent it was given; otherwise the definition of `dump` dispatching on list, dict and scalar, whose properties are the lemmas below and the examples |
| Dumper.DumpItems | src/xjson.py:163-172 | definition: the text `_dump_arr`'s loop has accumulated after `n` elements, element `i` dumped under `#i` one level deeper; `Container.XJson.DumpArr` is proved against it |
| Dumper.DumpMembers | src/xjson.py:174-184 | definition: the text `_dump_obj`'s loop has accumulated after `n` keys, `_info` skipped when asked; `Container.XJson.DumpObj` is proved against it, `Dumper.InfoOnlyMembers` states when it is empty |
| Dumper.DumpIgnoresTags | src/xjson.py:186-198 | the dump depends on keys, order, lengths and scalars only, never on whether a dict is an `XDict` |
| Dumper.DumpNormalized | src/xjson.py:186-198 | `create_structure` does not change what `dump` prints |
| Dumper.DumpCopy | src/xjson.py:223 | a structure copied by `copy_from` prints as its source does |
| Dumper.DumpCopyExcludingInfo | src/xjson.py:230-231 | the result of `to_dict()`, which drops `_info`, prints as the structure does |
| Dumper.InfoOnlyMembers | src/xjson.py:177-179 | keys that are all `_info` print nothing |
| Dumper.InfoOnlyDict | src/xjson.py:174-184 | a dict whose only keys are `_info`, dumped under an empty key, prints its bare indent |
| Dumper.EmptyKeyLeavesIndent | src/xjson.py:183 | a nested container under the empty key `""` prints no line of its own, only its indent, so the next line looks nested one level deeper |
| Aggregator.FindIndex | src/xjson.py:94-96 | a directory has an index exactly when one of its entries is a file named `index.json`, and the index content is that file's content |
| Aggregator.IndexNode | src/xjson.py:94-98 | definition: the plugin's reading of `index.json`, or `{}` when there is none; `Aggregator.BadIndex` states what a non-dict index does |
| Aggregator.DictUpdate | src/xjson.py:108 | `target.update(child)`: it raises only `TypeError` or `ValueError`, it keeps every key of the target, and a non-dict child that is accepted (an empty list or string) changes nothing |
| Aggregator.Aggregate | src/xjson.py:90-113 | a file is what the plugin reads from it, and a directory that merges without an error is a dict with an `_info` key |
| Aggregator.Finish | src/xjson.py:110-111 | the finished directory node is a dict holding `_info`; `Aggregator.DirInfo` states its value |
| Aggregator.MergeEntries | src/xjson.py:102-108 | definition of the loop after `n` entries; a loop that raises nothing started from a dict index; its properties are `Aggregator.MergeKeys`, `MergeUntouched`, `MergeUnique` and `MergeStaysRaised` |
| Aggregator.MergeChild | src/xjson.py:102-108 | definition of one loop turn: `index.json` is skipped, any other entry is assigned under its stem; `Aggregator.MergeChildGet` states the result |
| Aggregator.ChildValue | src/xjson.py:106-108 | definition of `node[name].update(_add_file(...))`: the dict under the stem (or `{}`) updated with the entry's result, `AttributeError` when the value there is not a dict |
| Aggregator.MergeStaysRaised | src/xjson.py:102-108 | once a turn raises, the loop ends with that exception |
| Aggregator.MergeKeys | src/xjson.py:102-108 | after `n` entries, the node holds the index's keys in their places, and a key is present exactly when it is an index key or the stem of one of those entries |
| Aggregator.DirKeys | src/xjson.py:90-113 | a directory's keys are its index's keys in place, and a key is present exactly when it is an index key, the stem of an entry other than `index.json`, or `_info` |
| Aggregator.MergeChildGet | src/xjson.py:106-108 | merging an entry puts under its stem the dict already there (or `{}`) updated with the entry's own result, where the entry's keys win, and leaves every other key alone |
| Aggregator.MergeUntouched | src/xjson.py:102-108 | a key that no entry's stem names keeps the value `index.json` gave it |
| Aggregator.DirInfo | src/xjson.py:100-111 | when no entry's stem is `_info`, the directory's `_info` is the index's own `_info` (or `{}`) updated with the directory's file information |
| Aggregator.DirInfoShared | src/xjson.py:100-111 | in a directory holding just an `index.json` whose `_info` is the dict A and an `_info.json` that reads as the dict B, the directory's `_info` is A updated with B, then with the file information: `info` is the very dict stored under `_info` |
| Aggregator.DirInfoFresh | src/xjson.py:100-111 | when the `index.json` has no `_info`, the directory's `_info` is `{}` updated with the file information alone, whatever an entry whose stem is `_info` merged |
| Aggregator.BadIndex | src/xjson.py:96-100 | an `index.json` that is not an object makes the directory raise `AttributeError` |
| Aggregator.InfoKept | src/xjson.py:100-108 | while the index's `_info` is not a dict, every turn of the loop that succeeds leaves it in place, because a turn for an `_info` entry raises |
| Aggregator.BadInfo | src/xjson.py:100-111 | an `index.json` whose `_info` is not a dict makes the directory raise, and the exception is `AttributeError` when the loop itself did not raise |
| Aggregator.DirUnique | src/xjson.py:90-113 | when the index's keys are unique, so are the directory node's |
| Aggregator.AggregateRaises | src/xjson.py:102-108 | an exception raised by any turn of the loop is what `_add_file` raises |
| Aggregator.AddFile | src/xjson.py:90-113 | the recursive method, which updates the node turn by turn, returns `Aggregate` of its entry, whose properties are the lemmas above |
| Container.Locate | src/xjson.py:59-63 | a scan finds nothing exactly when neither `name` nor `name + ".json"` exists; it prefers `name`, and otherwise takes `name + ".json"` |
| Container.Scanned | src/xjson.py:57-64 | a missing path loads nothing, and a loaded structure is made of `XDict`s with unique keys |
| Container.AliasesFrom | src/xjson.py:39-41 | the last name assigned maps to its path, so a later name overwrites an earlier one; `Container.AliasesFromDomain` and `AliasesFromLookup` state the whole table |
| Container.AliasesLoad | src/xjson.py:36-37 | definition of when `if _aliases in structure: _add_aliases(structure[_aliases])` raises nothing; the constructor requires it |
| Container.AliasesFromDomain | src/xjson.py:39-41 | the table `_add_aliases` builds has exactly the names of its input |
| Container.AliasesFromLookup | src/xjson.py:39-41 | each name maps to `path + "." + target`, or to `target` alone under the empty path |
| Container.AliasPathWalk | src/xjson.py:39-41 | looking up an alias recorded under a non-empty `path` walks the path, then the target from there; `__init__` itself only ever passes the empty path, for which `Container.AliasLookup` states the lookup |
| Container.XJson.constructor | src/xjson.py:29-37 | an empty name gives an empty `XDict` and no aliases; otherwise the scanned structure (an empty `XDict` if nothing was found) and the aliases of its `_aliases` table |
| Container.XJson.AddAliases | src/xjson.py:39-41 | the alias table becomes the old table overwritten by one entry per name of the input |
| Container.XJson.Scan | src/xjson.py:57-64 | the structure becomes the new scan, or stays as it was when nothing exists at the path or the scan raises, and the method reports which happened |
| Container.XJson.Clear | src/xjson.py:125-127 | the structure becomes a plain empty dict and the aliases become empty |
| Container.XJson.Refresh | src/xjson.py:129-131 | clears, then scans again; the aliases stay empty |
| Container.XJson.GetValue | src/xjson.py:146-147 | `get_value` raises only `ValueError`, and finds nothing under a plain dict such as the one `clear` leaves |
| Container.XJson.Alias | src/xjson.py:150-153 | `alias` raises only `ValueError`, and gives `None` for an unknown name or under a plain dict; `Container.AliasLookup` states the known case |
| Container.XJson.Dump | src/xjson.py:186-198 | prints `DumpText` of the node, or of the structure for `None` |
| Container.XJson.DumpArr | src/xjson.py:163-172 | the loop over a list prints `DumpText` of the list |
| Container.XJson.DumpObj | src/xjson.py:174-184 | the loop over a dict prints the header, then each member (skipping `_info` when asked), which is `DumpText` of the dict when `_info` is skipped |
| Container.XJson.ToDict | src/xjson.py:230-231 | returns `Copy` of the structure |
| Container.XJson.FromDict | src/xjson.py:226-228 | the structure becomes the given value |
| Container.XJson.CopyFrom | src/xjson.py:220-224 | the structure becomes the copy, made without exclusion, of the source's structure |
| Container.AliasLookup | src/xjson.py:150-153 | with the aliases of a top-level table, `alias(k)` is `get_value` of `k`'s target when `k` is a name of the table, and `None` otherwise |
| DumpExamples.EmptyFile | tests/test_dump.py:9-10 | an empty document dumps to the empty text |
| DumpExamples.SingleFileObject | tests/test_dump.py:12-13 | the three-key object dumps to its three lines |
| DumpExamples.SingleFileObjArr | tests/test_dump.py:15-16 | the object with a nested array dumps to the expected seven lines |
| DumpExamples.SingleFileArray | tests/test_dump.py:18-19 | the three-element array dumps to its three `#i` lines |
| DumpExamples.SingleFileArrObj | tests/test_dump.py:21-22 | the array of three objects dumps to the expected nine lines |
| DumpExamples.ArrayFileScans | tests/test_dump.py:5-6 | scanning the path of the array example, found only as `name + ".json"`, loads the document |
| DumpExamples.DumpSingleFileArray | tests/test_dump.py:5-7 | constructing the container on the array example and calling `dump()` gives the expected text |

## Left out

- Plugin loading (`_load_plugins`, `_required_plugins`) and the `options` property are left out. What a plugin makes of a file is the `plugin` function of the file system.
- `_apply_plugins` and JSON parsing are left out. They are that same `plugin` function, and a parse error is not modelled.
- `os.path.exists`, `isfile` and `listdir` are not modelled. They are the `lookup` function, which returns an entry tree whose directory listings come in `listdir` order.
- `BaseFilePlugin.get_file_info` is left out. It is the `fileInfo` function, and its content is not modelled.
- An `index.json` that is a directory is treated as absent, so the directory starts from `{}`. Python's plugin would fail to open it. As in the code, such an entry is still skipped by the merge loop.
- Text.ParseInt: `int()` is modelled only for an ASCII sign and digits. Surrounding whitespace, `_` separators and non-ASCII digits are treated as refused.
- Floats are scalars carrying their `str()` text, with no arithmetic.
- The example documents that `tests/test_dump.py` loads are not part of this model. Their contents are written back from the expected dumps, and `empty_file` is taken to be the empty object `{}`.
- `InfoKey` is taken to be `"_info"`. The constant comes from `plugins/base_file`, which is not part of this model.
- `__str__` only calls `dump()`, so it is not modelled separately.
- Container.XJson.Dump: the `short` and `exclude_info` arguments of `dump` are dropped. `short` is never read, and `exclude_info` is never passed on.
- Container.XJson.Dump requires that no `None` leaf occurs in the structure or the node. `dump(None)` prints the whole structure, so a nested `None` leaf would print the structure again inside the text. The model does not follow that recursion.
- Container.XJson.ToDict, Container.XJson.CopyFrom and Copier.CopyNode require a dict or a list. `_copy_node` on a scalar iterates it as a list, which the model does not capture.
- Copier.Copy: `copy.deepcopy` and `_copy_node` are modelled as values. Sharing and aliasing of the copied objects are not modelled.
- Container.XJson.FromDict and Container.XJson.CopyFrom do not return `self`. They model the update of `structure` only, and `copy_from` does not copy the options.
- Container.XJson.constructor requires that the scan raises nothing and that the `_aliases` table loads. When either raises, Python creates no object at all. The error cases are stated by `Container.Scanned` and `Container.AliasesLoad`.
- Container.XJson.AddAliases requires every value of the table to be a string. For any other value, `path + ... + aliases[name]` raises `TypeError`.
- Container.AliasesLoad: a non-empty list under `_aliases` is treated as failing. `_add_aliases` uses each element as an index into the list. A string index raises `TypeError`. An integer index out of range raises `IndexError`. An integer index in range reaches an element that would need to be a string to be concatenated; but that string is itself an element, and as an index it raises `TypeError`. So no non-empty list loads.
- Python's `==` on dicts ignores key order. The model compares ordered pairs, so its equalities are stronger than Python's.
- Aggregator.DictUpdate: `dict.update` with a non-empty list raises `TypeError` in the model. Python accepts a list of two-element sequences, such as `[["a", 1]]` or `["ab"]`, and assigns their pairs.
