/**
 * The texts `dump()` gives for the example documents of the test suite,
 * each read from a single `.json` file. The expected texts are written line
 * by line, grouped as the dump builds them.
 */
module DumpExamples {
  import opened Wrappers
  import opened OrderedDicts
  import opened Text
  import opened Values
  import opened Normaliser
  import opened Dumper
  import opened Aggregator
  import opened Container

  function S(s: string): Value
  {
    Scalar(Str(s))
  }

  /** `{"name1": "value1", "name2": "value2", "name3": "value3"}` */
  function ObjectDoc(): Value
  {
    Dict(false, [("name1", S("value1")), ("name2", S("value2")), ("name3", S("value3"))])
  }

  /** The object above with `"arr": ["element1", "element2", "element3"]` added. */
  function ObjArrDoc(): Value
  {
    Dict(false, ObjectDoc().members + [("arr", ArrayDoc())])
  }

  /** `["element1", "element2", "element3"]` */
  function ArrayDoc(): Value
  {
    List([S("element1"), S("element2"), S("element3")])
  }

  /** Three objects with a `name` and a `title` each. */
  function ArrObjDoc(): Value
  {
    List([
      Dict(false, [("name", S("object1")), ("title", S("Object one"))]),
      Dict(false, [("name", S("object1")), ("title", S("Object two"))]),
      Dict(false, [("name", S("object3")), ("title", S("Object three"))])])
  }

  // ---------------------------------------------------------------------
  // Dumping, piece by piece

  /** The line `indent + key + ": " + s + "\n"`. */
  function Line(indent: string, key: string, s: string): string
  {
    indent + key + ": " + s + "\n"
  }

  lemma Labels()
    ensures Label(0) == "#0" && Label(1) == "#1" && Label(2) == "#2"
  {
    assert NatToString(0) == "0" && NatToString(1) == "1" && NatToString(2) == "2";
  }

  /** A string leaf under a key is one line. */
  lemma StrLine(s: string, key: string, indent: string)
    requires key != ""
    ensures DumpText(S(s), key, indent) == Line(indent, key, s)
  {
  }

  /** The top level of a dump carries no header and no indent of its own. */
  lemma TopLevel(v: Value)
    requires !v.Scalar?
    ensures v.Dict? ==> DumpText(v, "", "") == DumpMembers(v, |v.members|, ". ", true)
    ensures v.List? ==> DumpText(v, "", "") == DumpItems(v, |v.items|, ". ")
  {
    assert "" + Header("") == "" && "" + ". " == ". ";
  }

  /** A list under a key: its header line, then its elements one level deeper. */
  lemma ListText(v: Value, key: string, indent: string)
    requires v.List?
    ensures DumpText(v, key, indent) == indent + Header(key) + DumpItems(v, |v.items|, indent + ". ")
  {
  }

  /** A three-element list, element by element. */
  lemma ThreeItems(v: Value, indent: string)
    requires v.List? && |v.items| == 3
    ensures DumpItems(v, 3, indent) ==
      DumpText(v.items[0], "#0", indent) + DumpText(v.items[1], "#1", indent) + DumpText(v.items[2], "#2", indent)
  {
    Labels();
    assert DumpItems(v, 1, indent) == "" + DumpText(v.items[0], "#0", indent);
    assert "" + DumpText(v.items[0], "#0", indent) == DumpText(v.items[0], "#0", indent);
    assert DumpItems(v, 2, indent) == DumpItems(v, 1, indent) + DumpText(v.items[1], "#1", indent);
  }

  /** The first two members of a dict without `_info`, member by member. */
  lemma TwoMembers(v: Value, indent: string)
    requires v.Dict? && 2 <= |v.members| && v.members[0].0 != InfoKey && v.members[1].0 != InfoKey
    ensures DumpMembers(v, 2, indent, true) ==
      DumpText(v.members[0].1, v.members[0].0, indent) + DumpText(v.members[1].1, v.members[1].0, indent)
  {
    var first := DumpText(v.members[0].1, v.members[0].0, indent);
    assert DumpMembers(v, 1, indent, true) == "" + first;
    assert "" + first == first;
  }

  /** The three `nameN: valueN` lines of a dict that starts like `ObjectDoc`. */
  lemma ObjectLines(v: Value)
    requires v.Dict? && |v.members| >= 3 && v.members[..3] == ObjectDoc().members
    ensures DumpMembers(v, 3, ". ", true) ==
      Line(". ", "name1", "value1") + Line(". ", "name2", "value2") + Line(". ", "name3", "value3")
  {
    assert v.members[0] == ("name1", S("value1"));
    assert v.members[1] == ("name2", S("value2"));
    assert v.members[2] == ("name3", S("value3"));
    TwoMembers(v, ". ");
    StrLine("value1", "name1", ". ");
    StrLine("value2", "name2", ". ");
    StrLine("value3", "name3", ". ");
  }

  /** The three `#i: elementN` lines, at any depth. */
  lemma ArrayLines(indent: string)
    ensures DumpItems(ArrayDoc(), 3, indent) ==
      Line(indent, "#0", "element1") + Line(indent, "#1", "element2") + Line(indent, "#2", "element3")
  {
    var v := ArrayDoc();
    ThreeItems(v, indent);
    StrLine("element1", "#0", indent);
    StrLine("element2", "#1", indent);
    StrLine("element3", "#2", indent);
  }

  /** One of the objects of `ArrObjDoc`, as element `tag`. */
  lemma ObjectItem(d: Value, tag: string, name: string, title: string)
    requires tag != "" && d == Dict(false, [("name", S(name)), ("title", S(title))])
    ensures DumpText(d, tag, ". ") == ". " + Header(tag) + (Line(". . ", "name", name) + Line(". . ", "title", title))
  {
    assert ". " + ". " == ". . ";
    TwoMembers(d, ". . ");
    StrLine(name, "name", ". . ");
    StrLine(title, "title", ". . ");
  }

  lemma DocsWellFormed()
    ensures WellFormed(ObjectDoc()) && WellFormed(ArrayDoc())
  {
    assert Keys(ObjectDoc().members) == ["name1", "name2", "name3"];
  }

  lemma ObjArrWellFormed()
    ensures WellFormed(ObjArrDoc())
  {
    assert Keys(ObjArrDoc().members) == ["name1", "name2", "name3", "arr"];
    assert WellFormed(ArrayDoc());
  }

  lemma ArrObjWellFormed()
    ensures WellFormed(ArrObjDoc())
  {
    var v := ArrObjDoc();
    assert Keys(v.items[0].members) == ["name", "title"];
    assert Keys(v.items[1].members) == ["name", "title"];
    assert Keys(v.items[2].members) == ["name", "title"];
  }

  // The single lines of the expected texts. Each equality between a built
  // line and its literal is stated on its own, in a lemma of two or three
  // facts, so that the proofs of the whole texts below only combine them and
  // never unfold string literals themselves.

  lemma ValueLines12()
    ensures Line(". ", "name1", "value1") == ". name1: value1\n"
    ensures Line(". ", "name2", "value2") == ". name2: value2\n"
  {
  }

  lemma ValueLine3()
    ensures Line(". ", "name3", "value3") == ". name3: value3\n"
  {
  }

  lemma ElementLines01(indent: string)
    requires indent == ". " || indent == ". . "
    ensures Line(indent, "#0", "element1") == indent + "#0: element1\n"
    ensures Line(indent, "#1", "element2") == indent + "#1: element2\n"
  {
  }

  lemma ElementLine2(indent: string)
    requires indent == ". " || indent == ". . "
    ensures Line(indent, "#2", "element3") == indent + "#2: element3\n"
  {
  }

  lemma TopElementTexts()
    ensures ". " + "#0: element1\n" == ". #0: element1\n"
    ensures ". " + "#1: element2\n" == ". #1: element2\n"
    ensures ". " + "#2: element3\n" == ". #2: element3\n"
  {
  }

  lemma NestedElementTexts()
    ensures ". . " + "#0: element1\n" == ". . #0: element1\n"
    ensures ". . " + "#1: element2\n" == ". . #1: element2\n"
    ensures ". . " + "#2: element3\n" == ". . #2: element3\n"
  {
  }

  lemma NestedHeaders()
    ensures ". " + ". " == ". . "
    ensures ". " + Header("arr") == ". arr: \n"
    ensures ". " + Header("#0") == ". #0: \n"
    ensures ". " + Header("#1") == ". #1: \n"
    ensures ". " + Header("#2") == ". #2: \n"
  {
  }

  lemma NameLines()
    ensures Line(". . ", "name", "object1") == ". . name: object1\n"
    ensures Line(". . ", "name", "object3") == ". . name: object3\n"
  {
  }

  lemma TitleLines12()
    ensures Line(". . ", "title", "Object one") == ". . title: Object one\n"
    ensures Line(". . ", "title", "Object two") == ". . title: Object two\n"
  {
  }

  lemma TitleLine3()
    ensures Line(". . ", "title", "Object three") == ". . title: Object three\n"
  {
  }

  // ---------------------------------------------------------------------
  // The expected texts

  /** An empty document prints nothing at all. */
  lemma EmptyFile()
    ensures DumpText(Normalize(Dict(false, [])), "", "") == ""
  {
    InfoOnlyDict(true, [], "");
  }

  /** One line per key, one level deep. */
  lemma SingleFileObject()
    ensures DumpText(Normalize(ObjectDoc()), "", "") ==
      ". name1: value1\n" + ". name2: value2\n" + ". name3: value3\n"
  {
    var v := ObjectDoc();
    DocsWellFormed();
    DumpNormalized(v, "", "");
    TopLevel(v);
    ObjectPrefixes();
    ObjectText(v);
  }

  /** Both object documents start with the three pairs of `ObjectDoc`. */
  lemma ObjectPrefixes()
    ensures ObjectDoc().members[..3] == ObjectDoc().members
    ensures ObjArrDoc().members[..3] == ObjectDoc().members
  {
  }

  /** The three value lines of a dict that starts like `ObjectDoc`, as literals. */
  lemma ObjectText(v: Value)
    requires v.Dict? && |v.members| >= 3 && v.members[..3] == ObjectDoc().members
    ensures DumpMembers(v, 3, ". ", true) == ". name1: value1\n" + ". name2: value2\n" + ". name3: value3\n"
  {
    ObjectLines(v);
    ValueLines12();
    ValueLine3();
  }

  /** A list member opens with its key and an empty value, its elements one
      level deeper. */
  lemma SingleFileObjArr()
    ensures DumpText(Normalize(ObjArrDoc()), "", "") ==
      ". name1: value1\n" + ". name2: value2\n" + ". name3: value3\n" +
      (". arr: \n" + (". . #0: element1\n" + ". . #1: element2\n" + ". . #2: element3\n"))
  {
    var v := ObjArrDoc();
    ObjArrWellFormed();
    DumpNormalized(v, "", "");
    TopLevel(v);
    ObjArrLast();
    ObjectPrefixes();
    ObjectText(v);
    ArrMember();
  }

  /** The last member of `ObjArrDoc` is the list under `arr`. */
  lemma ObjArrLast()
    ensures DumpMembers(ObjArrDoc(), 4, ". ", true) ==
      DumpMembers(ObjArrDoc(), 3, ". ", true) + DumpText(ArrayDoc(), "arr", ". ")
  {
    var v := ObjArrDoc();
    assert v.members[3] == ("arr", ArrayDoc());
  }

  /** The `arr` member of `ObjArrDoc`: its header line, then its elements one level deeper. */
  lemma ArrMember()
    ensures DumpText(ArrayDoc(), "arr", ". ") ==
      ". arr: \n" + (". . #0: element1\n" + ". . #1: element2\n" + ". . #2: element3\n")
  {
    ListText(ArrayDoc(), "arr", ". ");
    NestedHeaders();
    ArrayLines(". . ");
    ElementLines01(". . ");
    ElementLine2(". . ");
    NestedElementTexts();
  }

  /** List elements are labelled `#0`, `#1`, ... */
  lemma SingleFileArray()
    ensures DumpText(Normalize(ArrayDoc()), "", "") ==
      ". #0: element1\n" + ". #1: element2\n" + ". #2: element3\n"
  {
    var v := ArrayDoc();
    DocsWellFormed();
    DumpNormalized(v, "", "");
    TopLevel(v);
    ArrayLines(". ");
    ElementLines01(". ");
    ElementLine2(". ");
    TopElementTexts();
  }

  /** Objects inside a list: a labelled header line, then their keys. */
  lemma SingleFileArrObj()
    ensures DumpText(Normalize(ArrObjDoc()), "", "") ==
      (". #0: \n" + (". . name: object1\n" + ". . title: Object one\n")) +
      (". #1: \n" + (". . name: object1\n" + ". . title: Object two\n")) +
      (". #2: \n" + (". . name: object3\n" + ". . title: Object three\n"))
  {
    var v := ArrObjDoc();
    ArrObjWellFormed();
    DumpNormalized(v, "", "");
    TopLevel(v);
    ThreeItems(v, ". ");
    FirstObject();
    SecondObject();
    ThirdObject();
  }

  lemma FirstObject()
    ensures DumpText(ArrObjDoc().items[0], "#0", ". ") ==
      ". #0: \n" + (". . name: object1\n" + ". . title: Object one\n")
  {
    ObjectItem(ArrObjDoc().items[0], "#0", "object1", "Object one");
    NestedHeaders();
    NameLines();
    TitleLines12();
  }

  lemma SecondObject()
    ensures DumpText(ArrObjDoc().items[1], "#1", ". ") ==
      ". #1: \n" + (". . name: object1\n" + ". . title: Object two\n")
  {
    ObjectItem(ArrObjDoc().items[1], "#1", "object1", "Object two");
    NestedHeaders();
    NameLines();
    TitleLines12();
  }

  lemma ThirdObject()
    ensures DumpText(ArrObjDoc().items[2], "#2", ". ") ==
      ". #2: \n" + (". . name: object3\n" + ". . title: Object three\n")
  {
    ObjectItem(ArrObjDoc().items[2], "#2", "object3", "Object three");
    NestedHeaders();
    NameLines();
    TitleLine3();
  }

  // ---------------------------------------------------------------------
  // Through the container

  /** The path the array test opens. */
  function ArrayPath(): string
  {
    "examples/single_file_array"
  }

  /** A file system holding only `examples/single_file_array.json`, whose
      document the JSON plugin reads as `ArrayDoc()`. */
  function ArrayFiles(): FileSystem
  {
    FileSystem(
      p => if p == ArrayPath() + ".json" then Some(File("single_file_array.json", "")) else None,
      (p, content) => ArrayDoc(),
      p => [])
  }

  /** `_scan` misses the bare path, finds the `.json` file and keeps the
      document as it is; the document declares no aliases. */
  lemma ArrayFileScans()
    ensures Scanned(ArrayPath(), ArrayFiles()) == Ok(Some(ArrayDoc()))
    ensures AliasesLoad(ArrayDoc()) && NoNull(ArrayDoc())
  {
    var fs := ArrayFiles();
    assert |ArrayPath() + ".json"| == |ArrayPath()| + 5;
    assert fs.lookup(ArrayPath()) == None;
    assert Locate(ArrayPath(), fs) == Some((ArrayPath() + ".json", File("single_file_array.json", "")));
    DocsWellFormed();
    NormalizeFixpoint(ArrayDoc());
  }

  /** `XJson("examples/single_file_array").dump()` on that file system. */
  method DumpSingleFileArray() returns (s: string)
    ensures s == ". #0: element1\n" + ". #1: element2\n" + ". #2: element3\n"
  {
    ArrayFileScans();
    var x := new XJson(ArrayPath(), ArrayFiles());
    SingleFileArray();
    NormalizeFixpoint(ArrayDoc());
    s := x.Dump(Scalar(Null), "", "");
  }
}
