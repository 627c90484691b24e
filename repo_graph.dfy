/** The repository index of `src/pydepcall/build_repo_graph.py`: a mirror of
    the directory tree in which every Python file is a leaf listing the names
    the module binds at top level. */
module RepoGraph {
  import opened Common
  import opened TextUtils
  import opened Paths
  import opened SyntaxTree
  import opened ParserUtils

  /** A directory as `os.listdir` and `os.path.isdir` report it: a folder
      with its entries in listing order, or a plain file. */
  datatype Entry = Folder(name: string, entries: seq<Entry>) | File(name: string)

  /** A node of the index (`{"path": ..., "childrens": ...}`): a folder with
      its children keyed by entry name, or a file with the identifiers it
      binds (a Python set, so without order or repetition). */
  datatype Graph = Dir(path: string, children: seq<(string, Graph)>) | Leaf(path: string, names: set<string>)

  /** Reading a file by path: its text, or None when opening or reading raises. */
  type Reader = string -> Option<string>

  /** The parser: the root of the syntax tree of a text. */
  type Parser = string -> Node

  // ---------------------------------------------------------------------
  // get_identifier_in_file
  // ---------------------------------------------------------------------

  /** `x.text.split(" as ")[-1].strip()`: the name an aliased import binds. */
  function AliasName(x: Node): string
  {
    var parts := Split(x.text, " as ");
    Strip(parts[|parts| - 1])
  }

  /** An `import` keyword occurs among the first `j` children. */
  predicate ImportSeen(cs: seq<Node>, j: int)
    requires 0 <= j <= |cs|
  {
    exists i :: 0 <= i < j && cs[i].kind == "import"
  }

  /** Child `j` is a dotted name that follows the `import` keyword. */
  predicate DottedSlot(cs: seq<Node>, j: int)
    requires 0 <= j < |cs|
  {
    cs[j].kind == "dotted_name" && ImportSeen(cs, j)
  }

  /** The texts of the dotted names after `import` among the first `j` children. */
  function DottedNames(cs: seq<Node>, j: int): set<string>
    requires 0 <= j <= |cs|
  {
    if j == 0 then {}
    else DottedNames(cs, j - 1) + (if DottedSlot(cs, j - 1) then {cs[j - 1].text} else {})
  }

  /** What one top-level statement adds to the module's identifiers: for an
      import, every alias and every dotted name after `import`; otherwise
      the first identifier in the walk, if any. */
  function StatementNames(s: Node): set<string>
  {
    if Contains(s.kind, "import") then
      Image(Collect(s, Some({"aliased_import"}), {}, false), AliasName) + DottedNames(s.children, |s.children|)
    else
      var ids := Collect(s, Some({"identifier"}), {}, false);
      if ids == [] then {} else {ids[0].text}
  }

  /** The leaf `get_identifier_in_file` builds for `path`. */
  function FileLeaf(path: string, read: Reader, parse: Parser): Graph
  {
    match read(path)
    case None => Leaf(path, {})
    case Some(text) =>
      var root := parse(CleanedText(text));
      Leaf(path, UnionUpTo(root.children, StatementNames, |root.children|))
  }

  /** `get_identifier_in_file`: reads and cleans the file, then collects the
      names bound by its top-level statements; an unreadable file gives a
      leaf without identifiers. */
  method GetIdentifierInFile(path: string, read: Reader, parse: Parser) returns (g: Graph)
    ensures read(path).None? ==> g == Leaf(path, {})
    ensures g == FileLeaf(path, read, parse)
  {
    var text := read(path);
    if text.None? {
      return Leaf(path, {});
    }
    var content := DecoratedClean(text.value);
    var root := parse(content);
    var allModules := TopLevelIdentifiers(root.children);
    g := Leaf(path, allModules);
  }

  /** The statement loop of `get_identifier_in_file`, filling `all_modules`. */
  method TopLevelIdentifiers(statements: seq<Node>) returns (allModules: set<string>)
    ensures allModules == UnionUpTo(statements, StatementNames, |statements|)
  {
    allModules := {};
    var i := 0;
    while i < |statements|
      invariant 0 <= i <= |statements|
      invariant allModules == UnionUpTo(statements, StatementNames, i)
    {
      var added := StatementIdentifiers(statements[i]);
      UnionUpToStep(statements, StatementNames, i, allModules, added);
      allModules := allModules + added;
      i := i + 1;
    }
  }

  /** The body of the statement loop of `get_identifier_in_file`. */
  method StatementIdentifiers(s: Node) returns (names: set<string>)
    ensures names == StatementNames(s)
  {
    if Contains(s.kind, "import") {
      var aliased := GetNodeByKind(s, Some({"aliased_import"}), {}, false);
      names := Image(aliased, AliasName);
      var dotted := DottedAfterImport(s.children);
      names := names + dotted;
    } else {
      var ids := GetNodeByKind(s, Some({"identifier"}), {}, false);
      names := {};
      if ids != [] {
        names := {ids[0].text};
      }
    }
  }

  /** The inner loop with the `start` flag: dotted names after `import`. */
  method DottedAfterImport(cs: seq<Node>) returns (names: set<string>)
    ensures names == DottedNames(cs, |cs|)
  {
    names := {};
    var start := false;
    var j := 0;
    while j < |cs|
      invariant 0 <= j <= |cs|
      invariant start == ImportSeen(cs, j)
      invariant names == DottedNames(cs, j)
    {
      if cs[j].kind == "import" {
        start := true;
      } else if start && cs[j].kind == "dotted_name" {
        names := names + {cs[j].text};
      }
      j := j + 1;
    }
  }

  lemma {:induction false} DottedNamesMembers(cs: seq<Node>, j: int)
    requires 0 <= j <= |cs|
    ensures forall x :: x in DottedNames(cs, j) <==> exists i :: 0 <= i < j && DottedSlot(cs, i) && cs[i].text == x
  {
    if j > 0 {
      DottedNamesMembers(cs, j - 1);
    }
  }

  /** `x` is the alias of some aliased import reachable from `s`. */
  ghost predicate AliasBound(s: Node, x: string)
  {
    exists n :: Reaches(s, n, {}, {}) && n.kind == "aliased_import" && AliasName(n) == x
  }

  /** `x` is the text of a dotted name after the `import` keyword of `s`. */
  predicate DottedBound(s: Node, x: string)
  {
    exists i :: 0 <= i < |s.children| && DottedSlot(s.children, i) && s.children[i].text == x
  }

  /** An import statement binds exactly the aliases of the aliased imports
      anywhere inside it and the dotted names that follow its `import`
      keyword. */
  lemma ImportStatementNames(s: Node)
    requires Contains(s.kind, "import")
    ensures forall x :: x in StatementNames(s) <==> AliasBound(s, x) || DottedBound(s, x)
  {
    ImportStatementUnfold(s);
    AliasNamesMembers(s);
    DottedNamesMembers(s.children, |s.children|);
  }

  lemma ImportStatementUnfold(s: Node)
    requires Contains(s.kind, "import")
    ensures StatementNames(s) ==
      Image(Collect(s, Some({"aliased_import"}), {}, false), AliasName) + DottedNames(s.children, |s.children|)
  {
  }

  lemma AliasNamesMembers(s: Node)
    ensures forall x :: x in Image(Collect(s, Some({"aliased_import"}), {}, false), AliasName) <==> AliasBound(s, x)
  {
    ImageOfCollect(s, {"aliased_import"}, {}, AliasName);
  }

  /** Any other statement binds at most one name: the text of the first
      identifier reached from it, and nothing when it holds no identifier. */
  lemma FirstIdentifierOnly(s: Node)
    requires !Contains(s.kind, "import")
    ensures |StatementNames(s)| <= 1
    ensures StatementNames(s) == {} <==> forall n :: Reaches(s, n, {}, {}) ==> n.kind != "identifier"
    ensures forall x :: x in StatementNames(s) ==>
      exists n :: Reaches(s, n, {}, {}) && n.kind == "identifier" && n.text == x
  {
    var ids := Collect(s, Some({"identifier"}), {}, false);
    CollectMembers(s, Some({"identifier"}), {}, false);
    if ids != [] {
      assert ids[0] in ids;
    }
  }

  /** In `from p import m`, the package `p` is not bound: only `m` is, when
      no aliased import occurs in the statement. */
  lemma FromImportBindsModule(s: Node)
    requires Contains(s.kind, "import") && |s.children| == 4
    requires s.children[0].kind == "from" && s.children[1].kind == "dotted_name"
    requires s.children[2].kind == "import" && s.children[3].kind == "dotted_name"
    requires forall n :: Reaches(s, n, {}, {}) ==> n.kind != "aliased_import"
    ensures StatementNames(s) == {s.children[3].text}
  {
    ImportStatementNames(s);
    DottedOfFromImport(s);
    forall x ensures x in StatementNames(s) <==> x == s.children[3].text {
      assert !AliasBound(s, x);
    }
  }

  lemma DottedOfFromImport(s: Node)
    requires |s.children| == 4
    requires s.children[0].kind == "from" && s.children[1].kind == "dotted_name"
    requires s.children[2].kind == "import" && s.children[3].kind == "dotted_name"
    ensures forall x :: DottedBound(s, x) <==> x == s.children[3].text
  {
    var cs := s.children;
    assert !ImportSeen(cs, 1) && !ImportSeen(cs, 2);
    assert ImportSeen(cs, 3);
    forall x ensures DottedBound(s, x) <==> x == cs[3].text {
      if DottedBound(s, x) {
        var i :| 0 <= i < |cs| && DottedSlot(cs, i) && cs[i].text == x;
        assert i != 0 && i != 1 && i != 2;
      }
      if x == cs[3].text {
        assert DottedSlot(cs, 3) && cs[3].text == x;
      }
    }
  }

  /** The alias of `m as a` is `a`, for names free of white space. */
  lemma AliasNameOf(n: Node, m: string, a: string)
    requires a != [] && HasNoSpace(m) && HasNoSpace(a) && n.text == m + " as " + a
    ensures AliasName(n) == a
  {
    SplitAliased(m, a);
    StripNoSpace(a);
  }

  // ---------------------------------------------------------------------
  // get_children
  // ---------------------------------------------------------------------

  /** The entries `get_children` keeps: folders, and files ending in one of
      the Python extensions. */
  predicate Kept(e: Entry, exts: seq<string>)
  {
    e.Folder? || EndsWithAny(e.name, exts)
  }

  /** `get_children`: the index of `dir`, found at `folder`. */
  function GetChildren(folder: string, dir: Entry, exts: seq<string>, read: Reader, parse: Parser): Graph
    requires dir.Folder?
    decreases dir, 1
  {
    Dir(folder, ChildrenFrom(folder, dir, 0, exts, read, parse))
  }

  /** The children for the entries of `dir` from index `i` on, in listing order. */
  function ChildrenFrom(folder: string, dir: Entry, i: nat, exts: seq<string>, read: Reader, parse: Parser): seq<(string, Graph)>
    requires dir.Folder? && i <= |dir.entries|
    decreases dir, 0, |dir.entries| - i
  {
    if i == |dir.entries| then []
    else
      var e := dir.entries[i];
      var p := PathJoin(folder, e.name);
      (if e.Folder? then [(e.name, GetChildren(p, e, exts, read, parse))]
       else if EndsWithAny(e.name, exts) then [(e.name, FileLeaf(p, read, parse))]
       else [])
      + ChildrenFrom(folder, dir, i + 1, exts, read, parse)
  }

  /** Every child of a folder sits at `folder/name`, all the way down. */
  predicate WellPathed(g: Graph)
    decreases g
  {
    g.Dir? ==> forall j :: 0 <= j < |g.children| ==>
      g.children[j].1.path == PathJoin(g.path, g.children[j].0) && WellPathed(g.children[j].1)
  }

  /** `cs` lists the entries `kept`, in order: same names, paths under
      `folder`, a folder node exactly for a folder entry, and a file's leaf
      for a file entry. */
  predicate Mirrors(folder: string, cs: seq<(string, Graph)>, kept: seq<Entry>, exts: seq<string>, read: Reader, parse: Parser)
  {
    |cs| == |kept| && forall j :: 0 <= j < |cs| ==> MirrorsEntry(folder, cs[j], kept[j], exts, read, parse)
  }

  /** One child of `folder` stands for one kept entry: a folder by the
      index of that folder, built the same way one level down, and a file by
      its leaf. */
  predicate MirrorsEntry(folder: string, c: (string, Graph), e: Entry, exts: seq<string>, read: Reader, parse: Parser)
  {
    && c.0 == e.name
    && c.1.path == PathJoin(folder, e.name)
    && (c.1.Dir? <==> e.Folder?)
    && (e.Folder? ==> c.1 == GetChildren(PathJoin(folder, e.name), e, exts, read, parse))
    && (e.File? ==> c.1 == FileLeaf(PathJoin(folder, e.name), read, parse))
  }

  /** The children of a folder are its kept entries, in listing order: a
      folder becomes a folder node, a Python file becomes its leaf, and every
      child carries its entry's name and path. */
  lemma {:induction false} ChildrenMirrorEntries(folder: string, dir: Entry, i: nat, exts: seq<string>, read: Reader, parse: Parser)
    requires dir.Folder? && i <= |dir.entries|
    ensures Mirrors(folder, ChildrenFrom(folder, dir, i, exts, read, parse),
                    Filter(dir.entries[i..], (e: Entry) => Kept(e, exts)), exts, read, parse)
    decreases |dir.entries| - i
  {
    var keep := (e: Entry) => Kept(e, exts);
    if i == |dir.entries| {
      assert dir.entries[i..] == [];
    } else {
      var e := dir.entries[i];
      var p := PathJoin(folder, e.name);
      var es := dir.entries[i..];
      assert es[0] == e && es[1..] == dir.entries[i + 1..];
      ChildrenMirrorEntries(folder, dir, i + 1, exts, read, parse);
      FilterCons(es, keep);
      var rest := ChildrenFrom(folder, dir, i + 1, exts, read, parse);
      var head :=
        if e.Folder? then [(e.name, GetChildren(p, e, exts, read, parse))]
        else if EndsWithAny(e.name, exts) then [(e.name, FileLeaf(p, read, parse))]
        else [];
      assert ChildrenFrom(folder, dir, i, exts, read, parse) == head + rest;
      var k: seq<Entry> := if keep(e) then [e] else [];
      if e.Folder? {
        assert keep(e) && k == [e];
        assert GetChildren(p, e, exts, read, parse).Dir?;
      } else if EndsWithAny(e.name, exts) {
        assert keep(e) && k == [e];
        FileLeafAt(p, read, parse);
      } else {
        assert !keep(e) && k == [] && head == [];
      }
      assert Mirrors(folder, head, k, exts, read, parse);
      MirrorsAppend(folder, head, rest, if keep(e) then [e] else [], Filter(es[1..], keep), exts, read, parse);
    }
  }

  lemma MirrorsAppend(folder: string, a: seq<(string, Graph)>, b: seq<(string, Graph)>, ka: seq<Entry>, kb: seq<Entry>,
                      exts: seq<string>, read: Reader, parse: Parser)
    requires Mirrors(folder, a, ka, exts, read, parse) && Mirrors(folder, b, kb, exts, read, parse)
    ensures Mirrors(folder, a + b, ka + kb, exts, read, parse)
  {
    forall j | 0 <= j < |a + b| ensures MirrorsEntry(folder, (a + b)[j], (ka + kb)[j], exts, read, parse) {
      if j < |a| {
        assert (a + b)[j] == a[j] && (ka + kb)[j] == ka[j];
      } else {
        assert (a + b)[j] == b[j - |a|] && (ka + kb)[j] == kb[j - |a|];
      }
    }
  }

  /** The index `get_children` builds is rooted at `folder`, and every node
      in it sits at its parent's path joined with its name. */
  lemma {:induction false} GetChildrenWellPathed(folder: string, dir: Entry, exts: seq<string>, read: Reader, parse: Parser)
    requires dir.Folder?
    ensures GetChildren(folder, dir, exts, read, parse).path == folder
    ensures WellPathed(GetChildren(folder, dir, exts, read, parse))
    decreases dir, 1
  {
    var cs := ChildrenFrom(folder, dir, 0, exts, read, parse);
    ChildrenWellPathed(folder, dir, 0, exts, read, parse);
    assert GetChildren(folder, dir, exts, read, parse) == Dir(folder, cs);
    assert ChildrenAt(folder, cs);
  }

  /** Every child in `cs` sits at `folder/name` and is itself well pathed. */
  predicate ChildrenAt(folder: string, cs: seq<(string, Graph)>)
  {
    forall j :: 0 <= j < |cs| ==> cs[j].1.path == PathJoin(folder, cs[j].0) && WellPathed(cs[j].1)
  }

  lemma {:induction false} ChildrenWellPathed(folder: string, dir: Entry, i: nat, exts: seq<string>, read: Reader, parse: Parser)
    requires dir.Folder? && i <= |dir.entries|
    ensures ChildrenAt(folder, ChildrenFrom(folder, dir, i, exts, read, parse))
    decreases dir, 0, |dir.entries| - i
  {
    if i < |dir.entries| {
      var e := dir.entries[i];
      var p := PathJoin(folder, e.name);
      var rest := ChildrenFrom(folder, dir, i + 1, exts, read, parse);
      ChildrenWellPathed(folder, dir, i + 1, exts, read, parse);
      var head :=
        if e.Folder? then [(e.name, GetChildren(p, e, exts, read, parse))]
        else if EndsWithAny(e.name, exts) then [(e.name, FileLeaf(p, read, parse))]
        else [];
      assert ChildrenFrom(folder, dir, i, exts, read, parse) == head + rest;
      if e.Folder? {
        GetChildrenWellPathed(p, e, exts, read, parse);
      } else {
        FileLeafAt(p, read, parse);
      }
      assert ChildrenAt(folder, head);
      ChildrenAtAppend(folder, head, rest);
    }
  }

  lemma FileLeafAt(path: string, read: Reader, parse: Parser)
    ensures FileLeaf(path, read, parse).Leaf? && FileLeaf(path, read, parse).path == path
  {
  }

  lemma ChildrenAtAppend(folder: string, a: seq<(string, Graph)>, b: seq<(string, Graph)>)
    requires ChildrenAt(folder, a) && ChildrenAt(folder, b)
    ensures ChildrenAt(folder, a + b)
  {
    forall j | 0 <= j < |a + b| ensures (a + b)[j].1.path == PathJoin(folder, (a + b)[j].0) && WellPathed((a + b)[j].1) {
      if j >= |a| {
        assert (a + b)[j] == b[j - |a|];
      }
    }
  }
}
