/** The memoised closure builder of `src/pycall/extractor.py`: starting from
    the functions of each module it attaches to every function and import
    node the definitions, imports and statements that node depends on,
    sharing function and import nodes through a memo table. */
module Extractor {
  import opened Common
  import opened Paths
  import opened SyntaxTree
  import opened RepoGraph
  import opened Resolver
  import opened Nodes

  /** What the extractor consults besides the memo: the file system, the
      parser, the metadata extractors (a definition's identifier and a
      class's name), the repository index, the Python extensions in order,
      the repository root, and the typing identifiers never taken as blocks. */
  datatype Env = Env(fs: FileSystem, parse: Parser, meta: Node -> FunctionMeta, className: Node -> string,
                     graph: Graph, exts: seq<string>, repoSrc: string, typing: set<string>)

  /** The two kinds of node `get_dependencies` accepts; any other kind is a
      ValueError in the source and cannot be built here. */
  datatype Target = FunctionTarget(fn: FunctionNode) | ImportTarget(imp: ImportNode)

  function Obj(t: Target): object
  {
    match t
    case FunctionTarget(f) => f
    case ImportTarget(i) => i
  }

  function Children(t: Target): seq<Dependency>
    reads Obj(t)
  {
    match t
    case FunctionTarget(f) => f.children
    case ImportTarget(i) => i.children
  }

  /** The memo key: (path, function name) or (path, import statement text). */
  function KeyOf(t: Target): (string, string)
  {
    match t
    case FunctionTarget(f) => (f.path, f.name)
    case ImportTarget(i) => (i.path, i.content)
  }

  /** `target.children.append(d)`. */
  method Append(t: Target, d: Dependency)
    modifies Obj(t)
    ensures Children(t) == old(Children(t)) + [d]
  {
    match t
    case FunctionTarget(f) => f.children := f.children + [d];
    case ImportTarget(i) => i.children := i.children + [d];
  }

  // ---------------------------------------------------------------------
  // Which parts of a file an expansion attaches
  // ---------------------------------------------------------------------

  /** The names an expansion asks for. A function asks for its called
      identifiers, takes an import when one of its dotted names is "*" and
      never takes a typing identifier as a block; an import asks for the
      names requested from a file, "*" meaning everything but blocks. */
  datatype Selector = Selector(names: set<string>, anyName: bool, starImports: bool, excluded: set<string>)

  function FunctionSelector(called: set<string>, typing: set<string>): Selector
  {
    Selector(called, false, true, typing)
  }

  function ImportSelector(requested: seq<string>): Selector
  {
    Selector(Elements(requested), "*" in requested, false, {})
  }

  predicate SelectsDefinition(sel: Selector, name: string)
  {
    sel.anyName || name in sel.names
  }

  predicate SelectsImport(sel: Selector, dotted: seq<string>)
  {
    (sel.starImports && "*" in dotted) || sel.anyName || exists k :: 0 <= k < |dotted| && dotted[k] in sel.names
  }

  predicate SelectsBlock(sel: Selector, ids: seq<string>)
  {
    ids != [] && ids[0] in sel.names && ids[0] !in sel.excluded
  }

  /** The texts of the `dotted_name` nodes of an import statement. */
  function DottedTexts(n: Node): seq<string>
  {
    var found := Collect(n, Some({"dotted_name"}), {}, false);
    seq(|found|, j requires 0 <= j < |found| => found[j].text)
  }

  /** Top-level statements of these kinds were handled as definitions. */
  const DefinitionKinds: set<string> := {"function_definition", "class_definition", "decorated_definition"}

  /** The function definitions of a file, outside classes, outermost only. */
  function FunctionDefs(root: Node): seq<Node>
  {
    Collect(root, Some({"function_definition"}), {"class_definition"}, true)
  }

  /** The class definitions of a file, outside functions, outermost only. */
  function ClassDefs(root: Node): seq<Node>
  {
    Collect(root, Some({"class_definition"}), {"function_definition"}, true)
  }

  /** A syntax node an expansion decided to attach, with the file it is in. */
  datatype Pick =
    | FunctionPick(path: string, node: Node)
    | ClassPick(path: string, node: Node)
    | ImportPick(path: string, node: Node)
    | BlockPick(path: string, node: Node)

  function ChooseFunction(path: string, sel: Selector, meta: Node -> FunctionMeta): Node -> seq<Pick>
  {
    (n: Node) => if SelectsDefinition(sel, meta(n).name) then [FunctionPick(path, n)] else []
  }

  function ChooseClass(path: string, sel: Selector, meta: Node -> FunctionMeta): Node -> seq<Pick>
  {
    (n: Node) => if SelectsDefinition(sel, meta(n).name) then [ClassPick(path, n)] else []
  }

  /** A top-level statement: definitions are skipped, an import statement
      is taken by its dotted names, an expression statement by its first
      identifier. */
  function ChooseStatement(path: string, sel: Selector): Node -> seq<Pick>
  {
    (n: Node) =>
      if n.kind in DefinitionKinds then []
      else if Contains(n.kind, "import") then
        (if SelectsImport(sel, DottedTexts(n)) then [ImportPick(path, n)] else [])
      else if n.kind == "expression_statement" && SelectsBlock(sel, IdentifierTexts(n)) then [BlockPick(path, n)]
      else []
  }

  /** The picks of a sequence of nodes, in order. */
  function PicksOf(nodes: seq<Node>, choose: Node -> seq<Pick>): seq<Pick>
  {
    if nodes == [] then []
    else PicksOf(nodes[..|nodes| - 1], choose) + choose(nodes[|nodes| - 1])
  }

  /** What one file contributes: functions, then classes, then other
      top-level statements. */
  function FilePicks(path: string, root: Node, sel: Selector, env: Env): seq<Pick>
  {
    PicksOf(FunctionDefs(root), ChooseFunction(path, sel, env.meta))
    + PicksOf(ClassDefs(root), ChooseClass(path, sel, env.meta))
    + PicksOf(root.children, ChooseStatement(path, sel))
  }

  /** What `get_function_dependencies` attaches: the picks of the
      function's own file, selected by its called identifiers. */
  function FunctionPicksOf(f: FunctionNode, env: Env): seq<Pick>
  {
    match env.fs.read(f.path)
    case None => []
    case Some(content) => FilePicks(f.path, env.parse(content), FunctionSelector(f.calledIdentifiers, env.typing), env)
  }

  /** An import detail `get_import_dependencies` follows: its path is set,
      non-empty and inside the repository. */
  predicate InRepo(d: ResolvedImport, repoSrc: string)
  {
    Truthy(d.importPath) && StartsWith(d.importPath.value, repoSrc)
  }

  function KeptImports(details: seq<ResolvedImport>, repoSrc: string): seq<ResolvedImport>
  {
    Filter(details, (d: ResolvedImport) => InRepo(d, repoSrc))
  }

  function TargetPath(d: ResolvedImport): string
  {
    if d.importPath.Some? then d.importPath.value else []
  }

  /** The name requested from the target file: everything ("*") for a
      star import or a whole file or folder, else the imported module. */
  function RequestName(d: ResolvedImport): string
  {
    if d.detail.name == "*" || d.fileOrFolder then "*" else d.detail.moduleName
  }

  /** The target files in the order they were first met. */
  function RequestOrder(ds: seq<ResolvedImport>): seq<string>
  {
    if ds == [] then []
    else
      var order := RequestOrder(ds[..|ds| - 1]);
      var p := TargetPath(ds[|ds| - 1]);
      if p in order then order else order + [p]
  }

  /** The names requested from each target file, in request order. */
  function RequestMap(ds: seq<ResolvedImport>): map<string, seq<string>>
  {
    if ds == [] then map[]
    else
      var m := RequestMap(ds[..|ds| - 1]);
      var p := TargetPath(ds[|ds| - 1]);
      m[p := (if p in m then m[p] else []) + [RequestName(ds[|ds| - 1])]]
  }

  /** The names the details with target `p` request, in order. */
  function RequestsFor(ds: seq<ResolvedImport>, p: string): seq<string>
  {
    if ds == [] then []
    else RequestsFor(ds[..|ds| - 1], p) + (if TargetPath(ds[|ds| - 1]) == p then [RequestName(ds[|ds| - 1])] else [])
  }

  /** What one target file contributes: nothing when it cannot be read. */
  function RequestedPicks(p: string, requests: map<string, seq<string>>, env: Env): seq<Pick>
  {
    match env.fs.read(p)
    case None => []
    case Some(content) => FilePicks(p, env.parse(content), ImportSelector(if p in requests then requests[p] else []), env)
  }

  function RequestedPicksOf(requests: map<string, seq<string>>, env: Env): string -> seq<Pick>
  {
    (p: string) => RequestedPicks(p, requests, env)
  }

  /** The picks of a series of files, in order. */
  function PicksAlong(files: seq<string>, pick: string -> seq<Pick>): seq<Pick>
  {
    if files == [] then []
    else PicksAlong(files[..|files| - 1], pick) + pick(files[|files| - 1])
  }

  /** What `get_import_dependencies` attaches. */
  function ImportPicksOf(i: ImportNode, env: Env): seq<Pick>
  {
    var kept := KeptImports(i.importDict, env.repoSrc);
    PicksAlong(RequestOrder(kept), RequestedPicksOf(RequestMap(kept), env))
  }

  function ExpectedPicks(t: Target, env: Env): seq<Pick>
  {
    match t
    case FunctionTarget(f) => FunctionPicksOf(f, env)
    case ImportTarget(i) => ImportPicksOf(i, env)
  }

  /** A child stands for a pick: the shared node of that name (function)
      or text (import) in that file, or the class or block node built from
      the picked syntax node. */
  predicate Matches(d: Dependency, p: Pick, env: Env)
  {
    match p
    case FunctionPick(path, n) => d.OnFunction? && d.functionNode.path == path && d.functionNode.name == env.meta(n).name
    case ClassPick(path, n) => d == OnClass(ClassNodeOf(path, n.text, n, env.className))
    case ImportPick(path, n) => d.OnImport? && d.importNode.path == path && d.importNode.content == n.text
    case BlockPick(path, n) => BlockNodeOf(path, n.text, n).Ok? && d == OnBlock(BlockNodeOf(path, n.text, n).value)
  }

  /** `after` is `before` followed by children standing for a prefix of
      `picks`, all of them when the expansion ran to completion. */
  predicate Extends(before: seq<Dependency>, after: seq<Dependency>, picks: seq<Pick>, complete: bool, env: Env)
  {
    && |before| <= |after| <= |before| + |picks|
    && after[..|before|] == before
    && (forall j :: |before| <= j < |after| ==> Matches(after[j], picks[j - |before|], env))
    && (complete ==> |after| == |before| + |picks|)
  }

  lemma ExtendsNothing(xs: seq<Dependency>, picks: seq<Pick>, complete: bool, env: Env)
    requires complete ==> picks == []
    ensures Extends(xs, xs, picks, complete, env)
  {
    assert xs[..|xs|] == xs;
  }

  lemma ExtendsStep(before: seq<Dependency>, after: seq<Dependency>, picks: seq<Pick>, d: Dependency, p: Pick, env: Env)
    requires Extends(before, after, picks, true, env) && Matches(d, p, env)
    ensures Extends(before, after + [d], picks + [p], true, env)
  {
    var ext := after + [d];
    assert ext[..|before|] == after[..|before|];
    forall j | |before| <= j < |ext| ensures Matches(ext[j], (picks + [p])[j - |before|], env) {
      if j < |after| {
        assert ext[j] == after[j];
      }
    }
  }

  lemma ExtendsWeaken(before: seq<Dependency>, after: seq<Dependency>, picks: seq<Pick>, more: seq<Pick>, complete: bool, env: Env)
    requires Extends(before, after, picks, complete, env) && picks <= more
    ensures Extends(before, after, more, false, env)
  {
    forall j | |before| <= j < |after| ensures Matches(after[j], more[j - |before|], env) {
      assert more[j - |before|] == picks[j - |before|];
    }
  }

  lemma ExtendsThen(a: seq<Dependency>, b: seq<Dependency>, c: seq<Dependency>, p: seq<Pick>, q: seq<Pick>, complete: bool, env: Env)
    requires Extends(a, b, p, true, env) && Extends(b, c, q, complete, env)
    ensures Extends(a, c, p + q, complete, env)
  {
    assert c[..|a|] == c[..|b|][..|a|];
    forall j | |a| <= j < |c| ensures Matches(c[j], (p + q)[j - |a|], env) {
      if j < |b| {
        assert c[j] == c[..|b|][j];
      }
    }
  }

  /** A pick whose node can be built: a function whose callee texts can be
      attributed and whose file can be read (otherwise its own expansion
      escapes), an import whose details can be analysed; class and block
      nodes are always built. */
  predicate PickBuilds(p: Pick, env: Env)
  {
    match p
    case FunctionPick(path, n) => Dependencies(n, env.parse).Ok? && env.fs.read(path).Some?
    case ImportPick(path, n) => Analyze([n], path, env.fs, env.parse, env.graph, env.exts).Ok?
    case ClassPick(_, _) => true
    case BlockPick(_, _) => true
  }

  /** Some pick cannot be built: the only reason an expansion with fuel
      left stops before attaching all its picks. */
  predicate Blocked(picks: seq<Pick>, env: Env)
  {
    exists p :: p in picks && !PickBuilds(p, env)
  }

  lemma BlockedWithin(a: seq<Pick>, b: seq<Pick>, whole: seq<Pick>, env: Env)
    requires Blocked(b, env) && a + b <= whole
    ensures Blocked(whole, env)
  {
    var p :| p in b && !PickBuilds(p, env);
    var k :| 0 <= k < |b| && b[k] == p;
    assert (a + b)[|a| + k] == p;
    assert whole[|a| + k] == p;
  }

  lemma PicksOfStep(nodes: seq<Node>, i: nat, choose: Node -> seq<Pick>)
    requires i < |nodes|
    ensures PicksOf(nodes[..i + 1], choose) == PicksOf(nodes[..i], choose) + choose(nodes[i])
  {
    assert nodes[..i + 1][..i] == nodes[..i];
  }

  lemma {:induction false} PicksOfPrefix(nodes: seq<Node>, i: nat, choose: Node -> seq<Pick>)
    requires i <= |nodes|
    ensures PicksOf(nodes[..i], choose) <= PicksOf(nodes, choose)
    decreases |nodes|
  {
    if i < |nodes| {
      var n := |nodes| - 1;
      assert nodes[..n][..i] == nodes[..i];
      PicksOfPrefix(nodes[..n], i, choose);
    } else {
      assert nodes[..i] == nodes;
    }
  }

  /** A pick of a sequence is the pick of one of its nodes, and every pick
      of every node is there. */
  lemma {:induction false} PicksOfMembers(nodes: seq<Node>, choose: Node -> seq<Pick>)
    ensures forall p :: p in PicksOf(nodes, choose) <==> exists k :: 0 <= k < |nodes| && p in choose(nodes[k])
  {
    if nodes != [] {
      var n := |nodes| - 1;
      PicksOfMembers(nodes[..n], choose);
      forall p ensures p in PicksOf(nodes, choose) <==> exists k :: 0 <= k < |nodes| && p in choose(nodes[k]) {
        if exists k :: 0 <= k < |nodes| && p in choose(nodes[k]) {
          var k :| 0 <= k < |nodes| && p in choose(nodes[k]);
          if k < n {
            assert nodes[..n][k] == nodes[k];
          }
        }
        if exists k :: 0 <= k < n && p in choose(nodes[..n][k]) {
          var k :| 0 <= k < n && p in choose(nodes[..n][k]);
          assert nodes[..n][k] == nodes[k];
        }
      }
    }
  }

  lemma PicksAlongStep(files: seq<string>, i: nat, pick: string -> seq<Pick>)
    requires i < |files|
    ensures PicksAlong(files[..i + 1], pick) == PicksAlong(files[..i], pick) + pick(files[i])
  {
    assert files[..i + 1][..i] == files[..i];
  }

  lemma {:induction false} PicksAlongPrefix(files: seq<string>, i: nat, pick: string -> seq<Pick>)
    requires i <= |files|
    ensures PicksAlong(files[..i], pick) <= PicksAlong(files, pick)
    decreases |files|
  {
    if i < |files| {
      var n := |files| - 1;
      assert files[..n][..i] == files[..i];
      PicksAlongPrefix(files[..n], i, pick);
    } else {
      assert files[..i] == files;
    }
  }

  // ---------------------------------------------------------------------
  // The memo and the expansions
  // ---------------------------------------------------------------------

  /** How a `get_dependencies` call ended: the target was already in the
      memo, or it was recorded (after an expansion that ran to the end or
      was cut short by an exception), or the AttributeError raised when a
      function's own file cannot be read escaped. */
  datatype Visit = AlreadyKnown | Recorded(complete: bool) | Escaped

  function AppendNew(order: seq<(string, string)>, k: (string, string)): seq<(string, string)>
  {
    if k in order then order else order + [k]
  }

  /** Storing under a key the older table did not have keeps every older
      entry and key. */
  lemma StoreKeeps<V>(table0: map<(string, string), V>, order0: seq<(string, string)>,
                      table: map<(string, string), V>, order: seq<(string, string)>, key: (string, string), v: V)
    requires order0 <= order && key !in table0
    requires forall k :: k in table0 ==> k in table && table[k] == table0[k]
    ensures order0 <= AppendNew(order, key)
    ensures forall k :: k in table0 ==> k in table[key := v] && table[key := v][k] == table0[k]
  {
    assert AppendNew(order, key)[..|order0|] == order[..|order0|];
  }

  /** `module_function_dict`: the function and import nodes recorded so
      far, keyed by (path, name) and (path, import text), each with its keys
      in insertion order. */
  class Memo {
    var functionOrder: seq<(string, string)>
    var functions: map<(string, string), FunctionNode>
    var importOrder: seq<(string, string)>
    var imports: map<(string, string), ImportNode>

    /** The keys of each table are listed once each, and every entry sits
        under its own key. */
    ghost predicate Valid()
      reads this
    {
      && (forall k :: k in functions <==> k in functionOrder)
      && (forall k :: k in imports <==> k in importOrder)
      && NoDuplicates(functionOrder) && NoDuplicates(importOrder)
      && (forall k :: k in functions ==> functions[k].path == k.0 && functions[k].name == k.1)
      && (forall k :: k in imports ==> imports[k].path == k.0 && imports[k].content == k.1)
    }

    constructor ()
      ensures Valid()
      ensures functionOrder == [] && functions == map[] && importOrder == [] && imports == map[]
    {
      functionOrder := [];
      functions := map[];
      importOrder := [];
      imports := map[];
    }

    predicate Known(t: Target)
      reads this
    {
      if t.FunctionTarget? then KeyOf(t) in functions else KeyOf(t) in imports
    }

    /** `t` is the entry recorded under its key. */
    predicate Holds(t: Target)
      reads this
    {
      match t
      case FunctionTarget(f) => KeyOf(t) in functions && functions[KeyOf(t)] == f
      case ImportTarget(i) => KeyOf(t) in imports && imports[KeyOf(t)] == i
    }

    /** Entries are never dropped or replaced, and keys only appended. */
    predicate KeepsEntriesOf(functions0: map<(string, string), FunctionNode>, functionOrder0: seq<(string, string)>,
                             imports0: map<(string, string), ImportNode>, importOrder0: seq<(string, string)>)
      reads this
    {
      && functionOrder0 <= functionOrder && importOrder0 <= importOrder
      && (forall k :: k in functions0 ==> k in functions && functions[k] == functions0[k])
      && (forall k :: k in imports0 ==> k in imports && imports[k] == imports0[k])
    }

    /** Storing the target under its key; a key already present keeps its
        place in the order. */
    method Record(t: Target)
      requires Valid()
      modifies this
      ensures Valid() && Holds(t)
      ensures t.FunctionTarget? ==>
        && functions == old(functions)[KeyOf(t) := t.fn] && functionOrder == AppendNew(old(functionOrder), KeyOf(t))
        && imports == old(imports) && importOrder == old(importOrder)
      ensures t.ImportTarget? ==>
        && imports == old(imports)[KeyOf(t) := t.imp] && importOrder == AppendNew(old(importOrder), KeyOf(t))
        && functions == old(functions) && functionOrder == old(functionOrder)
    {
      var key := KeyOf(t);
      match t
      case FunctionTarget(f) =>
        if key !in functions {
          functionOrder := functionOrder + [key];
        }
        functions := functions[key := f];
      case ImportTarget(i) =>
        if key !in imports {
          importOrder := importOrder + [key];
        }
        imports := imports[key := i];
    }

    /** `get_dependencies`: a target already in the memo is left alone;
        otherwise it is expanded (an exception inside the expansion is
        swallowed, keeping the children attached so far) and then recorded.
        `fuel` stands for the recursion ceiling: with none left the
        expansion fails at once and the target is recorded as it is. */
    method GetDependencies(target: Target, env: Env, fuel: nat) returns (visit: Visit)
      requires Valid()
      modifies this, Obj(target)
      ensures Valid()
      ensures KeepsEntriesOf(old(functions), old(functionOrder), old(imports), old(importOrder))
      ensures visit.AlreadyKnown? <==> old(Known(target))
      ensures visit.Escaped? <==>
        !old(Known(target)) && 0 < fuel && target.FunctionTarget? && env.fs.read(target.fn.path).None?
      ensures !visit.Recorded? ==> unchanged(this) && Children(target) == old(Children(target))
      ensures visit.Recorded? ==> Holds(target)
      ensures visit.Recorded? ==>
        Extends(old(Children(target)), Children(target), ExpectedPicks(target, env), visit.complete, env)
      ensures visit.Recorded? && fuel == 0 ==> Children(target) == old(Children(target)) && !visit.complete
      ensures visit == Recorded(false) ==> fuel == 0 || Blocked(ExpectedPicks(target, env), env)
      decreases fuel, 6
    {
      if Known(target) {
        return AlreadyKnown;
      }
      var expanded := ExpandTarget(target, env, fuel);
      if expanded.None? {
        return Escaped;
      }
      var complete := expanded.value;
      ghost var kids := Children(target);
      ghost var midFunctions, midFunctionOrder, midImports, midImportOrder := functions, functionOrder, imports, importOrder;
      Record(target);
      assert Children(target) == kids;
      match target {
        case FunctionTarget(f) =>
          StoreKeeps(old(functions), old(functionOrder), midFunctions, midFunctionOrder, KeyOf(target), f);
        case ImportTarget(i) =>
          StoreKeeps(old(imports), old(importOrder), midImports, midImportOrder, KeyOf(target), i);
      }
      visit := Recorded(complete);
    }

    /** `get_function_dependencies`: `None` when the function's own file
        cannot be read (the source then returns an empty list, on which
        the caller's attribute access fails); otherwise whether the
        expansion ran to the end. */
    method ExpandFunction(f: FunctionNode, env: Env, fuel: nat) returns (r: Option<bool>)
      requires Valid() && 0 < fuel
      modifies this, f
      ensures Valid() && KeepsEntriesOf(old(functions), old(functionOrder), old(imports), old(importOrder))
      ensures r.None? <==> env.fs.read(f.path).None?
      ensures r.None? ==> unchanged(this, f)
      ensures r.Some? ==> Extends(old(f.children), f.children, FunctionPicksOf(f, env), r.value, env)
      ensures r == Some(false) ==> Blocked(FunctionPicksOf(f, env), env)
      decreases fuel, 4
    {
      var content := env.fs.read(f.path);
      if content.None? {
        return None;
      }
      var root := env.parse(content.value);
      var ok := AttachFile(FunctionTarget(f), f.path, root, FunctionSelector(f.calledIdentifiers, env.typing), env, fuel);
      r := Some(ok);
    }

    /** `get_import_dependencies`: the in-repository details are grouped by
        target file, and each readable target file is searched for the
        requested names; the first exception ends the expansion. */
    method ExpandImport(i: ImportNode, env: Env, fuel: nat) returns (ok: bool)
      requires Valid() && 0 < fuel
      modifies this, i
      ensures Valid() && KeepsEntriesOf(old(functions), old(functionOrder), old(imports), old(importOrder))
      ensures Extends(old(i.children), i.children, ImportPicksOf(i, env), ok, env)
      ensures !ok ==> Blocked(ImportPicksOf(i, env), env)
      decreases fuel, 4
    {
      var kept := KeptImports(i.importDict, env.repoSrc);
      if kept == [] {
        ExtendsNothing(i.children, [], true, env);
        return true;
      }
      var order, selected := GroupRequests(kept);
      RequestKeys(kept);
      ghost var start := i.children;
      ghost var pick := RequestedPicksOf(selected, env);
      ExtendsNothing(start, [], true, env);
      for k := 0 to |order|
        invariant Valid() && KeepsEntriesOf(old(functions), old(functionOrder), old(imports), old(importOrder))
        invariant Extends(start, i.children, PicksAlong(order[..k], pick), true, env)
      {
        PicksAlongStep(order, k, pick);
        var content := env.fs.read(order[k]);
        if content.Some? {
          ghost var before := i.children;
          var fileOk := AttachFile(ImportTarget(i), order[k], env.parse(content.value), ImportSelector(selected[order[k]]), env, fuel);
          ExtendsThen(start, before, i.children, PicksAlong(order[..k], pick), pick(order[k]), fileOk, env);
          if !fileOk {
            PicksAlongPrefix(order, k + 1, pick);
            ExtendsWeaken(start, i.children, PicksAlong(order[..k + 1], pick), PicksAlong(order, pick), false, env);
            BlockedWithin(PicksAlong(order[..k], pick), pick(order[k]), PicksAlong(order, pick), env);
            return false;
          }
        }
      }
      assert order[..|order|] == order;
      ok := true;
    }

    /** One file of an expansion: its functions, then its classes, then its
        other top-level statements. */
    method AttachFile(target: Target, path: string, root: Node, sel: Selector, env: Env, fuel: nat) returns (ok: bool)
      requires Valid() && 0 < fuel
      modifies this, Obj(target)
      ensures Valid() && KeepsEntriesOf(old(functions), old(functionOrder), old(imports), old(importOrder))
      ensures Extends(old(Children(target)), Children(target), FilePicks(path, root, sel, env), ok, env)
      ensures !ok ==> Blocked(FilePicks(path, root, sel, env), env)
      decreases fuel, 3
    {
      ghost var c0 := Children(target);
      ghost var fs := PicksOf(FunctionDefs(root), ChooseFunction(path, sel, env.meta));
      ghost var cs := PicksOf(ClassDefs(root), ChooseClass(path, sel, env.meta));
      ghost var ss := PicksOf(root.children, ChooseStatement(path, sel));
      var defs := GetNodeByKind(root, Some({"function_definition"}), {"class_definition"}, true);
      ok := AttachFunctions(target, path, defs, sel, env, fuel);
      if !ok {
        ExtendsWeaken(c0, Children(target), fs, fs + cs + ss, false, env);
        assert [] + fs <= fs + cs + ss;
        BlockedWithin([], fs, fs + cs + ss, env);
        return;
      }
      ghost var c1 := Children(target);
      var classes := GetNodeByKind(root, Some({"class_definition"}), {"function_definition"}, true);
      AttachClasses(target, path, classes, sel, env);
      ExtendsThen(c0, c1, Children(target), fs, cs, true, env);
      ghost var c2 := Children(target);
      ok := AttachStatements(target, path, root.children, sel, env, fuel);
      ExtendsThen(c0, c2, Children(target), fs + cs, ss, ok, env);
      if !ok {
        BlockedWithin(fs + cs, ss, fs + cs + ss, env);
      }
    }

    /** The function definitions of a file that the selector asks for,
        in order; the first failure ends the walk. */
    method AttachFunctions(target: Target, path: string, defs: seq<Node>, sel: Selector, env: Env, fuel: nat) returns (ok: bool)
      requires Valid() && 0 < fuel
      modifies this, Obj(target)
      ensures Valid() && KeepsEntriesOf(old(functions), old(functionOrder), old(imports), old(importOrder))
      ensures Extends(old(Children(target)), Children(target), PicksOf(defs, ChooseFunction(path, sel, env.meta)), ok, env)
      ensures !ok ==> Blocked(PicksOf(defs, ChooseFunction(path, sel, env.meta)), env)
      decreases fuel, 2
    {
      ghost var start := Children(target);
      ghost var choose := ChooseFunction(path, sel, env.meta);
      ExtendsNothing(start, [], true, env);
      for i := 0 to |defs|
        invariant Valid() && KeepsEntriesOf(old(functions), old(functionOrder), old(imports), old(importOrder))
        invariant Extends(start, Children(target), PicksOf(defs[..i], choose), true, env)
      {
        PicksOfStep(defs, i, choose);
        ghost var before := Children(target);
        var one := AttachFunction(target, path, defs[i], sel, env, fuel);
        ExtendsThen(start, before, Children(target), PicksOf(defs[..i], choose), choose(defs[i]), one, env);
        if !one {
          PicksOfPrefix(defs, i + 1, choose);
          ExtendsWeaken(start, Children(target), PicksOf(defs[..i + 1], choose), PicksOf(defs, choose), false, env);
          BlockedWithin(PicksOf(defs[..i], choose), choose(defs[i]), PicksOf(defs, choose), env);
          return false;
        }
      }
      assert defs[..|defs|] == defs;
      ok := true;
    }

    /** One function definition: when the selector asks for its name it is
        attached as the shared memo node of that name, built and expanded
        first when it is not there yet. */
    method AttachFunction(target: Target, path: string, node: Node, sel: Selector, env: Env, fuel: nat) returns (ok: bool)
      requires Valid() && 0 < fuel
      modifies this, Obj(target)
      ensures Valid() && KeepsEntriesOf(old(functions), old(functionOrder), old(imports), old(importOrder))
      ensures Extends(old(Children(target)), Children(target), ChooseFunction(path, sel, env.meta)(node), ok, env)
      ensures !ok ==> Blocked(ChooseFunction(path, sel, env.meta)(node), env)
      decreases fuel, 0
    {
      var name := env.meta(node).name;
      ghost var picks := ChooseFunction(path, sel, env.meta)(node);
      if !SelectsDefinition(sel, name) {
        ExtendsNothing(Children(target), picks, true, env);
        return true;
      }
      var key := (path, name);
      ghost var before := Children(target);
      var loaded := LoadFunction(path, node, env, fuel);
      assert Children(target) == before;
      if !loaded {
        ExtendsNothing(before, picks, false, env);
        assert !PickBuilds(FunctionPick(path, node), env) && FunctionPick(path, node) in picks;
        return false;
      }
      var d := OnFunction(functions[key]);
      assert Matches(d, FunctionPick(path, node), env);
      ExtendsNothing(before, [], true, env);
      Append(target, d);
      ExtendsStep(before, before, [], d, FunctionPick(path, node), env);
      assert [] + [FunctionPick(path, node)] == picks;
      ok := true;
    }

    /** The class definitions the selector asks for, each attached as a
        fresh class node; building one never fails. */
    method AttachClasses(target: Target, path: string, classes: seq<Node>, sel: Selector, env: Env)
      modifies Obj(target)
      ensures Extends(old(Children(target)), Children(target), PicksOf(classes, ChooseClass(path, sel, env.meta)), true, env)
    {
      ghost var start := Children(target);
      ghost var choose := ChooseClass(path, sel, env.meta);
      ExtendsNothing(start, [], true, env);
      for i := 0 to |classes|
        invariant Extends(start, Children(target), PicksOf(classes[..i], choose), true, env)
      {
        PicksOfStep(classes, i, choose);
        var node := classes[i];
        if SelectsDefinition(sel, env.meta(node).name) {
          ghost var before := Children(target);
          var classNode := ClassNodeOf(path, node.text, node, env.className);
          Append(target, OnClass(classNode));
          ExtendsStep(start, before, PicksOf(classes[..i], choose), OnClass(classNode), ClassPick(path, node), env);
        } else {
          assert PicksOf(classes[..i + 1], choose) == PicksOf(classes[..i], choose) + [];
        }
      }
      assert classes[..|classes|] == classes;
    }

    /** The other top-level statements of a file, in order; the first
        failure ends the walk. */
    method AttachStatements(target: Target, path: string, statements: seq<Node>, sel: Selector, env: Env, fuel: nat)
      returns (ok: bool)
      requires Valid() && 0 < fuel
      modifies this, Obj(target)
      ensures Valid() && KeepsEntriesOf(old(functions), old(functionOrder), old(imports), old(importOrder))
      ensures Extends(old(Children(target)), Children(target), PicksOf(statements, ChooseStatement(path, sel)), ok, env)
      ensures !ok ==> Blocked(PicksOf(statements, ChooseStatement(path, sel)), env)
      decreases fuel, 2
    {
      ghost var start := Children(target);
      ghost var choose := ChooseStatement(path, sel);
      ExtendsNothing(start, [], true, env);
      for i := 0 to |statements|
        invariant Valid() && KeepsEntriesOf(old(functions), old(functionOrder), old(imports), old(importOrder))
        invariant Extends(start, Children(target), PicksOf(statements[..i], choose), true, env)
      {
        PicksOfStep(statements, i, choose);
        ghost var before := Children(target);
        var one := AttachStatement(target, path, statements[i], sel, env, fuel);
        ExtendsThen(start, before, Children(target), PicksOf(statements[..i], choose), choose(statements[i]), one, env);
        if !one {
          PicksOfPrefix(statements, i + 1, choose);
          ExtendsWeaken(start, Children(target), PicksOf(statements[..i + 1], choose), PicksOf(statements, choose), false, env);
          BlockedWithin(PicksOf(statements[..i], choose), choose(statements[i]), PicksOf(statements, choose), env);
          return false;
        }
      }
      assert statements[..|statements|] == statements;
      ok := true;
    }

    /** An import statement: when the selector asks for one of its dotted
        names it is attached as the shared memo node of its text, built and
        expanded first when it is not there yet. */
    method AttachImport(target: Target, path: string, node: Node, sel: Selector, env: Env, fuel: nat) returns (ok: bool)
      requires Valid() && 0 < fuel
      modifies this, Obj(target)
      ensures Valid() && KeepsEntriesOf(old(functions), old(functionOrder), old(imports), old(importOrder))
      ensures Extends(old(Children(target)), Children(target),
                      if SelectsImport(sel, DottedTexts(node)) then [ImportPick(path, node)] else [], ok, env)
      ensures !ok ==> Blocked(if SelectsImport(sel, DottedTexts(node)) then [ImportPick(path, node)] else [], env)
      decreases fuel, 0
    {
      ghost var before := Children(target);
      var dotted := GetNodeByKind(node, Some({"dotted_name"}), {}, false);
      var names := TextsOf(dotted);
      assert names == DottedTexts(node);
      if !SelectsImport(sel, names) {
        ExtendsNothing(before, [], true, env);
        return true;
      }
      var key := (path, node.text);
      var loaded := LoadImport(path, node, env, fuel);
      assert Children(target) == before;
      if !loaded {
        ExtendsNothing(before, [ImportPick(path, node)], false, env);
        assert !PickBuilds(ImportPick(path, node), env) && ImportPick(path, node) in [ImportPick(path, node)];
        return false;
      }
      var d := OnImport(imports[key]);
      assert Matches(d, ImportPick(path, node), env);
      ExtendsNothing(before, [], true, env);
      Append(target, d);
      ExtendsStep(before, before, [], d, ImportPick(path, node), env);
      assert [] + [ImportPick(path, node)] == [ImportPick(path, node)];
      ok := true;
    }

    /** `get_dependencies` on a function node of a module whose file was
        read: the call cannot escape, so the node ends up in the memo. */
    method ExpandListed(f: FunctionNode, env: Env, fuel: nat)
      requires Valid() && env.fs.read(f.path).Some?
      modifies this, f
      ensures Valid() && KeepsEntriesOf(old(functions), old(functionOrder), old(imports), old(importOrder))
      ensures (f.path, f.name) in functions
    {
      var visit := GetDependencies(FunctionTarget(f), env, fuel);
      assert KeyOf(FunctionTarget(f)) == (f.path, f.name);
    }

    /** The expansion `get_dependencies` runs on a target: the function's or
        the import's; `None` when the function's own file cannot be read. */
    method ExpandTarget(target: Target, env: Env, fuel: nat) returns (r: Option<bool>)
      requires Valid()
      modifies this, Obj(target)
      ensures Valid() && KeepsEntriesOf(old(functions), old(functionOrder), old(imports), old(importOrder))
      ensures r.None? <==> 0 < fuel && target.FunctionTarget? && env.fs.read(target.fn.path).None?
      ensures r.None? ==> unchanged(this) && Children(target) == old(Children(target))
      ensures r.Some? ==> Extends(old(Children(target)), Children(target), ExpectedPicks(target, env), r.value, env)
      ensures r.Some? && fuel == 0 ==> Children(target) == old(Children(target)) && !r.value
      ensures r == Some(false) ==> fuel == 0 || Blocked(ExpectedPicks(target, env), env)
      decreases fuel, 5
    {
      if fuel == 0 {
        ExtendsNothing(Children(target), ExpectedPicks(target, env), false, env);
        return Some(false);
      }
      match target
      case FunctionTarget(f) =>
        r := ExpandFunction(f, env, fuel);
      case ImportTarget(i) =>
        var ok := ExpandImport(i, env, fuel);
        r := Some(ok);
    }

    /** The memo's node for a function definition, built and expanded first
        when it is not there yet; building fails when the definition's callee
        texts are malformed, and expanding escapes when its file cannot be
        read. */
    method LoadFunction(path: string, node: Node, env: Env, fuel: nat) returns (ok: bool)
      requires Valid() && 0 < fuel
      modifies this
      ensures Valid() && KeepsEntriesOf(old(functions), old(functionOrder), old(imports), old(importOrder))
      ensures ok ==> (path, env.meta(node).name) in functions
      ensures old((path, env.meta(node).name) in functions) ==> ok && unchanged(this)
      ensures !old((path, env.meta(node).name) in functions) ==>
        (ok <==> Dependencies(node, env.parse).Ok? && (1 < fuel ==> env.fs.read(path).Some?))
      decreases fuel - 1, 7
    {
      var key := (path, env.meta(node).name);
      if key in functions {
        return true;
      }
      var dep := NewFunctionNode(path, node.text, node, env.meta, env.parse);
      if dep.Err? {
        return false;
      }
      var visit := GetDependencies(FunctionTarget(dep.value), env, fuel - 1);
      ok := !visit.Escaped?;
    }

    /** The memo's node for an import statement's text, built and expanded
        first when it is not there yet; building fails when the statement's
        import details cannot be analysed. */
    method LoadImport(path: string, node: Node, env: Env, fuel: nat) returns (ok: bool)
      requires Valid() && 0 < fuel
      modifies this
      ensures Valid() && KeepsEntriesOf(old(functions), old(functionOrder), old(imports), old(importOrder))
      ensures ok ==> (path, node.text) in imports
      ensures old((path, node.text) in imports) ==> ok && unchanged(this)
      ensures !old((path, node.text) in imports) ==>
        (ok <==> Analyze([node], path, env.fs, env.parse, env.graph, env.exts).Ok?)
      decreases fuel - 1, 7
    {
      var key := (path, node.text);
      if key in imports {
        return true;
      }
      var dep := NewImportNode(path, node.text, node, env.fs, env.parse, env.graph, env.exts);
      if dep.Err? {
        return false;
      }
      var visit := GetDependencies(ImportTarget(dep.value), env, fuel - 1);
      ok := true;
    }

    /** One top-level statement: definitions were handled already; an
        import statement the selector asks for is attached as the shared
        memo node of its text, built and expanded first when it is not
        there yet; an expression statement it asks for becomes a block. */
    method AttachStatement(target: Target, path: string, node: Node, sel: Selector, env: Env, fuel: nat) returns (ok: bool)
      requires Valid() && 0 < fuel
      modifies this, Obj(target)
      ensures Valid() && KeepsEntriesOf(old(functions), old(functionOrder), old(imports), old(importOrder))
      ensures Extends(old(Children(target)), Children(target), ChooseStatement(path, sel)(node), ok, env)
      ensures !ok ==> Blocked(ChooseStatement(path, sel)(node), env)
      decreases fuel, 1
    {
      ghost var picks := ChooseStatement(path, sel)(node);
      ghost var before := Children(target);
      ExtendsNothing(before, [], true, env);
      if node.kind in DefinitionKinds {
        return true;
      }
      if Contains(node.kind, "import") {
        ok := AttachImport(target, path, node, sel, env, fuel);
        return;
      }
      if node.kind == "expression_statement" {
        var idNodes := GetNodeByKind(node, Some({"identifier"}), {}, false);
        var ids := TextsOf(idNodes);
        if SelectsBlock(sel, ids) {
          var block := BlockNodeOf(path, node.text, node);
          Append(target, OnBlock(block.value));
          ExtendsStep(before, before, [], OnBlock(block.value), BlockPick(path, node), env);
        }
      }
      ok := true;
    }
  }

  /** `[x.text for x in nodes]`. */
  method TextsOf(nodes: seq<Node>) returns (texts: seq<string>)
    ensures texts == seq(|nodes|, j requires 0 <= j < |nodes| => nodes[j].text)
  {
    texts := [];
    for i := 0 to |nodes|
      invariant texts == seq(i, j requires 0 <= j < i => nodes[j].text)
    {
      texts := texts + [nodes[i].text];
    }
  }

  // ---------------------------------------------------------------------
  // Grouping the requests of an import
  // ---------------------------------------------------------------------

  /** The `selected_file` loop of `get_import_dependencies`. */
  method GroupRequests(kept: seq<ResolvedImport>) returns (order: seq<string>, selected: map<string, seq<string>>)
    ensures order == RequestOrder(kept) && selected == RequestMap(kept)
  {
    order := [];
    selected := map[];
    for i := 0 to |kept|
      invariant order == RequestOrder(kept[..i]) && selected == RequestMap(kept[..i])
    {
      assert kept[..i + 1][..i] == kept[..i];
      var p := TargetPath(kept[i]);
      if p !in selected {
        selected := selected[p := []];
      }
      if p !in order {
        order := order + [p];
      }
      selected := selected[p := selected[p] + [RequestName(kept[i])]];
      RequestKeys(kept[..i]);
    }
    assert kept[..|kept|] == kept;
  }

  /** The grouping keeps one entry per target file, in first-request
      order, and each holds exactly the names requested from that file,
      in request order. */
  lemma RequestKeys(ds: seq<ResolvedImport>)
    ensures NoDuplicates(RequestOrder(ds))
    ensures forall p :: p in RequestMap(ds) <==> p in RequestOrder(ds)
    ensures forall p :: p in RequestOrder(ds) <==> exists k :: 0 <= k < |ds| && TargetPath(ds[k]) == p
    ensures forall p :: p in RequestMap(ds) ==> RequestMap(ds)[p] == RequestsFor(ds, p)
  {
    RequestOrderSpec(ds);
    RequestMapSpec(ds);
  }

  lemma {:induction false} RequestOrderSpec(ds: seq<ResolvedImport>)
    ensures NoDuplicates(RequestOrder(ds))
    ensures forall p :: p in RequestOrder(ds) <==> exists k :: 0 <= k < |ds| && TargetPath(ds[k]) == p
  {
    if ds != [] {
      var n := |ds| - 1;
      var pre := ds[..n];
      RequestOrderSpec(pre);
      forall p ensures p in RequestOrder(ds) <==> exists k :: 0 <= k < |ds| && TargetPath(ds[k]) == p {
        if exists k :: 0 <= k < |ds| && TargetPath(ds[k]) == p {
          var k :| 0 <= k < |ds| && TargetPath(ds[k]) == p;
          if k < n {
            assert TargetPath(pre[k]) == p;
          }
        }
        if exists k :: 0 <= k < n && TargetPath(pre[k]) == p {
          var k :| 0 <= k < n && TargetPath(pre[k]) == p;
          assert ds[k] == pre[k];
        }
      }
    }
  }

  lemma {:induction false} RequestMapSpec(ds: seq<ResolvedImport>)
    ensures forall p :: p in RequestMap(ds) <==> p in RequestOrder(ds)
    ensures forall p :: p in RequestMap(ds) ==> RequestMap(ds)[p] == RequestsFor(ds, p)
  {
    if ds != [] {
      var n := |ds| - 1;
      var pre := ds[..n];
      var last := TargetPath(ds[n]);
      RequestMapSpec(pre);
      var m := RequestMap(pre);
      assert RequestMap(ds) == m[last := (if last in m then m[last] else []) + [RequestName(ds[n])]];
      forall p | p in RequestMap(ds) ensures RequestMap(ds)[p] == RequestsFor(ds, p) {
        assert RequestsFor(ds, p) == RequestsFor(pre, p) + (if last == p then [RequestName(ds[n])] else []);
        if p != last {
          assert p in m;
        } else if last !in m {
          RequestOrderSpec(pre);
          RequestsForAbsent(pre, p);
        }
      }
    }
  }

  /** A file no detail targets is requested nothing. */
  lemma {:induction false} RequestsForAbsent(ds: seq<ResolvedImport>, p: string)
    requires forall k :: 0 <= k < |ds| ==> TargetPath(ds[k]) != p
    ensures RequestsFor(ds, p) == []
  {
    if ds != [] {
      var n := |ds| - 1;
      assert forall k :: 0 <= k < n ==> ds[..n][k] == ds[k];
      RequestsForAbsent(ds[..n], p);
    }
  }

  // ---------------------------------------------------------------------
  // What the expansions select
  // ---------------------------------------------------------------------

  /** What a pick of the file at `path` under `sel` satisfies: it lies in
      that file and the selector asked for it. */
  predicate PickedBy(p: Pick, path: string, sel: Selector, meta: Node -> FunctionMeta)
  {
    && p.path == path
    && ((p.FunctionPick? || p.ClassPick?) ==> SelectsDefinition(sel, meta(p.node).name))
    && (p.ImportPick? ==> SelectsImport(sel, DottedTexts(p.node)))
    && (p.BlockPick? ==> SelectsBlock(sel, IdentifierTexts(p.node)))
  }

  /** A property every node's choice has holds of all the picks. */
  lemma {:induction false} PicksOfAll(nodes: seq<Node>, choose: Node -> seq<Pick>, ok: Pick -> bool)
    requires forall n, p :: n in nodes && p in choose(n) ==> ok(p)
    ensures forall p :: p in PicksOf(nodes, choose) ==> ok(p)
  {
    if nodes != [] {
      var n := |nodes| - 1;
      assert forall m :: m in nodes[..n] ==> m in nodes;
      PicksOfAll(nodes[..n], choose, ok);
      assert nodes[n] in nodes;
    }
  }

  /** Every pick of a file lies in that file and was asked for. */
  lemma FilePicksSelected(path: string, root: Node, sel: Selector, env: Env)
    ensures forall p :: p in FilePicks(path, root, sel, env) ==> PickedBy(p, path, sel, env.meta)
  {
    var ok := (p: Pick) => PickedBy(p, path, sel, env.meta);
    PicksOfAll(FunctionDefs(root), ChooseFunction(path, sel, env.meta), ok);
    PicksOfAll(ClassDefs(root), ChooseClass(path, sel, env.meta), ok);
    PicksOfAll(root.children, ChooseStatement(path, sel), ok);
  }

  /** Every node a function expansion attaches comes from the function's
      own file: definitions whose identifier it calls, imports with a "*"
      or a called dotted name, and expression statements whose first
      identifier it calls and is no typing identifier. */
  lemma FunctionExpansionSelects(f: FunctionNode, env: Env)
    ensures forall p :: p in FunctionPicksOf(f, env) ==>
      && p.path == f.path
      && ((p.FunctionPick? || p.ClassPick?) ==> env.meta(p.node).name in f.calledIdentifiers)
      && (p.ImportPick? ==> "*" in DottedTexts(p.node) || exists k :: 0 <= k < |DottedTexts(p.node)| && DottedTexts(p.node)[k] in f.calledIdentifiers)
      && (p.BlockPick? ==> var ids := IdentifierTexts(p.node); ids != [] && ids[0] in f.calledIdentifiers && ids[0] !in env.typing)
  {
    match env.fs.read(f.path)
    case None =>
    case Some(content) =>
      var sel := FunctionSelector(f.calledIdentifiers, env.typing);
      FilePicksSelected(f.path, env.parse(content), sel, env);
      assert FunctionPicksOf(f, env) == FilePicks(f.path, env.parse(content), sel, env);
  }

  /** A defined function the function calls is always picked. */
  lemma CalledFunctionsArePicked(f: FunctionNode, env: Env, content: string, n: Node)
    requires env.fs.read(f.path) == Some(content)
    requires n in FunctionDefs(env.parse(content)) && env.meta(n).name in f.calledIdentifiers
    ensures FunctionPick(f.path, n) in FunctionPicksOf(f, env)
  {
    var root := env.parse(content);
    var sel := FunctionSelector(f.calledIdentifiers, env.typing);
    var defs := FunctionDefs(root);
    PicksOfMembers(defs, ChooseFunction(f.path, sel, env.meta));
    var k :| 0 <= k < |defs| && defs[k] == n;
    assert FunctionPick(f.path, n) in ChooseFunction(f.path, sel, env.meta)(defs[k]);
  }

  /** After a function expansion that attached all its picks (as
      `GetDependencies` ensures when fuel is left and no pick is blocked), a
      defined function of the same file that the function calls has a child
      standing for the memo's node of that name. */
  lemma CalledFunctionsAreAttached(f: FunctionNode, env: Env, content: string, n: Node,
                                   before: seq<Dependency>, after: seq<Dependency>)
    requires env.fs.read(f.path) == Some(content)
    requires n in FunctionDefs(env.parse(content)) && env.meta(n).name in f.calledIdentifiers
    requires Extends(before, after, FunctionPicksOf(f, env), true, env)
    ensures exists j :: |before| <= j < |after| && after[j].OnFunction? &&
                        after[j].functionNode.path == f.path && after[j].functionNode.name == env.meta(n).name
  {
    var picks := FunctionPicksOf(f, env);
    CalledFunctionsArePicked(f, env, content, n);
    var k :| 0 <= k < |picks| && picks[k] == FunctionPick(f.path, n);
    assert Matches(after[|before| + k], picks[k], env);
  }

  /** An import expansion only looks at files some in-repository import
      detail resolved to; with no such detail it attaches nothing. */
  lemma ImportExpansionStaysInRepo(i: ImportNode, env: Env)
    ensures KeptImports(i.importDict, env.repoSrc) == [] ==> ImportPicksOf(i, env) == []
    ensures forall p :: p in ImportPicksOf(i, env) ==>
      exists d :: d in i.importDict && InRepo(d, env.repoSrc) && TargetPath(d) == p.path
  {
    var kept := KeptImports(i.importDict, env.repoSrc);
    var order := RequestOrder(kept);
    RequestKeys(kept);
    PicksAlongFromFiles(order, RequestMap(kept), env);
    forall p | p in ImportPicksOf(i, env)
      ensures exists d :: d in i.importDict && InRepo(d, env.repoSrc) && TargetPath(d) == p.path
    {
      var k :| 0 <= k < |kept| && TargetPath(kept[k]) == p.path;
      assert kept[k] in kept;
    }
  }

  /** Every pick of a series of files lies in one of them, when each
      file's own picks lie in it. */
  lemma {:induction false} PicksAlongPaths(files: seq<string>, pick: string -> seq<Pick>)
    requires forall f, p :: f in files && p in pick(f) ==> p.path == f
    ensures forall p :: p in PicksAlong(files, pick) ==> p.path in files
  {
    if files != [] {
      var n := |files| - 1;
      assert forall f :: f in files[..n] ==> f in files;
      PicksAlongPaths(files[..n], pick);
      assert files[n] in files;
    }
  }

  /** Every pick of a series of requested files lies in one of them. */
  lemma PicksAlongFromFiles(files: seq<string>, requests: map<string, seq<string>>, env: Env)
    ensures forall p :: p in PicksAlong(files, RequestedPicksOf(requests, env)) ==> p.path in files
  {
    var pick := RequestedPicksOf(requests, env);
    forall f, p | f in files && p in pick(f) ensures p.path == f {
      match env.fs.read(f)
      case None =>
      case Some(content) =>
        FilePicksSelected(f, env.parse(content), ImportSelector(if f in requests then requests[f] else []), env);
    }
    PicksAlongPaths(files, pick);
  }

  /** In a target file, a star request takes every definition, and a
      named one takes the definitions of that name. */
  lemma RequestedDefinitionsArePicked(p: string, requests: map<string, seq<string>>, env: Env, content: string, n: Node)
    requires env.fs.read(p) == Some(content) && p in requests
    requires n in FunctionDefs(env.parse(content))
    requires "*" in requests[p] || env.meta(n).name in requests[p]
    ensures FunctionPick(p, n) in RequestedPicks(p, requests, env)
  {
    var root := env.parse(content);
    var sel := ImportSelector(requests[p]);
    var defs := FunctionDefs(root);
    PicksOfMembers(defs, ChooseFunction(p, sel, env.meta));
    var k :| 0 <= k < |defs| && defs[k] == n;
    if !("*" in requests[p]) {
      var j :| 0 <= j < |requests[p]| && requests[p][j] == env.meta(n).name;
      assert env.meta(n).name in Elements(requests[p]);
    }
    assert FunctionPick(p, n) in ChooseFunction(p, sel, env.meta)(defs[k]);
  }

  // ---------------------------------------------------------------------
  // Python's `sorted(xs, key=...)`: a stable sort
  // ---------------------------------------------------------------------

  /** `x` placed after every element of `ys` whose key is not greater. */
  function InsertBy<T>(x: T, ys: seq<T>, key: T -> nat): seq<T>
  {
    if ys == [] || key(ys[|ys| - 1]) <= key(x) then ys + [x]
    else InsertBy(x, ys[..|ys| - 1], key) + [ys[|ys| - 1]]
  }

  function SortBy<T>(xs: seq<T>, key: T -> nat): seq<T>
  {
    if xs == [] then [] else InsertBy(xs[|xs| - 1], SortBy(xs[..|xs| - 1], key), key)
  }

  predicate SortedBy<T>(xs: seq<T>, key: T -> nat)
  {
    forall i, j :: 0 <= i < j < |xs| ==> key(xs[i]) <= key(xs[j])
  }

  /** The elements of `xs` with key `k`, in order. */
  function WithKey<T>(xs: seq<T>, key: T -> nat, k: nat): seq<T>
  {
    if xs == [] then []
    else WithKey(xs[..|xs| - 1], key, k) + (if key(xs[|xs| - 1]) == k then [xs[|xs| - 1]] else [])
  }

  lemma {:induction false} InsertByMultiset<T>(x: T, ys: seq<T>, key: T -> nat)
    ensures multiset(InsertBy(x, ys, key)) == multiset(ys) + multiset{x}
    decreases |ys|
  {
    if !(ys == [] || key(ys[|ys| - 1]) <= key(x)) {
      var n := |ys| - 1;
      InsertByMultiset(x, ys[..n], key);
      assert ys == ys[..n] + [ys[n]];
    }
  }

  lemma {:induction false} InsertBySorted<T>(x: T, ys: seq<T>, key: T -> nat)
    requires SortedBy(ys, key)
    ensures SortedBy(InsertBy(x, ys, key), key)
    decreases |ys|
  {
    if !(ys == [] || key(ys[|ys| - 1]) <= key(x)) {
      var n := |ys| - 1;
      var mid := InsertBy(x, ys[..n], key);
      var r := mid + [ys[n]];
      InsertBySorted(x, ys[..n], key);
      InsertByMultiset(x, ys[..n], key);
      forall i | 0 <= i < |mid| ensures key(mid[i]) <= key(ys[n]) {
        assert mid[i] in multiset(mid);
        if mid[i] != x {
          assert mid[i] in multiset(ys[..n]);
          var i' :| 0 <= i' < n && ys[..n][i'] == mid[i];
          assert ys[i'] == mid[i];
        }
      }
      assert SortedBy(r, key);
    }
  }

  lemma {:induction false} InsertByWithKey<T>(x: T, ys: seq<T>, key: T -> nat, k: nat)
    ensures WithKey(InsertBy(x, ys, key), key, k) == WithKey(ys, key, k) + (if key(x) == k then [x] else [])
    decreases |ys|
  {
    var r := InsertBy(x, ys, key);
    if ys == [] || key(ys[|ys| - 1]) <= key(x) {
      assert r[..|r| - 1] == ys;
    } else {
      var n := |ys| - 1;
      var mid := InsertBy(x, ys[..n], key);
      InsertByWithKey(x, ys[..n], key, k);
      assert r[..|r| - 1] == mid;
    }
  }

  /** `sorted` returns the same elements ordered by key, and elements with
      equal keys keep their original order. */
  lemma {:induction false} SortBySpec<T>(xs: seq<T>, key: T -> nat)
    ensures SortedBy(SortBy(xs, key), key)
    ensures multiset(SortBy(xs, key)) == multiset(xs)
    ensures forall k :: WithKey(SortBy(xs, key), key, k) == WithKey(xs, key, k)
  {
    if xs != [] {
      var n := |xs| - 1;
      var sorted := SortBy(xs[..n], key);
      SortBySpec(xs[..n], key);
      InsertBySorted(xs[n], sorted, key);
      InsertByMultiset(xs[n], sorted, key);
      forall k ensures WithKey(SortBy(xs, key), key, k) == WithKey(xs, key, k) {
        InsertByWithKey(xs[n], sorted, key, k);
      }
      assert xs == xs[..n] + [xs[n]];
    }
  }

  // ---------------------------------------------------------------------
  // get_modules_from_repo
  // ---------------------------------------------------------------------

  /** Entries whose name starts with one of these are not walked. */
  const IgnoredPrefixes: seq<string> := [".git", "__pycache__"]

  /** A listed entry is a module when its name ends in a Python extension
      and does not start with `__init__`. */
  predicate IsModuleName(name: string, exts: seq<string>)
  {
    EndsWithAny(name, exts) && !StartsWith(name, "__init__")
  }

  /** The modules under `dir`, found at `folder`, in listing order: a
      folder's own modules come before the folder itself is considered as
      a module name. */
  function ModulesIn(folder: string, dir: Entry, exts: seq<string>): seq<string>
    requires dir.Folder?
    decreases dir, 1
  {
    ModulesFrom(folder, dir, |dir.entries|, exts)
  }

  /** The modules contributed by the first `i` entries of `dir`. */
  function ModulesFrom(folder: string, dir: Entry, i: nat, exts: seq<string>): seq<string>
    requires dir.Folder? && i <= |dir.entries|
    decreases dir, 0, i
  {
    if i == 0 then []
    else ModulesFrom(folder, dir, i - 1, exts) + EntryModules(folder, dir.entries[i - 1], exts)
  }

  /** What one entry of a folder at `folder` contributes. */
  function EntryModules(folder: string, e: Entry, exts: seq<string>): seq<string>
    decreases e, 2
  {
    var p := PathJoin(folder, e.name);
    if StartsWithAny(e.name, IgnoredPrefixes) then []
    else (if e.Folder? then ModulesIn(p, e, exts) else []) + (if IsModuleName(e.name, exts) then [p] else [])
  }

  /** `get_modules_from_repo`: appends the modules under `dir` to `modules`. */
  method GetModulesFromRepo(folder: string, dir: Entry, exts: seq<string>, modules: seq<string>) returns (r: seq<string>)
    requires dir.Folder?
    ensures r == modules + ModulesIn(folder, dir, exts)
    decreases dir
  {
    r := modules;
    for i := 0 to |dir.entries|
      invariant r == modules + ModulesFrom(folder, dir, i, exts)
    {
      var e := dir.entries[i];
      if StartsWithAny(e.name, IgnoredPrefixes) {
        continue;
      }
      var p := PathJoin(folder, e.name);
      if e.Folder? {
        r := GetModulesFromRepo(p, e, exts, r);
      }
      var isModule := HasModuleExtension(e.name, exts);
      if isModule {
        r := r + [p];
      }
    }
  }

  /** The extension loop, left at the first extension that fits. */
  method HasModuleExtension(name: string, exts: seq<string>) returns (b: bool)
    ensures b == IsModuleName(name, exts)
  {
    b := false;
    for k := 0 to |exts|
      invariant !b && !(exists j :: 0 <= j < k && EndsWith(name, exts[j]) && !StartsWith(name, "__init__"))
    {
      if EndsWith(name, exts[k]) && !StartsWith(name, "__init__") {
        return true;
      }
    }
  }

  /** A join ends with the name joined. */
  lemma PathJoinEndsWith(a: string, b: string)
    ensures EndsWith(PathJoin(a, b), b)
  {
    var p := PathJoin(a, b);
    assert p[|p| - |b|..] == b;
  }

  lemma EndsWithTransitive(s: string, t: string, u: string)
    requires EndsWith(s, t) && EndsWith(t, u)
    ensures EndsWith(s, u)
  {
    assert s[|s| - |u|..] == s[|s| - |t|..][|t| - |u|..];
  }

  /** Every listed module ends in one of the extensions. */
  lemma {:induction false} ModulesHaveExtension(folder: string, dir: Entry, i: nat, exts: seq<string>)
    requires dir.Folder? && i <= |dir.entries|
    ensures forall p :: p in ModulesFrom(folder, dir, i, exts) ==> EndsWithAny(p, exts)
    decreases dir, i
  {
    if i > 0 {
      ModulesHaveExtension(folder, dir, i - 1, exts);
      var e := dir.entries[i - 1];
      var joined := PathJoin(folder, e.name);
      if e.Folder? {
        ModulesHaveExtension(joined, e, |e.entries|, exts);
      }
      if IsModuleName(e.name, exts) {
        var k :| 0 <= k < |exts| && EndsWith(e.name, exts[k]);
        PathJoinEndsWith(folder, e.name);
        EndsWithTransitive(joined, e.name, exts[k]);
      }
      forall p | p in ModulesFrom(folder, dir, i, exts) ensures EndsWithAny(p, exts) {
        if p !in ModulesFrom(folder, dir, i - 1, exts) {
          assert p in EntryModules(folder, e, exts);
          if !(e.Folder? && p in ModulesIn(joined, e, exts)) {
            assert p == joined;
          }
        }
      }
    }
  }

  /** Listing more entries only appends. */
  lemma {:induction false} ModulesFromGrows(folder: string, dir: Entry, j: nat, i: nat, exts: seq<string>, p: string)
    requires dir.Folder? && j <= i <= |dir.entries| && p in ModulesFrom(folder, dir, j, exts)
    ensures p in ModulesFrom(folder, dir, i, exts)
    decreases i
  {
    if j < i {
      ModulesFromGrows(folder, dir, j, i - 1, exts, p);
      var before := ModulesFrom(folder, dir, i - 1, exts);
      assert ModulesFrom(folder, dir, i, exts) == before + EntryModules(folder, dir.entries[i - 1], exts);
    }
  }

  /** The listing at work: a module file directly in the folder is listed,
      and so is every module of a sub-folder, while an ignored entry adds
      nothing. */
  lemma ModulesListed(folder: string, dir: Entry, e: Entry, exts: seq<string>)
    requires dir.Folder? && e in dir.entries
    ensures StartsWithAny(e.name, IgnoredPrefixes) ==> EntryModules(folder, e, exts) == []
    ensures !StartsWithAny(e.name, IgnoredPrefixes) && IsModuleName(e.name, exts) ==> PathJoin(folder, e.name) in ModulesIn(folder, dir, exts)
    ensures !StartsWithAny(e.name, IgnoredPrefixes) && e.Folder? ==>
      forall p :: p in ModulesIn(PathJoin(folder, e.name), e, exts) ==> p in ModulesIn(folder, dir, exts)
  {
    var j :| 0 <= j < |dir.entries| && dir.entries[j] == e;
    var upTo := ModulesFrom(folder, dir, j + 1, exts);
    assert upTo == ModulesFrom(folder, dir, j, exts) + EntryModules(folder, e, exts);
    forall p | p in EntryModules(folder, e, exts) ensures p in ModulesIn(folder, dir, exts) {
      assert p in upTo;
      ModulesFromGrows(folder, dir, j + 1, |dir.entries|, exts, p);
    }
  }

  // ---------------------------------------------------------------------
  // get_functions_from_module_file
  // ---------------------------------------------------------------------

  /** Node.py's `get_dependencies` as a function of the definition. */
  function DependenciesOf(parse: Parser): Node -> Result<set<string>>
  {
    (n: Node) => Dependencies(n, parse)
  }

  /** Building the function nodes of a module file raises: one of its
      top-level functions has a call whose callee text is malformed. The
      first such function gives the exception. */
  predicate ModuleFails(modulePath: string, env: Env)
  {
    MapAll(ModuleDefs(modulePath, env), DependenciesOf(env.parse)).Err?
  }

  function ModuleError(modulePath: string, env: Env): Error
    requires ModuleFails(modulePath, env)
  {
    MapAll(ModuleDefs(modulePath, env), DependenciesOf(env.parse)).error
  }

  /** The top-level function definitions of a module, with nothing for an
      unreadable file. */
  function ModuleDefs(modulePath: string, env: Env): seq<Node>
  {
    match env.fs.read(modulePath)
    case None => []
    case Some(content) => FunctionDefs(env.parse(content))
  }

  /** `get_functions_from_module_file`: one fresh function node per
      top-level function definition, in order. */
  method GetFunctionsFromModuleFile(modulePath: string, env: Env) returns (r: Result<seq<FunctionNode>>)
    ensures r.Err? <==> ModuleFails(modulePath, env)
    ensures r.Err? ==> r.error == ModuleError(modulePath, env)
    ensures r.Ok? ==> Built(r.value, modulePath, ModuleDefs(modulePath, env), env.meta, env.parse)
    ensures r.Ok? ==> forall k :: 0 <= k < |r.value| ==> fresh(r.value[k]) && r.value[k].children == []
  {
    var content := env.fs.read(modulePath);
    if content.None? {
      return Ok([]);
    }
    var root := env.parse(content.value);
    var defs := GetNodeByKind(root, Some({"function_definition"}), {"class_definition"}, true);
    r := BuildFunctions(modulePath, defs, env);
  }

  /** The function nodes stand for the definitions, one for one, each with
      the called identifiers its construction computes. */
  predicate Built(fs: seq<FunctionNode>, modulePath: string, defs: seq<Node>, meta: Node -> FunctionMeta, parse: Parser)
  {
    |fs| == |defs| && forall k :: 0 <= k < |fs| ==> BuiltFrom(fs[k], modulePath, defs[k], meta, parse)
  }

  /** The node built for one definition. */
  predicate BuiltFrom(f: FunctionNode, modulePath: string, def: Node, meta: Node -> FunctionMeta, parse: Parser)
  {
    && f.path == modulePath && f.syntax == def && f.name == meta(def).name
    && Ok(f.calledIdentifiers) == CalledOf(def, meta(def), parse)
  }

  lemma BuiltStep(fs: seq<FunctionNode>, f: FunctionNode, modulePath: string, defs: seq<Node>, i: nat, meta: Node -> FunctionMeta, parse: Parser)
    requires i < |defs| && Built(fs, modulePath, defs[..i], meta, parse)
    requires BuiltFrom(f, modulePath, defs[i], meta, parse)
    ensures Built(fs + [f], modulePath, defs[..i + 1], meta, parse)
  {
    var built := (g: FunctionNode, def: Node) => BuiltFrom(g, modulePath, def, meta, parse);
    PairwiseSnoc(fs, f, defs, i, built);
  }

  /** Nodes built for the first `i` definitions and a failure at `defs[i]`:
      the whole module fails with that failure. */
  lemma BuiltFailsAt(fs: seq<FunctionNode>, modulePath: string, defs: seq<Node>, i: nat, meta: Node -> FunctionMeta, parse: Parser)
    requires i < |defs| && Built(fs, modulePath, defs[..i], meta, parse) && Dependencies(defs[i], parse).Err?
    ensures MapAll(defs, DependenciesOf(parse)) == Err(Dependencies(defs[i], parse).error)
  {
    forall k | 0 <= k < i ensures DependenciesOf(parse)(defs[k]).Ok? {
      assert defs[..i][k] == defs[k] && BuiltFrom(fs[k], modulePath, defs[k], meta, parse);
    }
    MapAllFailsAt(defs, DependenciesOf(parse), i);
  }

  /** Nodes built for every definition: no definition fails. */
  lemma BuiltSucceeds(fs: seq<FunctionNode>, modulePath: string, defs: seq<Node>, meta: Node -> FunctionMeta, parse: Parser)
    requires Built(fs, modulePath, defs, meta, parse)
    ensures MapAll(defs, DependenciesOf(parse)).Ok?
  {
    forall k | 0 <= k < |defs| ensures DependenciesOf(parse)(defs[k]).Ok? {
      assert BuiltFrom(fs[k], modulePath, defs[k], meta, parse);
    }
    MapAllSucceeds(defs, DependenciesOf(parse));
  }

  /** `FunctionNode(module_path, text, node)` for one definition. */
  method BuildFunction(modulePath: string, def: Node, env: Env) returns (r: Result<FunctionNode>)
    ensures r.Err? ==> Dependencies(def, env.parse) == Err(r.error)
    ensures r.Ok? ==> fresh(r.value) && r.value.children == []
    ensures r.Ok? ==> BuiltFrom(r.value, modulePath, def, env.meta, env.parse)
  {
    r := NewFunctionNode(modulePath, def.text, def, env.meta, env.parse);
  }

  /** The node-building loop; the first definition whose callee texts are
      malformed raises out of it. */
  method BuildFunctions(modulePath: string, defs: seq<Node>, env: Env) returns (r: Result<seq<FunctionNode>>)
    ensures r.Err? <==> MapAll(defs, DependenciesOf(env.parse)).Err?
    ensures r.Err? ==> r.error == MapAll(defs, DependenciesOf(env.parse)).error
    ensures r.Ok? ==> Built(r.value, modulePath, defs, env.meta, env.parse)
    ensures r.Ok? ==> forall k :: 0 <= k < |r.value| ==> fresh(r.value[k]) && r.value[k].children == []
  {
    var built: seq<FunctionNode> := [];
    for i := 0 to |defs|
      invariant Built(built, modulePath, defs[..i], env.meta, env.parse)
      invariant forall k :: 0 <= k < i ==> fresh(built[k]) && built[k].children == []
    {
      var node := BuildFunction(modulePath, defs[i], env);
      if node.Err? {
        BuiltFailsAt(built, modulePath, defs, i, env.meta, env.parse);
        return Err(node.error);
      }
      BuiltStep(built, node.value, modulePath, defs, i, env.meta, env.parse);
      built := built + [node.value];
    }
    assert defs[..|defs|] == defs;
    BuiltSucceeds(built, modulePath, defs, env.meta, env.parse);
    r := Ok(built);
  }

  // ---------------------------------------------------------------------
  // Module nodes and the two entry points
  // ---------------------------------------------------------------------

  /** The entries of a memo table recorded under `path`, in insertion order. */
  function ValuesAt<V>(order: seq<(string, string)>, table: map<(string, string), V>, path: string): seq<V>
  {
    if order == [] then []
    else
      var k := order[|order| - 1];
      ValuesAt(order[..|order| - 1], table, path) + (if k.0 == path && k in table then [table[k]] else [])
  }

  /** `module in module_function_dict[...]`: something was recorded under `path`. */
  predicate HasPath(order: seq<(string, string)>, path: string)
  {
    exists k :: k in order && k.0 == path
  }

  /** The entries at `path` are exactly the table's entries under keys
      with that path. */
  lemma {:induction false} ValuesAtMembers<V>(order: seq<(string, string)>, table: map<(string, string), V>, path: string)
    ensures forall v :: v in ValuesAt(order, table, path) <==> exists k :: k in order && k.0 == path && k in table && table[k] == v
  {
    if order != [] {
      var n := |order| - 1;
      ValuesAtMembers(order[..n], table, path);
      assert order == order[..n] + [order[n]];
    }
  }

  /** The guard the source puts before filling a list changes nothing:
      with no key at the path there is nothing to list. */
  lemma {:induction false} NoPathNoValues<V>(order: seq<(string, string)>, table: map<(string, string), V>, path: string)
    requires !HasPath(order, path)
    ensures ValuesAt(order, table, path) == []
  {
    if order != [] {
      var n := |order| - 1;
      assert order[n] in order;
      assert forall k :: k in order[..n] ==> k in order;
      NoPathNoValues(order[..n], table, path);
    }
  }

  function FunctionRow(f: FunctionNode): nat
  {
    f.position.0.row
  }

  function ImportRow(i: ImportNode): nat
  {
    i.position.0.row
  }

  /** `module in [module_function_dict["function"]]`: the path compared
      with the one element of a list, a dictionary. */
  datatype PyValue = PyStr(s: string) | PyDict(keys: set<string>)

  predicate WrittenModuleCheck(modulePath: string, order: seq<(string, string)>)
  {
    PyStr(modulePath) in [PyDict(set k | k in order :: k.0)]
  }

  /** A string never equals a dictionary, so the as-written guard never
      holds, however many functions of the module were recorded. */
  lemma WrittenModuleCheckNeverHolds(modulePath: string, order: seq<(string, string)>)
    ensures !WrittenModuleCheck(modulePath, order)
  {
  }

  /** A fresh module node listing the function and import nodes recorded
      under `modulePath`, each list ordered by first line. `asWritten` selects
      the guard of `file_extract` for the function list. */
  method ListModule(modulePath: string, memo: Memo, asWritten: bool) returns (node: ModuleNode)
    ensures fresh(node) && node.path == modulePath
    ensures node.functionList ==
      if (if asWritten then WrittenModuleCheck(modulePath, memo.functionOrder) else HasPath(memo.functionOrder, modulePath))
      then SortBy(ValuesAt(memo.functionOrder, memo.functions, modulePath), FunctionRow) else []
    ensures node.importList ==
      if HasPath(memo.importOrder, modulePath) then SortBy(ValuesAt(memo.importOrder, memo.imports, modulePath), ImportRow) else []
  {
    node := new ModuleNode(modulePath);
    var check := if asWritten then WrittenModuleCheck(modulePath, memo.functionOrder) else HasPath(memo.functionOrder, modulePath);
    node.functionList := if check then SortBy(ValuesAt(memo.functionOrder, memo.functions, modulePath), FunctionRow) else [];
    if HasPath(memo.importOrder, modulePath) {
      node.importList := SortBy(ValuesAt(memo.importOrder, memo.imports, modulePath), ImportRow);
    }
  }

  /** Building a module's function nodes and expanding each of them:
      afterwards every top-level function of the module is in the memo. */
  method ExpandFunctions(modulePath: string, env: Env, fuel: nat, memo: Memo) returns (r: Result<()>)
    requires memo.Valid()
    modifies memo
    ensures memo.Valid()
    ensures memo.KeepsEntriesOf(old(memo.functions), old(memo.functionOrder), old(memo.imports), old(memo.importOrder))
    ensures r.Err? <==> ModuleFails(modulePath, env)
    ensures r.Err? ==> r.error == ModuleError(modulePath, env)
    ensures r.Ok? ==> forall k :: 0 <= k < |ModuleDefs(modulePath, env)| ==>
      (modulePath, env.meta(ModuleDefs(modulePath, env)[k]).name) in memo.functions
  {
    var functions := GetFunctionsFromModuleFile(modulePath, env);
    if functions.Err? {
      return Err(functions.error);
    }
    var fs := functions.value;
    for i := 0 to |fs|
      invariant memo.Valid()
      invariant memo.KeepsEntriesOf(old(memo.functions), old(memo.functionOrder), old(memo.imports), old(memo.importOrder))
      invariant forall k :: 0 <= k < i ==> (modulePath, fs[k].name) in memo.functions
    {
      ghost var before := memo.functions;
      assert env.fs.read(modulePath).Some? by {
        assert |ModuleDefs(modulePath, env)| == |fs|;
      }
      memo.ExpandListed(fs[i], env, fuel);
      forall k | 0 <= k < i + 1 ensures (modulePath, fs[k].name) in memo.functions {
        if k < i {
          assert (modulePath, fs[k].name) in before;
        }
      }
    }
    r := Ok(());
  }

  /** One module of `repo_extract`: its functions expanded into the shared
      memo, then its module node listing what the memo holds for it. */
  method ExpandModule(modulePath: string, env: Env, fuel: nat, memo: Memo) returns (r: Result<ModuleNode>)
    requires memo.Valid()
    modifies memo
    ensures memo.Valid()
    ensures memo.KeepsEntriesOf(old(memo.functions), old(memo.functionOrder), old(memo.imports), old(memo.importOrder))
    ensures r.Err? <==> ModuleFails(modulePath, env)
    ensures r.Err? ==> r.error == ModuleError(modulePath, env)
    ensures r.Ok? ==> fresh(r.value) && r.value.path == modulePath
    ensures r.Ok? ==> r.value.functionList == SortBy(ValuesAt(memo.functionOrder, memo.functions, modulePath), FunctionRow)
    ensures r.Ok? ==> r.value.importList == SortBy(ValuesAt(memo.importOrder, memo.imports, modulePath), ImportRow)
    ensures r.Ok? ==> ListsSorted(r.value) && ListsDefinitions(r.value, env)
  {
    var expanded := ExpandFunctions(modulePath, env, fuel, memo);
    if expanded.Err? {
      return Err(expanded.error);
    }
    var node := ListModule(modulePath, memo, false);
    ListedAfterExpansion(node, modulePath, env, memo);
    if !HasPath(memo.functionOrder, modulePath) {
      NoPathNoValues(memo.functionOrder, memo.functions, modulePath);
    }
    if !HasPath(memo.importOrder, modulePath) {
      NoPathNoValues(memo.importOrder, memo.imports, modulePath);
    }
    SortBySpec(ValuesAt(memo.functionOrder, memo.functions, modulePath), FunctionRow);
    SortBySpec(ValuesAt(memo.importOrder, memo.imports, modulePath), ImportRow);
    r := Ok(node);
  }

  /** Every top-level function definition of the module's file has a node
      in the module node's function list. */
  predicate ListsDefinitions(m: ModuleNode, env: Env)
    reads m
  {
    forall k :: 0 <= k < |ModuleDefs(m.path, env)| ==> ListsDefinitionAt(m, env, k)
  }

  /** The `k`-th definition of the module's file has a node in the list. */
  predicate ListsDefinitionAt(m: ModuleNode, env: Env, k: nat)
    reads m
    requires k < |ModuleDefs(m.path, env)|
  {
    exists f :: f in m.functionList && f.path == m.path && f.name == env.meta(ModuleDefs(m.path, env)[k]).name
  }

  /** Once every definition of the module is in the memo, the node listing
      the memo's functions for that path lists all of them. */
  lemma ListedAfterExpansion(node: ModuleNode, modulePath: string, env: Env, memo: Memo)
    requires memo.Valid() && node.path == modulePath
    requires node.functionList == if HasPath(memo.functionOrder, modulePath)
      then SortBy(ValuesAt(memo.functionOrder, memo.functions, modulePath), FunctionRow) else []
    requires forall k :: 0 <= k < |ModuleDefs(modulePath, env)| ==>
      (modulePath, env.meta(ModuleDefs(modulePath, env)[k]).name) in memo.functions
    ensures ListsDefinitions(node, env)
    ensures SortedBy(node.functionList, FunctionRow)
  {
    var order, table := memo.functionOrder, memo.functions;
    if !HasPath(order, modulePath) {
      NoPathNoValues(order, table, modulePath);
    }
    SortBySpec(ValuesAt(order, table, modulePath), FunctionRow);
    forall k | 0 <= k < |ModuleDefs(node.path, env)| ensures ListsDefinitionAt(node, env, k) {
      var key := (modulePath, env.meta(ModuleDefs(modulePath, env)[k]).name);
      assert key in order;
      ListedKey(node.functionList, order, table, key);
    }
  }

  /** A key in the memo whose path is the module's has its node listed. */
  lemma ListedKey(list: seq<FunctionNode>, order: seq<(string, string)>, table: map<(string, string), FunctionNode>,
                  key: (string, string))
    requires key in order && key in table && table[key].path == key.0 && table[key].name == key.1
    requires list == SortBy(ValuesAt(order, table, key.0), FunctionRow)
    ensures exists f :: f in list && f.path == key.0 && f.name == key.1
  {
    var f := table[key];
    ValuesAtMembers(order, table, key.0);
    var found := ValuesAt(order, table, key.0);
    assert f in found;
    SortBySpec(found, FunctionRow);
    assert multiset(found)[f] > 0;
    assert f in list;
  }

  /** A module node's functions and imports are both in source-row order. */
  predicate ListsSorted(m: ModuleNode)
    reads m
  {
    SortedBy(m.functionList, FunctionRow) && SortedBy(m.importList, ImportRow)
  }

  /** `repo_extract`: every module of the repository, in listing order,
      expanded into one shared memo; the result maps each module path to
      its module node. */
  method RepoExtract(dir: Entry, env: Env, fuel: nat) returns (r: Result<map<string, ModuleNode>>)
    requires dir.Folder?
    ensures r.Err? ==> exists p :: p in ModulesIn(env.repoSrc, dir, env.exts) && ModuleFails(p, env) && r.error == ModuleError(p, env)
    ensures r.Ok? ==> r.value.Keys == Elements(ModulesIn(env.repoSrc, dir, env.exts))
    ensures r.Ok? ==> forall p :: p in r.value ==> r.value[p].path == p
    ensures r.Ok? ==> forall p :: p in r.value ==> fresh(r.value[p]) && ListsSorted(r.value[p])
    ensures r.Ok? ==> forall p :: p in r.value ==> ListsDefinitions(r.value[p], env)
  {
    var modules := GetModulesFromRepo(env.repoSrc, dir, env.exts, []);
    assert modules == ModulesIn(env.repoSrc, dir, env.exts);
    r := ExtractModules(modules, env, fuel);
  }

  /** The loop of `repo_extract` over the listed modules, with one shared memo. */
  method ExtractModules(modules: seq<string>, env: Env, fuel: nat) returns (r: Result<map<string, ModuleNode>>)
    ensures r.Err? ==> exists p :: p in modules && ModuleFails(p, env) && r.error == ModuleError(p, env)
    ensures r.Ok? ==> r.value.Keys == Elements(modules)
    ensures r.Ok? ==> forall p :: p in r.value ==> r.value[p].path == p
    ensures r.Ok? ==> forall p :: p in r.value ==> fresh(r.value[p]) && ListsSorted(r.value[p])
    ensures r.Ok? ==> forall p :: p in r.value ==> ListsDefinitions(r.value[p], env)
  {
    var memo := new Memo();
    var moduleDict: map<string, ModuleNode> := map[];
    for i := 0 to |modules|
      invariant memo.Valid()
      invariant moduleDict.Keys == Elements(modules[..i])
      invariant forall p :: p in moduleDict ==> moduleDict[p].path == p
      invariant forall p :: p in moduleDict ==> fresh(moduleDict[p]) && ListsSorted(moduleDict[p])
      invariant forall p :: p in moduleDict ==> ListsDefinitions(moduleDict[p], env)
    {
      var next := AddModule(modules[i], env, fuel, memo, moduleDict);
      if next.Err? {
        assert modules[i] in modules;
        return Err(next.error);
      }
      forall p | p in next.value
        ensures fresh(next.value[p]) && ListsSorted(next.value[p]) && ListsDefinitions(next.value[p], env)
      {
        if p != modules[i] {
          assert next.value[p] == moduleDict[p];
        }
      }
      moduleDict := next.value;
      ElementsStep(modules, i);
    }
    assert modules[..|modules|] == modules;
    r := Ok(moduleDict);
  }

  /** One iteration of `repo_extract`: the module's node entered in the
      dictionary under its path. */
  method AddModule(modulePath: string, env: Env, fuel: nat, memo: Memo, moduleDict: map<string, ModuleNode>)
    returns (r: Result<map<string, ModuleNode>>)
    requires memo.Valid()
    requires forall p :: p in moduleDict ==> moduleDict[p].path == p
    modifies memo
    ensures memo.Valid()
    ensures r.Err? <==> ModuleFails(modulePath, env)
    ensures r.Err? ==> r.error == ModuleError(modulePath, env)
    ensures r.Ok? ==> r.value.Keys == moduleDict.Keys + {modulePath}
    ensures r.Ok? ==> forall p :: p in r.value ==> r.value[p].path == p
    ensures r.Ok? ==> forall p :: p in moduleDict && p != modulePath ==> r.value[p] == moduleDict[p]
    ensures r.Ok? ==> fresh(r.value[modulePath]) && ListsSorted(r.value[modulePath])
    ensures r.Ok? ==> ListsDefinitions(r.value[modulePath], env)
    ensures r.Ok? ==> r.value[modulePath].functionList == SortBy(ValuesAt(memo.functionOrder, memo.functions, modulePath), FunctionRow)
    ensures r.Ok? ==> r.value[modulePath].importList == SortBy(ValuesAt(memo.importOrder, memo.imports, modulePath), ImportRow)
  {
    var node := ExpandModule(modulePath, env, fuel, memo);
    if node.Err? {
      return Err(node.error);
    }
    r := Ok(moduleDict[modulePath := node.value]);
  }

  lemma ElementsStep(xs: seq<string>, i: nat)
    requires i < |xs|
    ensures Elements(xs[..i + 1]) == Elements(xs[..i]) + {xs[i]}
  {
    forall x | x in Elements(xs[..i + 1]) ensures x in Elements(xs[..i]) + {xs[i]} {
      var k :| 0 <= k < i + 1 && xs[..i + 1][k] == x;
      if k < i {
        assert xs[..i][k] == x;
      }
    }
    forall x | x in Elements(xs[..i]) ensures x in Elements(xs[..i + 1]) {
      var k :| 0 <= k < i && xs[..i][k] == x;
      assert xs[..i + 1][k] == x;
    }
    assert xs[..i + 1][i] == xs[i];
  }

  /** `file_extract` as written: its function list is never filled. */
  method FileExtractAsWritten(modulePath: string, env: Env, fuel: nat) returns (r: Result<ModuleNode>)
    ensures r.Err? <==> ModuleFails(modulePath, env)
    ensures r.Err? ==> r.error == ModuleError(modulePath, env)
    ensures r.Ok? ==> fresh(r.value) && r.value.path == modulePath && r.value.functionList == []
  {
    var memo := new Memo();
    var expanded := ExpandFunctions(modulePath, env, fuel, memo);
    if expanded.Err? {
      return Err(expanded.error);
    }
    var node := ListModule(modulePath, memo, true);
    WrittenModuleCheckNeverHolds(modulePath, memo.functionOrder);
    r := Ok(node);
  }

  /** `file_extract` with the guard `module in module_function_dict["function"]`
      it evidently means: the module's own functions are all listed. */
  method FileExtract(modulePath: string, env: Env, fuel: nat) returns (r: Result<ModuleNode>)
    ensures r.Err? <==> ModuleFails(modulePath, env)
    ensures r.Err? ==> r.error == ModuleError(modulePath, env)
    ensures r.Ok? ==> fresh(r.value) && r.value.path == modulePath
    ensures r.Ok? ==> ListsDefinitions(r.value, env)
    ensures r.Ok? ==> SortedBy(r.value.functionList, FunctionRow) && SortedBy(r.value.importList, ImportRow)
  {
    var memo := new Memo();
    var expanded := ExpandFunctions(modulePath, env, fuel, memo);
    if expanded.Err? {
      return Err(expanded.error);
    }
    var node := ListModule(modulePath, memo, false);
    ListedAfterExpansion(node, modulePath, env, memo);
    SortBySpec(ValuesAt(memo.importOrder, memo.imports, modulePath), ImportRow);
    r := Ok(node);
  }
}
