# pydep dependency resolver, modelled in Dafny

pydep walks a Python repository. For every top-level function it collects the
definitions, imports and statements the function depends on, across files. This
project models the core of that walk and proves what each step promises. The
core has five parts:

- **Text and syntax-tree helpers.** These cover `src/utils/utils.py` and
  `src/pycall/utils/parser_utils.py`. They are the white-space and line
  helpers, the kind-filtered pre-order walk of the syntax tree
  (`traverse_type` / `get_node_by_kind`), the import-statement reader
  (`parse_import`), and the line and span surgery (`decorated_clean`,
  `map_line_to_id`, `remove_content`).
- **Repository index.** This is `src/pydepcall/build_repo_graph.py`. It mirrors
  the directory tree. Every Python file becomes a leaf holding the names its
  top-level statements bind.
- **Module-reference resolver.** This is `src/pydepcall/travel_graph.py`, plus
  the older variant in `src/travel_graph.py`, which is modelled separately and
  compared with the newer one. Relative imports are probed on the file system,
  longest dot prefix first. Anything not found there is looked up in the index:
  `search_path` gives the candidate tracks, `verify_track` verifies each one,
  and the first verified track wins.
- **Identifier attribution.** This is `src/pydepcall/Node.py`. The callees of a
  function's calls decide which identifiers of its body count as dependencies.
  The node records carry a mutable `children` list.
- **Memoised closure builder.** This is `src/pycall/extractor.py`. Its
  `get_dependencies` expands a function or import node. Each child it attaches
  is either a node shared through the memo table `module_function_dict` or a
  fresh class or block node. `repo_extract` runs this over every module of the
  repository.

Modules, one per source file:

| Dafny module | file | models |
|---|---|---|
| `Common` | `common.dfy` | `Option`/`Result`, the Python exceptions, and the `str`/list built-ins the source relies on |
| `Paths` | `paths.dfy` | POSIX `os.path.dirname` and `os.path.join` |
| `TextUtils` | `text_utils.dfy` | `src/utils/utils.py`, `str.split()`, `str.strip()`, `splitlines()` |
| `SyntaxTree` | `syntax_tree.dfy` | the parser's node tree, `traverse_type`, `get_node_by_kind` |
| `ParserUtils` | `parser_utils.dfy` | `parse_import`, `decorated_clean`, `map_line_to_id`, `remove_content` |
| `RepoGraph` | `repo_graph.dfy` | `get_identifier_in_file`, `get_children` |
| `Resolver` | `resolver.dfy` | `src/pydepcall/travel_graph.py` |
| `LegacyResolver` | `legacy_resolver.dfy` | `src/travel_graph.py` |
| `Nodes` | `nodes.dfy` | `src/pydepcall/Node.py` |
| `Extractor` | `extractor.dfy` | `src/pycall/extractor.py` |

How the model is built:

- Pure code is written as functions and lemmas.
- Code that fills lists, sets or dicts in loops is written as methods with
  loops. Each method is proved equal to a declarative function, and the
  lemmas state what that function means.
- The memo table and the nodes whose `children` lists are appended to are
  classes: `Extractor.Memo`, `Nodes.FunctionNode`, `Nodes.ImportNode` and
  `Nodes.ModuleNode`. A function or import node is shared by reference, so
  appending to a child later is seen by every parent that holds it.
- The file system, the parser and the metadata extractors are parameters
  given by the caller.

## Model

| member | source | states |
|---|---|---|
| TextUtils.Words | src/utils/utils.py:31 | `str.split()` gives non-empty words without white space |
| TextUtils.FixWhiteSpaceSpec | src/utils/utils.py:29-31 | `fix_white_space` has no leading or trailing white space and no two adjacent spaces, and it keeps the words of its input in order |
| TextUtils.FixWhiteSpaceIdempotent | src/utils/utils.py:29-31 | removing redundant white space twice is the same as once |
| TextUtils.WordsOfJoin | src/utils/utils.py:31 | splitting words joined by single spaces gives the same words back |
| TextUtils.WordsCoverText | src/utils/utils.py:31 | the words of a text, run together, are the text with its white-space characters removed: splitting loses nothing but white space |
| TextUtils.StripEmptyIff | src/utils/utils.py:35 | `x.strip()` is non-empty exactly when the line has a non-white-space character |
| TextUtils.SplitLinesNoBreak | src/utils/utils.py:35 | no line `splitlines()` returns holds a line-break character |
| TextUtils.SplitLinesOfJoin | src/utils/utils.py:35 | lines without breaks, joined by "\n" and split again, come back unchanged when the last one is not empty |
| TextUtils.NonEmptyLines | src/utils/utils.py:35 | the kept lines are exactly the lines with a non-white-space character |
| TextUtils.RemoveEmptyLineSpec | src/utils/utils.py:33-35 | splitting the result of `remove_empty_line` gives exactly the non-blank lines of the input, unchanged and in order |
| TextUtils.FindAllSubstring | src/utils/utils.py:37-38 | for a one-character pattern the positions are strictly ascending, and a position is listed exactly when it holds that character |
| SyntaxTree.TraverseType | src/pycall/utils/parser_utils.py:12-25 | appends to `results` the nodes of the pre-order walk, after what `results` already held |
| SyntaxTree.GetNodeByKind | src/pycall/utils/parser_utils.py:27-43 | a node is returned exactly when its kind is wanted and it is reachable through children of non-ignored kinds, never from below a match when `avoid_nested` is set; the order is the pre-order walk |
| SyntaxTree.CollectMembers | src/pycall/utils/parser_utils.py:12-25 | the walk reports exactly the wanted nodes reachable without entering an ignored child or descending below a match under `avoid_nested` |
| SyntaxTree.CollectFromMembers | src/pycall/utils/parser_utils.py:22-25 | the children loop reports exactly what the walks of its non-ignored children report |
| SyntaxTree.RootFirst | src/pycall/utils/parser_utils.py:13-16 | a wanted root is reported first, even when its own kind is ignored |
| SyntaxTree.MatchStopsWalk | src/pycall/utils/parser_utils.py:15-19 | with `avoid_nested`, a matching root is the only node reported |
| SyntaxTree.ImageOfCollect | src/pycall/utils/parser_utils.py:27-43 | mapping a function over the nodes found for some kinds gives its values on exactly the reachable nodes of those kinds |
| ParserUtils.ParseImport | src/pycall/utils/parser_utils.py:92-129 | the flag-driven loop builds one record per dotted or aliased name after `import`, in order, with the package after `from`; a child after `from` of another kind fails the assertion |
| ParserUtils.Detail | src/pycall/utils/parser_utils.py:111-128 | a record keeps the statement's package, and a non-aliased module is both the module and the name |
| ParserUtils.AliasedDetail | src/pycall/utils/parser_utils.py:114-128 | `m as a` gives module `m`, name `a`, and the import text with " as a" appended |
| ParserUtils.DecoratedClean | src/pycall/utils/parser_utils.py:132-144 | the result is the non-decorator lines joined by "\n" |
| ParserUtils.NonDecoratorLines | src/pycall/utils/parser_utils.py:139-143 | the loop keeps exactly the lines whose stripped text does not start with "@", in order |
| ParserUtils.DecoratedCleanLines | src/pycall/utils/parser_utils.py:139-144 | splitting the cleaned text again gives exactly the kept lines |
| ParserUtils.MapLineToId | src/pycall/utils/parser_utils.py:146-155 | the keys are exactly the line indices; line 0 maps to 0 and line i to the length of the first i lines joined by "\n", plus 1 |
| ParserUtils.JoinLength | src/pycall/utils/parser_utils.py:153 | the length of the first n lines joined, plus one, is where line n starts |
| ParserUtils.LineStartLocates | src/pycall/utils/parser_utils.py:146-155 | when "\n" is the only line break, line i of the text starts at the offset recorded for it |
| ParserUtils.RemoveContent | src/pycall/utils/parser_utils.py:157-168 | a span on an unknown row is a KeyError; otherwise the result is the text between the spans |
| ParserUtils.SpanPositions | src/pycall/utils/parser_utils.py:159-163 | the position list is 0 followed by each span's start and end offsets, or a KeyError for an unknown row |
| ParserUtils.Positions | src/pycall/utils/parser_utils.py:160-163 | the position list has 2n+1 entries and starts at 0 |
| ParserUtils.KeepGaps | src/pycall/utils/parser_utils.py:165-167 | the loop concatenates the text between consecutive pairs of positions |
| ParserUtils.GapsOfPositions | src/pycall/utils/parser_utils.py:160-167 | walking the positions two at a time yields the text before, between and after the spans |
| ParserUtils.SpanOffsetsDefined | src/pycall/utils/parser_utils.py:162 | every span resolves exactly when all its rows are lines of the text |
| ParserUtils.RemoveContentKeepsOutside | src/pycall/utils/parser_utils.py:157-168 | for ascending, non-overlapping spans, exactly the characters outside every span are kept, in order |
| RepoGraph.GetIdentifierInFile | src/pydepcall/build_repo_graph.py:12-64 | an unreadable file gives a leaf with its path and no identifiers; otherwise the leaf holds the names its top-level statements bind |
| RepoGraph.TopLevelIdentifiers | src/pydepcall/build_repo_graph.py:31-62 | the statement loop collects the union of the names each top-level statement binds |
| RepoGraph.StatementIdentifiers | src/pydepcall/build_repo_graph.py:34-62 | one statement adds the names of an import, or the first identifier of any other statement |
| RepoGraph.DottedAfterImport | src/pydepcall/build_repo_graph.py:51-56 | the `start`-flag loop collects the dotted names after the `import` keyword |
| RepoGraph.DottedNamesMembers | src/pydepcall/build_repo_graph.py:51-56 | a name is collected exactly when a dotted child after some `import` keyword has it as its text |
| RepoGraph.ImportStatementNames | src/pydepcall/build_repo_graph.py:34-56 | an import binds exactly the aliases of its aliased imports and the dotted names after `import` |
| RepoGraph.AliasNamesMembers | src/pydepcall/build_repo_graph.py:40-43 | the alias names are exactly the aliases of the aliased imports inside the statement |
| RepoGraph.FirstIdentifierOnly | src/pydepcall/build_repo_graph.py:58-62 | any other statement binds at most one name, its first identifier, and none when it has no identifier |
| RepoGraph.FromImportBindsModule | src/pydepcall/build_repo_graph.py:34-56 | in `from p import m` only `m` is bound, not the package `p` |
| RepoGraph.AliasNameOf | src/pydepcall/build_repo_graph.py:43 | the alias of `m as a` is `a` |
| RepoGraph.ChildrenMirrorEntries | src/pydepcall/build_repo_graph.py:67-75 | the children are the folders and the Python files of the listing, in order: a folder becomes its own index, built the same way one level down, and a file its leaf; other files are omitted |
| RepoGraph.GetChildrenWellPathed | src/pydepcall/build_repo_graph.py:67-75 | the index is rooted at the folder, and every node sits at its parent's path joined with its name |
| RepoGraph.ChildrenWellPathed | src/pydepcall/build_repo_graph.py:68-73 | every child is at `folder/name`, all the way down |
| RepoGraph.FileLeafAt | src/pydepcall/build_repo_graph.py:19-27 | a file always becomes a leaf carrying its own path |
| Resolver.Child | src/pydepcall/travel_graph.py:21 | `childrens[name]` is the entry listed under that name |
| Resolver.FirstExtName | src/pydepcall/travel_graph.py:56-60 | a name found is one of the node's members and has the form base + extension |
| Resolver.FirstExtNameFinds | src/pydepcall/travel_graph.py:56-60 | whenever the node holds some base + extension, one is found |
| Resolver.ExtNameFound | src/pydepcall/travel_graph.py:29-33 | a node whose extension matches are non-empty has a first match |
| Resolver.SearchPath | src/pydepcall/travel_graph.py:6-24 | appends the tracks for the key to `tracks`: the graph itself when the key is None, nothing for a file leaf |
| Resolver.TracksMembers | src/pydepcall/travel_graph.py:15-24 | a track is found exactly when it is a child named key or key + extension, of a folder reached through children that do not match; nothing below a match is searched |
| Resolver.TracksFromMembers | src/pydepcall/travel_graph.py:18-24 | the children loop finds exactly what each child contributes: the child when it matches, else the tracks below it |
| Resolver.VerifyTrackSound | src/pydepcall/travel_graph.py:26-72 | every path reported is reached by taking, per segment, a child named after it (with or without an extension), and it is a place where the module is defined |
| Resolver.TerminalSound | src/pydepcall/travel_graph.py:27-53 | with no segments left, the path reported is the module's child (folder flag true), a file leaf binding it, a module + ext child, or an `__init__.py` binding it |
| Resolver.TerminalOrder | src/pydepcall/travel_graph.py:27-53 | with no segments left and at most one module + ext child, the checks go in order: a file binding the module, then the module's child, then a module + ext child (`.py` first), then `__init__.py` binding it, else not found; a file leaf reached with only the later checks left fails with the error of indexing a set |
| Resolver.VerifyTrackAssertion | src/pydepcall/travel_graph.py:27-60 | a node holding two of the names base + extension fails the assertion; at the end of the walk this is the only failure |
| Resolver.FirstVerifiedAt | src/pydepcall/travel_graph.py:87-94 | the first track that is not missed decides the search |
| Resolver.FirstVerifiedNone | src/pydepcall/travel_graph.py:87-94 | when every track is missed the result is (None, None) |
| Resolver.PlainImportAtRoot | src/pydepcall/travel_graph.py:74-107 | a dot-less `import c` is checked directly at the root of the index |
| Resolver.FromImportAnchors | src/pydepcall/travel_graph.py:84-99 | a `from P import m` searches the tracks of the first part of `P` and verifies them against the remaining parts |
| Resolver.InitBindsSpec | src/pydepcall/travel_graph.py:141-146 | the `__init__.py` check holds exactly when the file is readable and some identifier of its syntax tree has the module's name |
| Resolver.Resolve | src/pydepcall/travel_graph.py:117-182 | each resolved record keeps the detail it was built from |
| Resolver.ImportAnalyze | src/pydepcall/travel_graph.py:111-183 | parses every import node, then resolves every detail; the first failure ends the analysis |
| Resolver.ParseAll | src/pydepcall/travel_graph.py:112-114 | the details of all import nodes, in order |
| Resolver.ResolveAll | src/pydepcall/travel_graph.py:117-182 | each detail gets its path and flag, in order |
| Resolver.ResolveDetail | src/pydepcall/travel_graph.py:118-182 | one detail: the relative probes, then the index search when they leave the path falsy |
| Resolver.ProbeRelative | src/pydepcall/travel_graph.py:121-175 | the loop computes the prefix loop, whose order is stated by the next four lemmas |
| Resolver.MissedPassOn | src/pydepcall/travel_graph.py:121-175 | a prefix whose probe does not fail and leaves the path falsy hands its path and flag on to the next, shorter prefix |
| Resolver.PrefixLoopFirstHit | src/pydepcall/travel_graph.py:121-175 | after longer prefixes missed, the first prefix whose probe fails or finds a path decides the loop, and no shorter prefix is tried; when all three miss, the last state is the result |
| Resolver.PrefixLoopFindsIff | src/pydepcall/travel_graph.py:121-175 | the loop finds a path exactly when some prefix finds it after every longer prefix missed without failing (both directions) |
| Resolver.DoubleDotRetry | src/pydepcall/travel_graph.py:121-129 | for a package `..p`, `...` does not apply, `..` probes `p` from two levels up, and a miss lets `.` probe from one level up with the rest `/p`, which joins to the absolute path `/p` + extension |
| Resolver.ProbePrefix | src/pydepcall/travel_graph.py:122-173 | a package starting with the prefix is probed from the file's directory raised once per dot |
| Resolver.StartDir | src/pydepcall/travel_graph.py:123-125 | the start directory is `dirname` applied once per dot |
| Resolver.InitCheck | src/pydepcall/travel_graph.py:141-146 | reads and parses the `__init__.py` and looks for the module among its identifiers |
| Resolver.ProbePackage | src/pydepcall/travel_graph.py:127-153 | for `from .p import m`: the extension loop, then an `__init__.py` binding `m`, then the directory `p/m` |
| Resolver.ProbeModule | src/pydepcall/travel_graph.py:154-173 | for `from . import m`: the extension loop, then the directory `m`, then an `__init__.py` binding `m` |
| Resolver.PackageExtLoopFirstHit | src/pydepcall/travel_graph.py:128-136 | the first extension with a hit decides: `p.ext` (flag false) beats `p/m.ext` (flag true); with no hit nothing changes |
| Resolver.ModuleExtLoopFirstHit | src/pydepcall/travel_graph.py:155-160 | the first existing `m.ext` is the path (flag true); with none nothing changes |
| Resolver.PackageProbeAfterExtensions | src/pydepcall/travel_graph.py:137-153 | with no extension hit, an existing `__init__.py` decides (its path when it binds `m`, else nothing); only without it is the directory `p/m` taken |
| Resolver.ModuleProbeAfterExtensions | src/pydepcall/travel_graph.py:162-173 | with no `m.ext`, the directory `m` comes before an `__init__.py` binding `m` |
| Resolver.AbsoluteImportUsesIndex | src/pydepcall/travel_graph.py:121-178 | an import whose package does not start with a dot probes nothing, and its path and flag come from the index search |
| Resolver.RelativeHitIgnoresIndex | src/pydepcall/travel_graph.py:174-178 | once a relative probe gives a path, the index is never consulted |
| Resolver.AnalyzeKeepsDetails | src/pydepcall/travel_graph.py:111-183 | every parsed detail comes back, in order, with `import_path` and `import_file_or_folder` set |
| Paths.DirNameOfJoin | src/pydepcall/travel_graph.py:123-125 | `dirname` undoes a join of a directory and a plain entry name |
| LegacyResolver.LegacyVerifyTrackAgrees | src/travel_graph.py:22-66 | the older `verify_track` finds exactly the newer one's path, without the flag |
| LegacyResolver.LegacyTerminalAgrees | src/travel_graph.py:23-47 | at the end of the walk both versions look for the module the same way |
| LegacyResolver.LegacyFirstVerifiedAgrees | src/travel_graph.py:80-87 | over the same tracks the older loop picks the newer loop's path |
| LegacyResolver.LegacyPlainImportAtParent | src/travel_graph.py:73-75 | a dot-less `import m` is searched below folders named like the importing file's parent directory, not at the root |
| LegacyResolver.LegacySearchAgrees | src/travel_graph.py:68-101 | with package segments, the older index search gives the newer one's path |
| LegacyResolver.LegacyPackageExtLoopAgrees | src/travel_graph.py:120-126 | the older extension loop for `from .p import m` tries the same files in the same order |
| LegacyResolver.LegacyModuleExtLoopAgrees | src/travel_graph.py:141-145 | the older extension loop for `from . import m` tries the same files in the same order |
| LegacyResolver.LegacyResolve | src/travel_graph.py:110-290 | each resolved record keeps the detail it was built from |
| LegacyResolver.LegacyImportAnalyze | src/travel_graph.py:104-291 | parses every import node, then gives each detail its path; the first failure ends the analysis |
| LegacyResolver.LegacyResolveAll | src/travel_graph.py:110-290 | each detail gets its path, in order |
| LegacyResolver.LegacyResolveDetail | src/travel_graph.py:111-160 | one detail: the relative probes, then the index search |
| LegacyResolver.LegacyProbeRelative | src/travel_graph.py:113-157 | the loop computes the older prefix loop, whose order is stated by the next four lemmas |
| LegacyResolver.LegacyMissedPassOn | src/travel_graph.py:113-157 | a prefix whose probe does not fail and leaves the path falsy hands that path on to the next, shorter prefix |
| LegacyResolver.LegacyPrefixLoopFirstHit | src/travel_graph.py:113-157 | after longer prefixes missed, the first prefix whose probe fails or finds a path decides the older loop; when all three miss, the last path is the result |
| LegacyResolver.LegacyPrefixLoopFindsIff | src/travel_graph.py:113-157 | the older loop finds a path exactly when some prefix finds it after every longer prefix missed without failing (both directions) |
| LegacyResolver.LegacyDoubleDotRetry | src/travel_graph.py:113-121 | for a package `..p`, `...` does not apply, `..` probes `p` from two levels up, and a miss lets `.` probe from one level up with the absolute rest `/p` |
| LegacyResolver.LegacyProbePrefix | src/travel_graph.py:114-155 | one prefix: the package or bare-dot probes from the raised start directory |
| LegacyResolver.InitMentionCheck | src/travel_graph.py:131-136 | reads the `__init__.py` and tests the module name as a substring of its text |
| LegacyResolver.LegacyProbePackage | src/travel_graph.py:119-139 | the older probes for `from .p import m` |
| LegacyResolver.LegacyPackageExtensions | src/travel_graph.py:120-126 | the extension loop of the older package probes |
| LegacyResolver.LegacyProbeModule | src/travel_graph.py:140-155 | the older probes for `from . import m` |
| LegacyResolver.LegacyPackageProbeAfterExtensions | src/travel_graph.py:127-139 | with no extension hit, an existing `__init__.py` decides: its path when its text holds `m` anywhere, nothing when it does not (then `p/m` is never tried), an error when it cannot be read; only without it is `p/m/__init__.py` taken, and only if it exists |
| LegacyResolver.LegacyModuleProbeAfterExtensions | src/travel_graph.py:147-155 | with no `m.ext`, `m/__init__.py` comes first, then an `__init__.py` of the start directory: its path when its text holds `m`, nothing when it does not, an error when it cannot be read; nothing without either file |
| LegacyResolver.LegacyModuleProbeFirstHit | src/travel_graph.py:141-145 | the first existing `m.ext` is the path |
| LegacyResolver.LegacyAbsoluteImportUsesIndex | src/travel_graph.py:113-160 | an import whose package does not start with a dot gets its path from the older index search alone |
| LegacyResolver.LegacyAbsoluteAgrees | src/travel_graph.py:159-160 | for an absolute `from` import or a dotted `import a.b`, the older and newer resolvers give the same path |
| LegacyResolver.LegacyRelativeHitIgnoresIndex | src/travel_graph.py:156-160 | once a relative probe gives a path, the older index search is never consulted |
| LegacyResolver.LegacyAnalyzeKeepsDetails | src/travel_graph.py:104-291 | every parsed detail comes back, in order, with `import_path` set |
| Nodes.RemoveParentheses | src/pydepcall/Node.py:133-151 | string literals are cut out first; unequal counts of "(" and ")" fail the assertion; a text without "(" is an IndexError |
| Nodes.SpansOf | src/pydepcall/Node.py:136-138 | the (start, end) points of the string nodes, in order |
| Nodes.KeepOutside | src/pydepcall/Node.py:145-151 | the loop keeps the text before the first "(", then the text after each ")" up to the next "(", then the text after the last ")" |
| Nodes.UnparenthesisedHasNoParens | src/pydepcall/Node.py:145-151 | with well-nested parentheses, the kept text has no parenthesis left, so every argument list is gone |
| Nodes.CalleeOfSimpleCall | src/pydepcall/Node.py:142-151 | the text of `callee(args)` with parenthesis-free arguments reduces to `callee` |
| Nodes.SingletonPositions | src/utils/utils.py:37-38 | a character found at exactly one position is reported once, at that position |
| Nodes.GetDependencies | src/pydepcall/Node.py:153-175 | the callee sets are built from the call nodes, then the identifier filter is applied |
| Nodes.CollectCallSets | src/pydepcall/Node.py:161-168 | the call loop builds the must-include and exclude sets; the first failing `remove_parentheses` raises out of it |
| Nodes.IncludedIdentifiers | src/pydepcall/Node.py:170-175 | the identifier loop keeps the texts that must be included or are not excluded |
| Nodes.CalleeSegmentsOf | src/pydepcall/Node.py:162-163 | a cleaned callee is split at "."; a failing clean is the call's error |
| Nodes.MustSpec | src/pydepcall/Node.py:165-166 | the must-include set holds exactly the callees without a "." |
| Nodes.ExcludeSpec | src/pydepcall/Node.py:167-168 | the exclude set holds exactly the segments after the first of the dotted callees |
| Nodes.DependenciesSpec | src/pydepcall/Node.py:153-175 | attribution fails exactly when some call's text cannot be cleaned; otherwise a name is a dependency exactly when an identifier of the body has it and it is a bare callee or not excluded |
| Nodes.DependenciesAreIdentifiers | src/pydepcall/Node.py:170-175 | every dependency is the text of an identifier node of the body |
| Nodes.CalledIdentifiers | src/pydepcall/Node.py:57-60 | the called identifiers are the dependencies other than the parameters and the function's own name |
| Nodes.BlockNodeOf | src/pydepcall/Node.py:97-105 | a block is named by its first identifier and keeps its span; a statement without identifiers is an IndexError |
| Nodes.FunctionNode.constructor | src/pydepcall/Node.py:41-50 | the fields are set from the arguments and `children` starts empty |
| Nodes.NewFunctionNode | src/pydepcall/Node.py:41-60 | a fresh node with empty children, the definition's name and span, and its called identifiers; a failing attribution raises out of the constructor |
| Nodes.ImportNode.constructor | src/pydepcall/Node.py:117-125 | the fields are set from the arguments and `children` starts empty |
| Nodes.NewImportNode | src/pydepcall/Node.py:117-129 | a fresh node with empty children whose import details are the statement's analysis; a failing analysis raises out of it |
| Nodes.ModuleNode.constructor | src/pydepcall/Node.py:18-21 | a module node with its path and empty function and import lists |
| Extractor.Append | src/pycall/extractor.py:119 | `children.append` adds exactly one child at the end |
| Extractor.Memo.constructor | src/pycall/extractor.py:41 | the memo starts empty |
| Extractor.Memo.Record | src/pycall/extractor.py:263-266 | the target is stored under its key (path, name) or (path, import text), and nothing else changes |
| Extractor.Memo.GetDependencies | src/pycall/extractor.py:231-266 | a target already in the memo is left alone. Otherwise it is expanded and then recorded, and its children grow by nodes standing for a prefix of its expected picks. The expansion is cut short only when no fuel is left or some expected pick is blocked (a pick is blocked when it is a function whose callee texts cannot be attributed or whose file cannot be read, or an import whose details cannot be analysed); otherwise one child is added per expected pick, in order. An unreadable function file escapes. Memo entries are never dropped or replaced |
| Extractor.Memo.ExpandTarget | src/pycall/extractor.py:252-261 | runs the function or import expansion: the children grow by a prefix of the expected picks, all of them unless no fuel is left or some expected pick is blocked; with no fuel left, nothing is attached |
| Extractor.Memo.ExpandFunction | src/pycall/extractor.py:100-155 | nothing happens when the function's own file cannot be read; otherwise the children grow by the picks of that file under the called identifiers, all of them unless one of those picks is blocked |
| Extractor.Memo.ExpandImport | src/pycall/extractor.py:157-228 | the children grow by the picks of the in-repository target files, in first-request order, all of them unless one of those picks is blocked |
| Extractor.Memo.AttachFile | src/pycall/extractor.py:184-227 | one file contributes its selected functions, then its classes, then its other top-level statements; it stops early only at a blocked pick |
| Extractor.Memo.AttachFunctions | src/pycall/extractor.py:113-119 | the selected function definitions are attached, in order, as the memo's shared nodes; the walk stops early only at a definition that cannot be built |
| Extractor.Memo.AttachFunction | src/pycall/extractor.py:114-119 | a selected definition is attached as the memo's node for its name, built and expanded first when absent; it fails only when it cannot be built |
| Extractor.Memo.AttachClasses | src/pycall/extractor.py:122-131 | the selected classes are attached as fresh class leaves, in order |
| Extractor.Memo.AttachStatements | src/pycall/extractor.py:135-153 | the other top-level statements are attached in order, as selected; the walk stops early only at an import that cannot be built |
| Extractor.Memo.AttachStatement | src/pycall/extractor.py:136-153 | definitions are skipped; a selected import becomes its shared memo node; a selected expression statement becomes a block; only a selected import that cannot be built fails |
| Extractor.Memo.AttachImport | src/pycall/extractor.py:138-147 | an import whose dotted names include "*" or meet the selector is attached as the memo's node for its text; it fails only when its details cannot be analysed |
| Extractor.Memo.LoadFunction | src/pycall/extractor.py:116-118 | a function already in the memo is left as it is; an absent one is built, expanded and recorded, and this succeeds exactly when attribution succeeds and its file is readable |
| Extractor.Memo.LoadImport | src/pycall/extractor.py:144-146 | an absent import is built and expanded; it succeeds exactly when its analysis succeeds |
| Extractor.Memo.ExpandListed | src/pycall/extractor.py:48-49 | a function of a readable module always ends up in the memo |
| Extractor.TextsOf | src/pycall/extractor.py:139 | the texts of the nodes, in order |
| Extractor.GroupRequests | src/pycall/extractor.py:165-172 | the `selected_file` loop gives the target files in first-request order and the names requested from each |
| Extractor.RequestKeys | src/pycall/extractor.py:165-172 | each target file is listed once, exactly the files some detail targets, and each gets exactly its details' requests in order |
| Extractor.RequestOrderSpec | src/pycall/extractor.py:165-168 | the target files are listed without repetition, exactly those some detail targets |
| Extractor.RequestMapSpec | src/pycall/extractor.py:165-172 | each target file maps to the names its details request, in order |
| Extractor.RequestsForAbsent | src/pycall/extractor.py:165-172 | a file no detail targets is requested nothing |
| Extractor.FilePicksSelected | src/pycall/extractor.py:184-227 | every pick of a file lies in that file and was asked for by the selector |
| Extractor.FunctionExpansionSelects | src/pycall/extractor.py:100-153 | everything a function expansion attaches comes from the function's own file and was selected by its called identifiers |
| Extractor.CalledFunctionsArePicked | src/pycall/extractor.py:113-119 | every top-level function of the same file that the function calls is among the picks of the function's expansion |
| Extractor.CalledFunctionsAreAttached | src/pycall/extractor.py:113-119 | after an expansion that attached all its picks, which `GetDependencies` guarantees when fuel is left and no pick is blocked, every top-level function of the same file that the function calls has a child standing for the memo's node of that name |
| Extractor.ImportExpansionStaysInRepo | src/pycall/extractor.py:158-162 | with no in-repository detail nothing is attached; otherwise every pick lies in a file some kept detail targets |
| Extractor.PicksAlongFromFiles | src/pycall/extractor.py:174-180 | every pick of the target files lies in one of them |
| Extractor.RequestedDefinitionsArePicked | src/pycall/extractor.py:185-194 | in a target file, a star request takes every definition and a named request takes the definition of that name |
| Extractor.SortBySpec | src/pycall/extractor.py:51-54 | the lists are sorted by start row, a permutation of the input, and nodes with equal rows keep their order |
| Extractor.GetModulesFromRepo | src/pycall/extractor.py:57-76 | appends the modules below the folder to `modules`, in listing order |
| Extractor.HasModuleExtension | src/pycall/extractor.py:73-76 | the extension loop holds exactly when the name ends in some extension and does not start with `__init__` |
| Extractor.ModulesHaveExtension | src/pycall/extractor.py:73-75 | every listed module ends in one of the extensions |
| Extractor.ModulesListed | src/pycall/extractor.py:66-76 | ignored entries add nothing; a module file of the folder is listed; a folder's modules are listed |
| Extractor.GetFunctionsFromModuleFile | src/pycall/extractor.py:78-97 | one fresh function node per top-level definition, in order, with empty children; the first definition whose attribution fails raises |
| Extractor.BuildFunction | src/pycall/extractor.py:95 | the node built for one definition, or its attribution error |
| Extractor.BuildFunctions | src/pycall/extractor.py:94-97 | the node-building loop stands for every definition one for one, or fails with the first failing definition's error |
| Extractor.ValuesAtMembers | src/pycall/extractor.py:52 | the entries listed for a path are exactly the memo's entries under keys with that path |
| Extractor.NoPathNoValues | src/pycall/extractor.py:51-54 | the guard before filling a list changes nothing: without entries for the path the list is empty either way |
| Extractor.WrittenModuleCheckNeverHolds | src/pycall/extractor.py:30 | the guard as written compares a path with a dictionary, so it never holds, even when functions of the module were recorded |
| Extractor.ListModule | src/pycall/extractor.py:30-33 | a fresh module node for the path; the import list holds the memo's import nodes for the path sorted by start row, and the function list holds its function nodes sorted by start row exactly when the chosen guard (as written, or as intended) holds |
| Extractor.ExpandFunctions | src/pycall/extractor.py:44-49 | builds and expands the module's functions; afterwards every top-level function of the module is in the memo; a failing build is the module's error |
| Extractor.ExpandModule | src/pycall/extractor.py:44-54 | one module: a new node whose lists are the memo's function and import nodes for its path, sorted by start row, so both lists are in row order and every top-level function of the module's file has a node in its function list |
| Extractor.ListedAfterExpansion | src/pycall/extractor.py:44-54 | once every top-level function of a module is in the memo, a node listing the memo's function nodes for that path in row order holds a node for each of them, and the list is sorted |
| Extractor.RepoExtract | src/pycall/extractor.py:38-55 | the result maps exactly the listed modules to new nodes carrying their paths, each with its functions and imports in row order and a node for every top-level function of its file; a failure is some module's failure |
| Extractor.ExtractModules | src/pycall/extractor.py:41-55 | the loop over the modules, with one shared memo: on success every module is a key, and its new node carries its path and lists its functions and imports in row order, with a node for every top-level function of its file; a failure is the failure of one of the modules |
| Extractor.AddModule | src/pycall/extractor.py:45-54 | enters a new node under the module's path, listing the memo's function and import nodes for that path in row order, including a node for every top-level function of the module's file, and leaves every other entry as it was; fails exactly when that module fails, with its error |
| Extractor.FileExtractAsWritten | src/pycall/extractor.py:22-35 | `file_extract` as written: its function list is always empty |
| Extractor.FileExtract | src/pycall/extractor.py:22-35 | `file_extract` with the evident guard: every top-level function of the module is listed, and both lists are sorted by start row |

## Left out

- Reading files, listing directories, `os.path.exists` and `os.path.isdir` are parameters: a directory tree value for the listings and a path-keyed view for the probes.
- The parser and the metadata extractors are parameters: tree-sitter parsing, the function and class metadata of `codetext`, and the string-literal spans `remove_parentheses` asks the parser for.
- `PY_EXTENSIONS` and `EXCLUDED_TYPING_IDENTIFIERS` are parameters, because the module defining them is not part of this model.
- Text is `seq<char>`, with one character standing for one byte where the source encodes to UTF-8. Multi-byte characters and decode errors are not modelled.
- Python's `None` and `False` as a missing path are both `None`, because the source only tests their truthiness.
- Python's recursion ceiling is a `fuel` argument. A run cut short by the ceiling is modelled as an expansion that stops attaching children; the exact depth at which Python stops is not modelled.
- `called_identifiers` is a set. The source keeps a list, but only ever tests membership in it.
- The ValueError of `get_dependencies` for a target of another type cannot arise, because the target type admits only function and import nodes.
- The nested dicts of `module_function_dict` are two flat tables keyed by (path, name) and (path, import text), each with its keys in insertion order. The empty per-path dict the source creates before the memo check is not kept; `Extractor.NoPathNoValues` shows that the listed nodes are the same.
- Class bodies are kept as leaves, because their expansion is an unimplemented placeholder in the source.
- `clone_repo`, the JSON cache of `get_repo_graph`, `remove_comment` and `code_basic_clean` are not modelled. They shell out to git, write files, or depend on the parser.
- The `Extractor` constructor and `extract` dispatcher are not modelled separately: the index is a parameter, and `repo_extract` and `file_extract` are modelled directly.
- Extractor.RepoExtract: states that a failure is the failure of some listed module, not that it is the first failing module in listing order.
- Resolver.Resolve: its own contract states only that the detail is kept; the path and flag it gives are stated by the probe and index lemmas.
- LegacyResolver.LegacyResolve: as for `Resolver.Resolve`, the path is stated by the probe and index lemmas.
- LegacyResolver.LegacyImportAnalyze: `src/travel_graph.py` imports `parse_import` from a top-level `utils` package that is not part of this model, so the older resolver is taken to parse imports as `parse_import` in `src/pycall/utils/parser_utils.py` does.
- `src/pydepcall/travel_graph.py` and `src/pydepcall/Node.py` import `parse_import`, `get_root_node`, `get_node_by_kind`, `get_import_list`, `remove_content` and `find_all_substring` from a package-local `utils` module that is not part of this model; the model takes them to behave as the functions of the same names in `src/pycall/utils/parser_utils.py` and `src/utils/utils.py`.
- A directory listing is a sequence of entries and may name the same entry twice, which `os.listdir` never does; with a repeated name the model keeps both children where the source's dictionary keeps one.
- Extractor.ExtractModules: the lists of a module's node are stated as sorted and as listing every top-level function of its file, not as exactly the memo's nodes for that path once all modules are expanded, because the memo is local to the loop.

## Findings

| source | as written | input that shows it | evidently intended | confidence | as-written member | corrected member |
|---|---|---|---|---|---|---|
| src/pycall/extractor.py:30 | `self.module in [module_function_dict["function"]]` compares the module path with a dictionary, so the guard is always false | any module that defines a top-level function: its functions are expanded and recorded under its path, yet `function_list` stays empty | `self.module in module_function_dict["function"]`, as at lines 32 and 51 | high, not executed | Extractor.WrittenModuleCheckNeverHolds | Extractor.FileExtract |
