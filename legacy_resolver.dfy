/** The older module-reference resolver of `src/travel_graph.py`. It gives a
    bare path (no file-or-folder flag), anchors a plain `import m` at the
    importing file's parent directory, and checks an `__init__.py` by a raw
    substring test. Its `search_path` is the newer one restricted to a key,
    so `Resolver.Tracks(Some(key), ..)` serves for both. */
module LegacyResolver {
  import opened Common
  import opened Paths
  import opened SyntaxTree
  import opened ParserUtils
  import opened RepoGraph
  import opened Resolver

  /** The newer resolver's result with the flag dropped. */
  function PathOf(r: Result<Outcome>): Result<Option<string>>
  {
    match r
    case Err(e) => Err(e)
    case Ok(o) => Ok(o.path)
  }

  // ---------------------------------------------------------------------
  // verify_track
  // ---------------------------------------------------------------------

  /** The older `verify_track`: the same walk and terminal preference as the
      newer one, giving a path or None (for Python's False). */
  function LegacyVerifyTrack(segs: seq<string>, moduleName: string, track: Graph, exts: seq<string>): Result<Option<string>>
    decreases |segs|
  {
    if segs == [] then
      var mc := ExtMembers(track, moduleName, exts);
      if |mc| > 1 then Err(AssertionFailed)
      else if moduleName !in Members(track) && |mc| == 0 then
        if "__init__.py" in Members(track) then
          if track.Leaf? then Err(NotADict)
          else
            var init := Child(track.children, "__init__.py");
            if moduleName !in Members(init) then Ok(None) else Ok(Some(init.path))
        else Ok(None)
      else if moduleName in Members(track) then
        if track.Leaf? then Ok(Some(track.path))
        else Ok(Some(Child(track.children, moduleName).path))
      else if track.Leaf? then Err(NotADict)
      else if moduleName + ".py" in mc then Ok(Some(Child(track.children, moduleName + ".py").path))
      else
        ExtNameFound(track, moduleName, exts);
        Ok(Some(Child(track.children, FirstExtName(Members(track), moduleName, exts, 0).value).path))
    else
      var seg := segs[0];
      var mc := ExtMembers(track, seg, exts);
      if |mc| > 1 then Err(AssertionFailed)
      else if seg !in Members(track) && |mc| == 0 then Ok(None)
      else if track.Leaf? then Ok(None)
      else if seg in Members(track) then LegacyVerifyTrack(segs[1..], moduleName, Child(track.children, seg), exts)
      else
        ExtNameFound(track, seg, exts);
        LegacyVerifyTrack(segs[1..], moduleName, Child(track.children, FirstExtName(Members(track), seg, exts, 0).value), exts)
  }

  /** The older `verify_track` finds exactly the path the newer one finds,
      fails exactly where it fails, and differs only in not reporting
      whether the path is a file or folder. */
  lemma {:induction false} LegacyVerifyTrackAgrees(segs: seq<string>, moduleName: string, track: Graph, exts: seq<string>)
    ensures LegacyVerifyTrack(segs, moduleName, track, exts) == PathOf(VerifyTrack(segs, moduleName, track, exts))
    decreases |segs|
  {
    if segs == [] {
      LegacyTerminalAgrees(moduleName, track, exts);
    } else {
      var seg := segs[0];
      var mc := ExtMembers(track, seg, exts);
      if |mc| <= 1 && !(seg !in Members(track) && |mc| == 0) && track.Dir? {
        var next: Graph;
        if seg in Members(track) {
          next := Child(track.children, seg);
        } else {
          ExtNameFound(track, seg, exts);
          next := Child(track.children, FirstExtName(Members(track), seg, exts, 0).value);
        }
        assert LegacyVerifyTrack(segs, moduleName, track, exts) == LegacyVerifyTrack(segs[1..], moduleName, next, exts);
        assert VerifyTrack(segs, moduleName, track, exts) == VerifyTrack(segs[1..], moduleName, next, exts);
        LegacyVerifyTrackAgrees(segs[1..], moduleName, next, exts);
      }
    }
  }

  /** At the end of the walk both versions look for `module` the same way. */
  lemma LegacyTerminalAgrees(moduleName: string, track: Graph, exts: seq<string>)
    ensures LegacyVerifyTrack([], moduleName, track, exts) == PathOf(VerifyTrack([], moduleName, track, exts))
  {
  }

  // ---------------------------------------------------------------------
  // search_by_repo_graph
  // ---------------------------------------------------------------------

  /** The loop of the older `search_chain`: the first truthy verified path,
      else None. */
  function LegacyFirstVerified(tracks: seq<Graph>, rest: seq<string>, moduleName: string, exts: seq<string>): Result<Option<string>>
  {
    if tracks == [] then Ok(None)
    else
      match LegacyVerifyTrack(rest, moduleName, tracks[0], exts)
      case Err(e) => Err(e)
      case Ok(p) => if Truthy(p) then Ok(p) else LegacyFirstVerified(tracks[1..], rest, moduleName, exts)
  }

  /** Over the same tracks, the older loop picks the newer loop's path. */
  lemma {:induction false} LegacyFirstVerifiedAgrees(tracks: seq<Graph>, rest: seq<string>, moduleName: string, exts: seq<string>)
    ensures LegacyFirstVerified(tracks, rest, moduleName, exts) == PathOf(FirstVerified(tracks, rest, moduleName, exts))
  {
    if tracks != [] {
      LegacyVerifyTrackAgrees(rest, moduleName, tracks[0], exts);
      LegacyFirstVerifiedAgrees(tracks[1..], rest, moduleName, exts);
    }
  }

  /** The name of the directory holding `currentPath`:
      `os.path.dirname(current_path).split("/")[-1]`. */
  function ParentDirName(currentPath: string): string
  {
    var parts := Split(DirName(currentPath), "/");
    parts[|parts| - 1]
  }

  /** The older `search_chain`: with no package segments the search is
      anchored at the importing file's parent directory name. */
  function LegacySearchChain(segs: seq<string>, moduleName: string, graph: Graph, currentPath: string,
                             exts: seq<string>): Result<Option<string>>
  {
    var anchored := if segs == [] then [ParentDirName(currentPath)] else segs;
    LegacyFirstVerified(Tracks(Some(anchored[0]), graph, exts), anchored[1..], moduleName, exts)
  }

  /** The older `search_by_repo_graph`. */
  function LegacySearchByRepoGraph(d: ImportDetail, graph: Graph, currentPath: string, exts: seq<string>): Result<Option<string>>
  {
    match d.package
    case Some(p) => LegacySearchChain(Split(p, "."), d.moduleName, graph, currentPath, exts)
    case None =>
      var parts := Split(d.moduleName, ".");
      LegacySearchChain(parts[..|parts| - 1], parts[|parts| - 1], graph, currentPath, exts)
  }

  /** A plain `import m` without a dot is looked up below every folder named
      like the importing file's parent directory, never at the root. */
  lemma LegacyPlainImportAtParent(d: ImportDetail, graph: Graph, currentPath: string, exts: seq<string>)
    requires d.package.None? && '.' !in d.moduleName
    ensures LegacySearchByRepoGraph(d, graph, currentPath, exts) ==
            LegacyFirstVerified(Tracks(Some(ParentDirName(currentPath)), graph, exts), [], d.moduleName, exts)
  {
    NoSeparator(d.moduleName);
    var parts := Split(d.moduleName, ".");
    assert parts[..|parts| - 1] == [];
  }

  /** A text holding a '.' splits into at least two parts. */
  lemma DottedSplits(s: string)
    requires '.' in s
    ensures |Split(s, ".")| >= 2
  {
    var i :| 0 <= i < |s| && s[i] == '.';
    assert s[i..i + 1] == ".";
    assert OccursAt(s, ".", i);
  }

  /** Whenever the import names package segments (a `from` import, or a
      dotted `import a.b`), the older search finds the newer one's path. */
  lemma LegacySearchAgrees(d: ImportDetail, graph: Graph, currentPath: string, exts: seq<string>)
    requires d.package.Some? || '.' in d.moduleName
    ensures LegacySearchByRepoGraph(d, graph, currentPath, exts) == PathOf(SearchByRepoGraph(d, graph, exts))
  {
    var segs, m;
    if d.package.Some? {
      segs, m := Split(d.package.value, "."), d.moduleName;
    } else {
      DottedSplits(d.moduleName);
      var parts := Split(d.moduleName, ".");
      segs, m := parts[..|parts| - 1], parts[|parts| - 1];
    }
    LegacyFirstVerifiedAgrees(Tracks(Some(segs[0]), graph, exts), segs[1..], m, exts);
  }

  // ---------------------------------------------------------------------
  // import_analyze
  // ---------------------------------------------------------------------

  /** An import detail with the `import_path` entry the older
      `import_analyze` adds to it. */
  datatype LegacyResolvedImport = LegacyResolvedImport(detail: ImportDetail, importPath: Option<string>)

  /** The older extension loop for `from .p import m`: `p.ext` before
      `p/m.ext`, stopping once the path is truthy. */
  function LegacyPackageExtLoop(fs: FileSystem, startDir: string, rel: string, moduleName: string,
                                exts: seq<string>, i: nat, path: Option<string>): Option<string>
    requires i <= |exts|
    decreases |exts| - i
  {
    if i == |exts| then path
    else
      var asFile := FileCandidate(startDir, rel, exts[i]);
      var inFolder := FolderCandidate(startDir, rel, moduleName, exts[i]);
      var next := if fs.pathExists(asFile) then Some(asFile)
                  else if fs.pathExists(inFolder) then Some(inFolder)
                  else path;
      if Truthy(next) then next else LegacyPackageExtLoop(fs, startDir, rel, moduleName, exts, i + 1, next)
  }

  /** The older loop tries the same files in the same order as the newer one. */
  lemma {:induction false} LegacyPackageExtLoopAgrees(fs: FileSystem, startDir: string, rel: string, moduleName: string,
                                                       exts: seq<string>, i: nat, st: Outcome)
    requires i <= |exts|
    ensures LegacyPackageExtLoop(fs, startDir, rel, moduleName, exts, i, st.path) ==
            PackageExtLoop(fs, startDir, rel, moduleName, exts, i, st).path
    decreases |exts| - i
  {
    if i < |exts| {
      var asFile := FileCandidate(startDir, rel, exts[i]);
      var inFolder := FolderCandidate(startDir, rel, moduleName, exts[i]);
      var next := if fs.pathExists(asFile) then Outcome(Some(asFile), false)
                  else if fs.pathExists(inFolder) then Outcome(Some(inFolder), true)
                  else st;
      LegacyPackageExtLoopAgrees(fs, startDir, rel, moduleName, exts, i + 1, next);
    }
  }

  /** Whether the text of the `__init__.py` at `initPath` holds the module
      name anywhere; opening an unreadable path raises. */
  function InitMentions(fs: FileSystem, initPath: string, moduleName: string): Result<bool>
  {
    match fs.read(initPath)
    case None => Err(NotReadable)
    case Some(text) => Ok(Contains(text, moduleName))
  }

  /** The older probes for `from .p import m`: the extension loop, then an
      `__init__.py` of `p` mentioning `m`, and only when there is no such
      file, `p/m/__init__.py` for a directory `p/m` that has one. */
  function LegacyPackageProbe(fs: FileSystem, startDir: string, rel: string, moduleName: string,
                              exts: seq<string>, path: Option<string>): Result<Option<string>>
  {
    var afterExts := LegacyPackageExtLoop(fs, startDir, rel, moduleName, exts, 0, path);
    if Truthy(afterExts) then Ok(afterExts)
    else
      var initPath := PathJoin(PathJoin(startDir, rel), "__init__.py");
      var importDir := PathJoin(PathJoin(startDir, rel), moduleName);
      if fs.pathExists(initPath) then
        match InitMentions(fs, initPath, moduleName)
        case Err(e) => Err(e)
        case Ok(mentions) => Ok(if mentions then Some(initPath) else afterExts)
      else if fs.isDir(importDir) then
        var dirInit := PathJoin(importDir, "__init__.py");
        Ok(if fs.pathExists(dirInit) then Some(dirInit) else afterExts)
      else Ok(afterExts)
  }

  /** The older extension loop for `from . import m`: the file `m.ext`. */
  function LegacyModuleExtLoop(fs: FileSystem, startDir: string, moduleName: string, exts: seq<string>,
                               i: nat, path: Option<string>): Option<string>
    requires i <= |exts|
    decreases |exts| - i
  {
    if i == |exts| then path
    else
      var candidate := PathJoin(startDir, moduleName + exts[i]);
      var next := if fs.pathExists(candidate) then Some(candidate) else path;
      if Truthy(next) then next else LegacyModuleExtLoop(fs, startDir, moduleName, exts, i + 1, next)
  }

  /** The older loop tries the same files in the same order as the newer one. */
  lemma {:induction false} LegacyModuleExtLoopAgrees(fs: FileSystem, startDir: string, moduleName: string,
                                                      exts: seq<string>, i: nat, st: Outcome)
    requires i <= |exts|
    ensures LegacyModuleExtLoop(fs, startDir, moduleName, exts, i, st.path) ==
            ModuleExtLoop(fs, startDir, moduleName, exts, i, st).path
    decreases |exts| - i
  {
    if i < |exts| {
      var candidate := PathJoin(startDir, moduleName + exts[i]);
      var next := if fs.pathExists(candidate) then Outcome(Some(candidate), true) else st;
      LegacyModuleExtLoopAgrees(fs, startDir, moduleName, exts, i + 1, next);
    }
  }

  /** The older probes for `from . import m`: the extension loop, then
      `m/__init__.py`, then an `__init__.py` of the start directory
      mentioning `m`. */
  function LegacyModuleProbe(fs: FileSystem, startDir: string, moduleName: string,
                             exts: seq<string>, path: Option<string>): Result<Option<string>>
  {
    var afterExts := LegacyModuleExtLoop(fs, startDir, moduleName, exts, 0, path);
    if Truthy(afterExts) then Ok(afterExts)
    else
      var packageInit := PathJoin(PathJoin(startDir, moduleName), "__init__.py");
      var initPath := PathJoin(startDir, "__init__.py");
      if fs.pathExists(packageInit) then Ok(Some(packageInit))
      else if fs.pathExists(initPath) then
        match InitMentions(fs, initPath, moduleName)
        case Err(e) => Err(e)
        case Ok(mentions) => Ok(if mentions then Some(initPath) else afterExts)
      else Ok(afterExts)
  }

  /** One pass of the older prefix loop. */
  function LegacyPrefixProbe(d: ImportDetail, filepath: string, fs: FileSystem, exts: seq<string>,
                             prefix: string, path: Option<string>): Result<Option<string>>
  {
    if d.package.Some? && StartsWith(d.package.value, prefix) then
      var startDir := Ancestor(filepath, |prefix|);
      if d.package.value != prefix then
        LegacyPackageProbe(fs, startDir, RelPath(d.package.value, prefix), d.moduleName, exts, path)
      else
        LegacyModuleProbe(fs, startDir, d.moduleName, exts, path)
    else Ok(path)
  }

  /** The older prefix loop from index `i`: longest prefix first, a truthy
      path stops it. */
  function LegacyPrefixLoop(d: ImportDetail, filepath: string, fs: FileSystem, exts: seq<string>,
                            i: nat, path: Option<string>): Result<Option<string>>
    requires i <= |RelativePrefixes|
    decreases |RelativePrefixes| - i
  {
    if i == |RelativePrefixes| then Ok(path)
    else
      match LegacyPrefixProbe(d, filepath, fs, exts, RelativePrefixes[i], path)
      case Err(e) => Err(e)
      case Ok(next) => if Truthy(next) then Ok(next) else LegacyPrefixLoop(d, filepath, fs, exts, i + 1, next)
  }

  /** The older resolution of one detail: the relative probes, and the
      index search when they leave the path falsy. */
  function LegacyResolve(d: ImportDetail, filepath: string, fs: FileSystem, graph: Graph,
                         exts: seq<string>): (r: Result<LegacyResolvedImport>)
    ensures r.Ok? ==> r.value.detail == d
  {
    match LegacyPrefixLoop(d, filepath, fs, exts, 0, None)
    case Err(e) => Err(e)
    case Ok(path) =>
      if Truthy(path) then Ok(LegacyResolvedImport(d, path))
      else
        match LegacySearchByRepoGraph(d, graph, filepath, exts)
        case Err(e) => Err(e)
        case Ok(found) => Ok(LegacyResolvedImport(d, found))
  }

  /** `LegacyResolve` for one file, as a function of the detail. */
  function LegacyResolveIn(filepath: string, fs: FileSystem, graph: Graph, exts: seq<string>): ImportDetail -> Result<LegacyResolvedImport>
  {
    (d: ImportDetail) => LegacyResolve(d, filepath, fs, graph, exts)
  }

  /** What the older `import_analyze` returns. */
  function LegacyAnalyze(nodes: seq<Node>, filepath: string, fs: FileSystem, graph: Graph,
                         exts: seq<string>): Result<seq<LegacyResolvedImport>>
  {
    match AllDetails(nodes)
    case Err(e) => Err(e)
    case Ok(ds) => MapAll(ds, LegacyResolveIn(filepath, fs, graph, exts))
  }

  /** The older `import_analyze`: the same parsing pass as the newer one,
      then every detail gets its `import_path`. */
  method LegacyImportAnalyze(importNodes: seq<Node>, filepath: string, fs: FileSystem, graph: Graph,
                             exts: seq<string>) returns (r: Result<seq<LegacyResolvedImport>>)
    ensures r == LegacyAnalyze(importNodes, filepath, fs, graph, exts)
  {
    var details := ParseAll(importNodes);
    if details.Err? {
      return Err(details.error);
    }
    r := LegacyResolveAll(details.value, filepath, fs, graph, exts);
  }

  /** The detail loop of the older `import_analyze`. */
  method LegacyResolveAll(details: seq<ImportDetail>, filepath: string, fs: FileSystem, graph: Graph,
                          exts: seq<string>) returns (r: Result<seq<LegacyResolvedImport>>)
    ensures r == MapAll(details, LegacyResolveIn(filepath, fs, graph, exts))
  {
    ghost var resolve := LegacyResolveIn(filepath, fs, graph, exts);
    ghost var all := MapAll(details, resolve);
    assert details[0..] == details;
    assert all.Ok? ==> [] + all.value == all.value;
    var resolved: seq<LegacyResolvedImport> := [];
    var k := 0;
    while k < |details|
      invariant 0 <= k <= |details|
      invariant all == Chain(resolved, MapAll(details[k..], resolve))
    {
      MapAllStep(details, resolve, resolved, k);
      var one := LegacyResolveDetail(details[k], filepath, fs, graph, exts);
      if one.Err? {
        return Err(one.error);
      }
      resolved := resolved + [one.value];
      k := k + 1;
    }
    assert details[k..] == [] && resolved + [] == resolved;
    r := Ok(resolved);
  }

  /** The body of the older detail loop. */
  method LegacyResolveDetail(d: ImportDetail, filepath: string, fs: FileSystem, graph: Graph,
                             exts: seq<string>) returns (r: Result<LegacyResolvedImport>)
    ensures r == LegacyResolveIn(filepath, fs, graph, exts)(d)
  {
    var importPath := LegacyProbeRelative(d, filepath, fs, exts);
    if importPath.Err? {
      return Err(importPath.error);
    }
    var path := importPath.value;
    if !Truthy(path) {
      var found := LegacySearchByRepoGraph(d, graph, filepath, exts);
      if found.Err? {
        return Err(found.error);
      }
      path := found.value;
    }
    r := Ok(LegacyResolvedImport(d, path));
  }

  /** The older prefix loop. */
  method LegacyProbeRelative(d: ImportDetail, filepath: string, fs: FileSystem, exts: seq<string>)
    returns (r: Result<Option<string>>)
    ensures r == LegacyPrefixLoop(d, filepath, fs, exts, 0, None)
  {
    var path: Option<string> := None;
    var i := 0;
    while i < |RelativePrefixes|
      invariant 0 <= i <= |RelativePrefixes|
      invariant LegacyPrefixLoop(d, filepath, fs, exts, 0, None) == LegacyPrefixLoop(d, filepath, fs, exts, i, path)
    {
      var probe := LegacyProbePrefix(d, filepath, fs, exts, RelativePrefixes[i], path);
      if probe.Err? {
        return probe;
      }
      path := probe.value;
      if Truthy(path) {
        return Ok(path);
      }
      i := i + 1;
    }
    r := Ok(path);
  }

  /** The body of the older prefix loop for one prefix. */
  method LegacyProbePrefix(d: ImportDetail, filepath: string, fs: FileSystem, exts: seq<string>,
                           prefix: string, path: Option<string>) returns (r: Result<Option<string>>)
    ensures r == LegacyPrefixProbe(d, filepath, fs, exts, prefix, path)
  {
    if d.package.Some? && StartsWith(d.package.value, prefix) {
      var startDir := StartDir(filepath, |prefix|);
      if d.package.value != prefix {
        r := LegacyProbePackage(fs, startDir, RelPath(d.package.value, prefix), d.moduleName, exts, path);
      } else {
        r := LegacyProbeModule(fs, startDir, d.moduleName, exts, path);
      }
    } else {
      r := Ok(path);
    }
  }

  /** The older `__init__.py` check: read the file and test for the name
      as a substring. */
  method InitMentionCheck(fs: FileSystem, initPath: string, moduleName: string) returns (r: Result<bool>)
    ensures r == InitMentions(fs, initPath, moduleName)
  {
    var content := fs.read(initPath);
    if content.None? {
      return Err(NotReadable);
    }
    r := Ok(Contains(content.value, moduleName));
  }

  /** The older probes for `from .p import m`. */
  method LegacyProbePackage(fs: FileSystem, startDir: string, rel: string, moduleName: string,
                            exts: seq<string>, path: Option<string>) returns (r: Result<Option<string>>)
    ensures r == LegacyPackageProbe(fs, startDir, rel, moduleName, exts, path)
  {
    var cur := LegacyPackageExtensions(fs, startDir, rel, moduleName, exts, path);
    if !Truthy(cur) {
      var initPath := PathJoin(PathJoin(startDir, rel), "__init__.py");
      var importDir := PathJoin(PathJoin(startDir, rel), moduleName);
      if fs.pathExists(initPath) {
        var mentions := InitMentionCheck(fs, initPath, moduleName);
        if mentions.Err? {
          return Err(mentions.error);
        }
        if mentions.value {
          cur := Some(initPath);
        }
      } else if fs.isDir(importDir) {
        if fs.pathExists(PathJoin(importDir, "__init__.py")) {
          cur := Some(PathJoin(importDir, "__init__.py"));
        }
      }
    }
    r := Ok(cur);
  }

  /** The extension loop of the older `from .p import m` probes. */
  method LegacyPackageExtensions(fs: FileSystem, startDir: string, rel: string, moduleName: string,
                                 exts: seq<string>, path: Option<string>) returns (cur: Option<string>)
    ensures cur == LegacyPackageExtLoop(fs, startDir, rel, moduleName, exts, 0, path)
  {
    cur := path;
    var i := 0;
    while i < |exts|
      invariant 0 <= i <= |exts|
      invariant LegacyPackageExtLoop(fs, startDir, rel, moduleName, exts, 0, path) ==
                LegacyPackageExtLoop(fs, startDir, rel, moduleName, exts, i, cur)
    {
      var asFile := FileCandidate(startDir, rel, exts[i]);
      var inFolder := FolderCandidate(startDir, rel, moduleName, exts[i]);
      if fs.pathExists(asFile) {
        cur := Some(asFile);
      } else if fs.pathExists(inFolder) {
        cur := Some(inFolder);
      }
      if Truthy(cur) {
        return;
      }
      i := i + 1;
    }
  }

  /** The older probes for `from . import m`. */
  method LegacyProbeModule(fs: FileSystem, startDir: string, moduleName: string,
                           exts: seq<string>, path: Option<string>) returns (r: Result<Option<string>>)
    ensures r == LegacyModuleProbe(fs, startDir, moduleName, exts, path)
  {
    var cur := path;
    var i := 0;
    while i < |exts|
      invariant 0 <= i <= |exts|
      invariant LegacyModuleExtLoop(fs, startDir, moduleName, exts, 0, path) ==
                LegacyModuleExtLoop(fs, startDir, moduleName, exts, i, cur)
    {
      var candidate := PathJoin(startDir, moduleName + exts[i]);
      if fs.pathExists(candidate) {
        cur := Some(candidate);
      }
      if Truthy(cur) {
        break;
      }
      i := i + 1;
    }
    assert LegacyModuleExtLoop(fs, startDir, moduleName, exts, 0, path) == cur;
    if !Truthy(cur) {
      var packageInit := PathJoin(PathJoin(startDir, moduleName), "__init__.py");
      var initPath := PathJoin(startDir, "__init__.py");
      if fs.pathExists(packageInit) {
        cur := Some(packageInit);
      } else if fs.pathExists(initPath) {
        var mentions := InitMentionCheck(fs, initPath, moduleName);
        if mentions.Err? {
          return Err(mentions.error);
        }
        if mentions.value {
          cur := Some(initPath);
        }
      }
    }
    r := Ok(cur);
  }

  // ---------------------------------------------------------------------
  // Properties of the older probes
  // ---------------------------------------------------------------------

  /** When no extension hits for `from .p import m`, an `__init__.py` of `p`
      whose text holds `m` anywhere, even inside a longer word, is the path;
      without that file, a directory `p/m` gives `p/m/__init__.py` only if
      that file exists. A readable `__init__.py` that does not mention `m`
      gives nothing, and `p/m` is then never tried. */
  lemma LegacyPackageProbeAfterExtensions(fs: FileSystem, startDir: string, rel: string, moduleName: string,
                                          exts: seq<string>, before: string, after: string)
    requires rel != []
    requires forall k :: 0 <= k < |exts| ==> !PackageHit(fs, startDir, rel, moduleName, exts[k])
    ensures var initPath := PathJoin(PathJoin(startDir, rel), "__init__.py");
            var importDir := PathJoin(PathJoin(startDir, rel), moduleName);
            var dirInit := PathJoin(importDir, "__init__.py");
            var r := LegacyPackageProbe(fs, startDir, rel, moduleName, exts, None);
            && (fs.pathExists(initPath) && fs.read(initPath) == Some(before + moduleName + after) ==> r == Ok(Some(initPath)))
            && (fs.pathExists(initPath) && fs.read(initPath).Some? && !Contains(fs.read(initPath).value, moduleName) ==>
                  r == Ok(None))
            && (fs.pathExists(initPath) && fs.read(initPath).None? ==> r == Err(NotReadable))
            && (!fs.pathExists(initPath) && fs.isDir(importDir) && fs.pathExists(dirInit) ==> r == Ok(Some(dirInit)))
            && (!fs.pathExists(initPath) && fs.isDir(importDir) && !fs.pathExists(dirInit) ==> r == Ok(None))
            && (!fs.pathExists(initPath) && !fs.isDir(importDir) ==> r == Ok(None))
  {
    PackageExtLoopFirstHit(fs, startDir, rel, moduleName, exts, 0, NotFound);
    LegacyPackageExtLoopAgrees(fs, startDir, rel, moduleName, exts, 0, NotFound);
    var text := before + moduleName + after;
    assert text[|before|..|before| + |moduleName|] == moduleName;
    assert OccursAt(text, moduleName, |before|);
  }

  /** When no `m.ext` exists for `from . import m`, `m/__init__.py` comes
      first, then an `__init__.py` of the start directory whose text holds
      `m` anywhere; one without `m` gives nothing, an unreadable one an
      error. */
  lemma LegacyModuleProbeAfterExtensions(fs: FileSystem, startDir: string, moduleName: string,
                                         exts: seq<string>, before: string, after: string)
    requires moduleName != []
    requires forall k :: 0 <= k < |exts| ==> !fs.pathExists(PathJoin(startDir, moduleName + exts[k]))
    ensures var packageInit := PathJoin(PathJoin(startDir, moduleName), "__init__.py");
            var initPath := PathJoin(startDir, "__init__.py");
            var r := LegacyModuleProbe(fs, startDir, moduleName, exts, None);
            && (fs.pathExists(packageInit) ==> r == Ok(Some(packageInit)))
            && (!fs.pathExists(packageInit) && fs.pathExists(initPath) && fs.read(initPath) == Some(before + moduleName + after) ==>
                  r == Ok(Some(initPath)))
            && ((!fs.pathExists(packageInit) && fs.pathExists(initPath) && fs.read(initPath).Some? &&
                 !Contains(fs.read(initPath).value, moduleName)) ==> r == Ok(None))
            && (!fs.pathExists(packageInit) && fs.pathExists(initPath) && fs.read(initPath).None? ==> r == Err(NotReadable))
            && (!fs.pathExists(packageInit) && !fs.pathExists(initPath) ==> r == Ok(None))
  {
    ModuleExtLoopFirstHit(fs, startDir, moduleName, exts, 0, NotFound);
    LegacyModuleExtLoopAgrees(fs, startDir, moduleName, exts, 0, NotFound);
    var text := before + moduleName + after;
    assert text[|before|..|before| + |moduleName|] == moduleName;
    assert OccursAt(text, moduleName, |before|);
  }

  /** The first extension with a hit decides the older `from . import m`
      probe, as in the newer resolver. */
  lemma LegacyModuleProbeFirstHit(fs: FileSystem, startDir: string, moduleName: string, exts: seq<string>, k: nat)
    requires moduleName != [] && k < |exts| && fs.pathExists(PathJoin(startDir, moduleName + exts[k]))
    requires forall j :: 0 <= j < k ==> !fs.pathExists(PathJoin(startDir, moduleName + exts[j]))
    ensures LegacyModuleProbe(fs, startDir, moduleName, exts, None) == Ok(Some(PathJoin(startDir, moduleName + exts[k])))
  {
    ModuleExtLoopFirstHit(fs, startDir, moduleName, exts, 0, NotFound);
    LegacyModuleExtLoopAgrees(fs, startDir, moduleName, exts, 0, NotFound);
    PathJoinEmpty(startDir, moduleName + exts[k]);
  }

  /** An absolute import, or one whose package does not start with a dot,
      probes nothing: its path comes from the older index search alone. */
  lemma LegacyAbsoluteImportUsesIndex(d: ImportDetail, filepath: string, fs: FileSystem, graph: Graph, exts: seq<string>)
    requires d.package.None? || !StartsWith(d.package.value, ".")
    ensures LegacyResolve(d, filepath, fs, graph, exts) ==
      match LegacySearchByRepoGraph(d, graph, filepath, exts)
      case Err(e) => Err(e)
      case Ok(p) => Ok(LegacyResolvedImport(d, p))
  {
    if d.package.Some? {
      DottedPrefixes(d.package.value);
    }
    assert LegacyPrefixLoop(d, filepath, fs, exts, 0, None) == Ok(None);
  }

  /** For an absolute `from` import or a dotted `import a.b`, the two
      resolvers give the same path. */
  lemma LegacyAbsoluteAgrees(d: ImportDetail, filepath: string, fs: FileSystem, parse: Parser, graph: Graph, exts: seq<string>)
    requires d.package.None? || !StartsWith(d.package.value, ".")
    requires d.package.Some? || '.' in d.moduleName
    ensures var legacy, current := LegacyResolve(d, filepath, fs, graph, exts), Resolve(d, filepath, fs, parse, graph, exts);
            legacy.Ok? == current.Ok? && (legacy.Ok? ==> legacy.value.importPath == current.value.importPath)
  {
    LegacyAbsoluteImportUsesIndex(d, filepath, fs, graph, exts);
    AbsoluteImportUsesIndex(d, filepath, fs, parse, graph, exts);
    LegacySearchAgrees(d, graph, filepath, exts);
  }

  /** The probes of the first `k` prefixes ran without failing and left the
      path falsy; `sts[j]` is the path prefix `j` started from (the source
      keeps `import_path` across prefixes). */
  predicate LegacyMissedBefore(d: ImportDetail, filepath: string, fs: FileSystem, exts: seq<string>,
                               sts: seq<Option<string>>, k: nat)
  {
    && k <= |RelativePrefixes| && |sts| == k + 1 && sts[0] == None
    && forall j :: 0 <= j < k ==> LegacyMissedAt(d, filepath, fs, exts, sts, j)
  }

  /** Prefix `j` probed from state `sts[j]` without failing and handed on
      the falsy state `sts[j + 1]`. */
  predicate LegacyMissedAt(d: ImportDetail, filepath: string, fs: FileSystem, exts: seq<string>,
                           sts: seq<Option<string>>, j: nat)
  {
    && j < |RelativePrefixes| && j + 1 < |sts|
    && LegacyPrefixProbe(d, filepath, fs, exts, RelativePrefixes[j], sts[j]) == Ok(sts[j + 1])
    && !Truthy(sts[j + 1])
  }

  /** Prefixes that missed hand the loop on to the next, shorter one. */
  lemma LegacyMissedPassOn(d: ImportDetail, filepath: string, fs: FileSystem, exts: seq<string>,
                           sts: seq<Option<string>>, k: nat)
    requires LegacyMissedBefore(d, filepath, fs, exts, sts, k)
    ensures LegacyPrefixLoop(d, filepath, fs, exts, 0, None) == LegacyPrefixLoop(d, filepath, fs, exts, k, sts[k])
  {
    var i := 0;
    while i < k
      invariant i <= k
      invariant LegacyPrefixLoop(d, filepath, fs, exts, 0, None) == LegacyPrefixLoop(d, filepath, fs, exts, i, sts[i])
    {
      assert LegacyMissedAt(d, filepath, fs, exts, sts, i);
      LegacyPrefixLoopMisses(d, filepath, fs, exts, i, sts[i], sts[i + 1]);
      i := i + 1;
    }
  }

  lemma LegacyPrefixLoopMisses(d: ImportDetail, filepath: string, fs: FileSystem, exts: seq<string>,
                               i: nat, path: Option<string>, next: Option<string>)
    requires i < |RelativePrefixes|
    requires LegacyPrefixProbe(d, filepath, fs, exts, RelativePrefixes[i], path) == Ok(next) && !Truthy(next)
    ensures LegacyPrefixLoop(d, filepath, fs, exts, i, path) == LegacyPrefixLoop(d, filepath, fs, exts, i + 1, next)
  {
  }

  /** A further prefix that misses extends the chain of misses by one. */
  lemma LegacyMissedExtend(d: ImportDetail, filepath: string, fs: FileSystem, exts: seq<string>,
                           sts: seq<Option<string>>, k: nat, next: Option<string>)
    requires LegacyMissedBefore(d, filepath, fs, exts, sts, k) && k < |RelativePrefixes|
    requires LegacyPrefixProbe(d, filepath, fs, exts, RelativePrefixes[k], sts[k]) == Ok(next) && !Truthy(next)
    ensures LegacyMissedBefore(d, filepath, fs, exts, sts + [next], k + 1)
  {
    var ext := sts + [next];
    forall j | 0 <= j < k + 1
      ensures LegacyMissedAt(d, filepath, fs, exts, ext, j)
    {
      if j < k {
        assert LegacyMissedAt(d, filepath, fs, exts, sts, j);
      }
      assert ext[j] == sts[j];
    }
  }

  /** Prefixes are tried longest first: the first one whose probe fails or
      finds a path decides the loop, and no shorter prefix is tried after
      it; when every prefix misses, the last state is the result. */
  lemma LegacyPrefixLoopFirstHit(d: ImportDetail, filepath: string, fs: FileSystem, exts: seq<string>,
                                 sts: seq<Option<string>>, k: nat)
    requires LegacyMissedBefore(d, filepath, fs, exts, sts, k)
    ensures k < |RelativePrefixes| ==>
      var probe := LegacyPrefixProbe(d, filepath, fs, exts, RelativePrefixes[k], sts[k]);
      (probe.Err? || Truthy(probe.value)) ==> LegacyPrefixLoop(d, filepath, fs, exts, 0, None) == probe
    ensures k == |RelativePrefixes| ==> LegacyPrefixLoop(d, filepath, fs, exts, 0, None) == Ok(sts[k])
  {
    LegacyMissedPassOn(d, filepath, fs, exts, sts, k);
  }

  /** The relative probes find a path exactly when some prefix finds it
      after every longer prefix missed. */
  lemma LegacyPrefixLoopFindsIff(d: ImportDetail, filepath: string, fs: FileSystem, exts: seq<string>, o: Option<string>)
    ensures LegacyPrefixLoop(d, filepath, fs, exts, 0, None) == Ok(o) && Truthy(o) <==>
      exists sts, k: nat :: LegacyMissedBefore(d, filepath, fs, exts, sts, k) && k < |RelativePrefixes| &&
        LegacyPrefixProbe(d, filepath, fs, exts, RelativePrefixes[k], sts[k]) == Ok(o) && Truthy(o)
  {
    if exists sts, k: nat :: LegacyMissedBefore(d, filepath, fs, exts, sts, k) && k < |RelativePrefixes| &&
         LegacyPrefixProbe(d, filepath, fs, exts, RelativePrefixes[k], sts[k]) == Ok(o) && Truthy(o) {
      var sts: seq<Option<string>>, k: nat :| LegacyMissedBefore(d, filepath, fs, exts, sts, k) && k < |RelativePrefixes| &&
         LegacyPrefixProbe(d, filepath, fs, exts, RelativePrefixes[k], sts[k]) == Ok(o) && Truthy(o);
      LegacyPrefixLoopFirstHit(d, filepath, fs, exts, sts, k);
    }
    if LegacyPrefixLoop(d, filepath, fs, exts, 0, None) == Ok(o) && Truthy(o) {
      var sts: seq<Option<string>> := [None];
      var k: nat := 0;
      while k < |RelativePrefixes|
        invariant LegacyMissedBefore(d, filepath, fs, exts, sts, k)
        decreases |RelativePrefixes| - k
      {
        var probe := LegacyPrefixProbe(d, filepath, fs, exts, RelativePrefixes[k], sts[k]);
        if probe.Err? || Truthy(probe.value) {
          LegacyPrefixLoopFirstHit(d, filepath, fs, exts, sts, k);
          return;
        }
        LegacyMissedExtend(d, filepath, fs, exts, sts, k, probe.value);
        sts, k := sts + [probe.value], k + 1;
      }
      assert LegacyMissedAt(d, filepath, fs, exts, sts, k - 1);
      LegacyPrefixLoopFirstHit(d, filepath, fs, exts, sts, k);
      assert false;
    }
  }

  /** A package `..p` that the `..` probe misses is probed again with the
      shorter prefix `.`, from the file's own directory, with the rest of
      the package turned into the absolute path `/p`: the candidate files of
      that probe lie under the filesystem root, not under the package. */
  lemma LegacyDoubleDotRetry(d: ImportDetail, filepath: string, fs: FileSystem, exts: seq<string>,
                             path: Option<string>, p: string)
    requires d.package == Some(".." + p) && p != [] && p[0] != '.'
    ensures LegacyPrefixProbe(d, filepath, fs, exts, "...", path) == Ok(path)
    ensures LegacyPrefixProbe(d, filepath, fs, exts, "..", path) ==
      LegacyPackageProbe(fs, Ancestor(filepath, 2), RelPath(".." + p, ".."), d.moduleName, exts, path)
    ensures LegacyPrefixProbe(d, filepath, fs, exts, ".", path) ==
      LegacyPackageProbe(fs, Ancestor(filepath, 1), "/" + RelPath(".." + p, ".."), d.moduleName, exts, path)
  {
    DoubleDotPackage(p);
  }

  /** Once a relative probe succeeds the older index search is never
      consulted. */
  lemma LegacyRelativeHitIgnoresIndex(d: ImportDetail, filepath: string, fs: FileSystem,
                                      graph1: Graph, graph2: Graph, exts: seq<string>)
    requires var probed := LegacyPrefixLoop(d, filepath, fs, exts, 0, None);
             probed.Err? || Truthy(probed.value)
    ensures LegacyResolve(d, filepath, fs, graph1, exts) == LegacyResolve(d, filepath, fs, graph2, exts)
  {
  }

  /** Every parsed detail comes back, in order, with its path set. */
  lemma LegacyAnalyzeKeepsDetails(nodes: seq<Node>, filepath: string, fs: FileSystem, graph: Graph, exts: seq<string>)
    requires LegacyAnalyze(nodes, filepath, fs, graph, exts).Ok?
    ensures AllDetails(nodes).Ok?
    ensures var ds, rs := AllDetails(nodes).value, LegacyAnalyze(nodes, filepath, fs, graph, exts).value;
            |rs| == |ds| && forall j :: 0 <= j < |ds| ==> rs[j].detail == ds[j]
  {
    var ds := AllDetails(nodes).value;
    var resolve := (d: ImportDetail) => LegacyResolve(d, filepath, fs, graph, exts);
    var rs := MapAll(ds, resolve).value;
    forall j | 0 <= j < |ds| ensures rs[j].detail == ds[j] {
      assert resolve(ds[j]) == Ok(rs[j]);
    }
  }
}
