/** The module-reference resolver of `src/pydepcall/travel_graph.py`: relative
    imports are probed on the filesystem, everything else is looked up in the
    repository index. */
module Resolver {
  import opened Common
  import opened Paths
  import opened SyntaxTree
  import opened ParserUtils
  import opened RepoGraph

  // ---------------------------------------------------------------------
  // Names in the index
  // ---------------------------------------------------------------------

  /** `[base + x for x in PY_EXTENSIONS]`, as a set. */
  function ExtNames(base: string, exts: seq<string>): set<string>
  {
    set k | 0 <= k < |exts| :: base + exts[k]
  }

  /** A child name that `search_path` or `verify_track` accepts for `base`:
      the name itself or the name with a Python extension. */
  predicate NameMatches(name: string, base: string, exts: seq<string>)
  {
    name == base || name in ExtNames(base, exts)
  }

  /** The keys of a folder's `childrens` dict. */
  function Keys(cs: seq<(string, Graph)>): set<string>
  {
    set i | 0 <= i < |cs| :: cs[i].0
  }

  /** What `x in node["childrens"]` tests: the keys of a folder, the
      identifiers of a file. */
  function Members(g: Graph): set<string>
  {
    match g
    case Dir(_, cs) => Keys(cs)
    case Leaf(_, names) => names
  }

  /** `childrens[name]` for a key that is present (entry names are unique,
      as `os.listdir` gives them, so the first entry is the only one). */
  function Child(cs: seq<(string, Graph)>, name: string): (c: Graph)
    requires name in Keys(cs)
    ensures exists i :: 0 <= i < |cs| && cs[i] == (name, c)
  {
    if cs[0].0 == name then cs[0].1
    else
      assert name in Keys(cs[1..]) by {
        var i :| 0 <= i < |cs| && cs[i].0 == name;
        assert cs[1..][i - 1].0 == name;
      }
      var c := Child(cs[1..], name);
      assert exists i :: 0 <= i < |cs| && cs[i] == (name, c) by {
        var i :| 0 <= i < |cs[1..]| && cs[1..][i] == (name, c);
        assert cs[i + 1] == (name, c);
      }
      c
  }

  /** The first `base + exts[k]`, from `k` on, that `members` holds. */
  function FirstExtName(members: set<string>, base: string, exts: seq<string>, k: nat): (r: Option<string>)
    requires k <= |exts|
    ensures r.Some? ==> r.value in members && r.value in ExtNames(base, exts)
    decreases |exts| - k
  {
    if k == |exts| then None
    else if base + exts[k] in members then Some(base + exts[k])
    else FirstExtName(members, base, exts, k + 1)
  }

  /** `FirstExtName` finds a name whenever `members` holds one of the names. */
  lemma {:induction false} FirstExtNameFinds(members: set<string>, base: string, exts: seq<string>, k: nat, j: nat)
    requires k <= j < |exts| && base + exts[j] in members
    ensures FirstExtName(members, base, exts, k).Some?
    decreases j - k
  {
    if base + exts[k] !in members {
      FirstExtNameFinds(members, base, exts, k + 1, j);
    }
  }

  // ---------------------------------------------------------------------
  // search_path
  // ---------------------------------------------------------------------

  /** The tracks `search_path(key, g)` appends: `g` itself when the key is
      None; otherwise every folder child whose name matches the key, in
      listing order, with a search inside each child that does not match. */
  function Tracks(key: Option<string>, g: Graph, exts: seq<string>): seq<Graph>
    decreases g, 1
  {
    match key
    case None => [g]
    case Some(k) => if g.Leaf? then [] else TracksFrom(k, g, 0, exts)
  }

  /** The tracks found among the children of the folder `g` from index `i` on. */
  function TracksFrom(k: string, g: Graph, i: nat, exts: seq<string>): seq<Graph>
    requires g.Dir? && i <= |g.children|
    decreases g, 0, |g.children| - i
  {
    if i == |g.children| then []
    else
      var (name, child) := g.children[i];
      (if NameMatches(name, k, exts) then [child] else Tracks(Some(k), child, exts))
      + TracksFrom(k, g, i + 1, exts)
  }

  /** `search_path`: appends the tracks for `key` below `g` to `tracks`.
      With no key that is `g` itself; a file leaf adds nothing. */
  method SearchPath(key: Option<string>, g: Graph, exts: seq<string>, tracks: seq<Graph>) returns (out: seq<Graph>)
    ensures out == tracks + Tracks(key, g, exts)
    decreases g, 1
  {
    if key.None? {
      return tracks + [g];
    }
    out := tracks;
    if g.Leaf? {
      // iterating the identifier list of a file appends nothing
      assert Tracks(key, g, exts) == [];
      return;
    }
    var k := key.value;
    assert out + TracksFrom(k, g, 0, exts) == tracks + Tracks(key, g, exts);
    var i := 0;
    while i < |g.children|
      invariant 0 <= i <= |g.children|
      invariant out + TracksFrom(k, g, i, exts) == tracks + Tracks(key, g, exts)
    {
      var (name, child) := g.children[i];
      ghost var later := TracksFrom(k, g, i + 1, exts);
      ghost var before := out;
      if NameMatches(name, k, exts) {
        out := out + [child];
        AppendAssoc(before, [child], later);
      } else {
        out := SearchPath(key, child, exts, out);
        AppendAssoc(before, Tracks(key, child, exts), later);
      }
      i := i + 1;
    }
    assert out + [] == out;
  }

  /** `d` lies below `g` on a walk through children whose names do not
      match `k`: the places `search_path` looks into. */
  ghost predicate Searched(g: Graph, d: Graph, k: string, exts: seq<string>)
    decreases g
  {
    || d == g
    || (g.Dir? &&
        exists j :: 0 <= j < |g.children| && !NameMatches(g.children[j].0, k, exts)
                    && Searched(g.children[j].1, d, k, exts))
  }

  /** `t` is a child of the searched folder `d` whose name matches `k`. */
  ghost predicate MatchedChild(d: Graph, t: Graph, k: string, exts: seq<string>)
  {
    d.Dir? && exists j :: 0 <= j < |d.children| && NameMatches(d.children[j].0, k, exts) && d.children[j].1 == t
  }

  /** The tracks for a key are exactly the matching children of the folders
      reached without passing through a matching name: matches are found
      everywhere, and nothing below a match is looked at. */
  lemma {:induction false} TracksMembers(k: string, g: Graph, exts: seq<string>)
    ensures forall t :: t in Tracks(Some(k), g, exts) <==>
      exists d :: Searched(g, d, k, exts) && MatchedChild(d, t, k, exts)
    decreases g, 1
  {
    if g.Dir? {
      TracksFromMembers(k, g, 0, exts);
      forall t ensures t in Tracks(Some(k), g, exts) <==> exists d :: Searched(g, d, k, exts) && MatchedChild(d, t, k, exts) {
        if t in Tracks(Some(k), g, exts) {
          var j :| 0 <= j < |g.children| && FoundAt(g, j, t, k, exts);
          if NameMatches(g.children[j].0, k, exts) {
            assert Searched(g, g, k, exts) && MatchedChild(g, t, k, exts);
          } else {
            var d :| Searched(g.children[j].1, d, k, exts) && MatchedChild(d, t, k, exts);
            assert Searched(g, d, k, exts);
          }
        }
        if exists d :: Searched(g, d, k, exts) && MatchedChild(d, t, k, exts) {
          var d :| Searched(g, d, k, exts) && MatchedChild(d, t, k, exts);
          if d == g {
            var j :| 0 <= j < |g.children| && NameMatches(g.children[j].0, k, exts) && g.children[j].1 == t;
            assert FoundAt(g, j, t, k, exts);
          } else {
            var j :| 0 <= j < |g.children| && !NameMatches(g.children[j].0, k, exts) && Searched(g.children[j].1, d, k, exts);
            assert FoundAt(g, j, t, k, exts);
          }
        }
      }
    } else {
      forall t, d | Searched(g, d, k, exts) ensures !MatchedChild(d, t, k, exts) {
        assert d == g;
      }
    }
  }

  /** Child `j` of `g` contributes `t`: it matches and is `t`, or it does not
      match and `t` is found below it. */
  ghost predicate FoundAt(g: Graph, j: nat, t: Graph, k: string, exts: seq<string>)
    requires g.Dir? && j < |g.children|
    decreases g, 0
  {
    if NameMatches(g.children[j].0, k, exts) then g.children[j].1 == t
    else exists d :: Searched(g.children[j].1, d, k, exts) && MatchedChild(d, t, k, exts)
  }

  lemma {:induction false} TracksFromMembers(k: string, g: Graph, i: nat, exts: seq<string>)
    requires g.Dir? && i <= |g.children|
    ensures forall t :: t in TracksFrom(k, g, i, exts) <==> exists j :: i <= j < |g.children| && FoundAt(g, j, t, k, exts)
    decreases g, 0, |g.children| - i
  {
    if i < |g.children| {
      var (name, child) := g.children[i];
      TracksFromMembers(k, g, i + 1, exts);
      var here := if NameMatches(name, k, exts) then [child] else Tracks(Some(k), child, exts);
      assert TracksFrom(k, g, i, exts) == here + TracksFrom(k, g, i + 1, exts);
      if !NameMatches(name, k, exts) {
        TracksMembers(k, child, exts);
      }
      forall t ensures t in here <==> FoundAt(g, i, t, k, exts) {
      }
      forall t ensures t in TracksFrom(k, g, i, exts) <==> exists j :: i <= j < |g.children| && FoundAt(g, j, t, k, exts) {
        if FoundAt(g, i, t, k, exts) {
          assert t in here;
        }
      }
    }
  }

  // ---------------------------------------------------------------------
  // verify_track
  // ---------------------------------------------------------------------

  /** The pair `(path or False, import_file_or_folder)` the resolver returns;
      False and None are both an absent path. */
  datatype Outcome = Outcome(path: Option<string>, fileOrFolder: bool)

  const NotFound := Outcome(None, false)

  /** Python truthiness of a path: present and not empty. */
  predicate Truthy(path: Option<string>)
  {
    path.Some? && path.value != []
  }

  /** `module_childrens`: the names `base + ext` the node holds. */
  function ExtMembers(g: Graph, base: string, exts: seq<string>): set<string>
  {
    Members(g) * ExtNames(base, exts)
  }

  /** `verify_track`: follows the remaining segments from `track`, one per
      call, accepting a child named after the segment or the segment with an
      extension, then looks for `module` at the end. More than one extension
      match fails the source's assertion, and indexing a file's identifier
      list by name is a TypeError. */
  function VerifyTrack(segs: seq<string>, moduleName: string, track: Graph, exts: seq<string>): Result<Outcome>
    decreases |segs|
  {
    if segs == [] then
      var mc := ExtMembers(track, moduleName, exts);
      if |mc| > 1 then Err(AssertionFailed)
      else if moduleName !in Members(track) && |mc| == 0 then
        if "__init__.py" in Members(track) then
          if track.Leaf? then Err(NotADict)
          else
            var init := Child(track.children, "__init__.py");
            if moduleName !in Members(init) then Ok(NotFound) else Ok(Outcome(Some(init.path), false))
        else Ok(NotFound)
      else if moduleName in Members(track) then
        if track.Leaf? then Ok(Outcome(Some(track.path), false))
        else Ok(Outcome(Some(Child(track.children, moduleName).path), true))
      else if track.Leaf? then Err(NotADict)
      else if moduleName + ".py" in mc then Ok(Outcome(Some(Child(track.children, moduleName + ".py").path), true))
      else
        ExtNameFound(track, moduleName, exts);
        Ok(Outcome(Some(Child(track.children, FirstExtName(Members(track), moduleName, exts, 0).value).path), true))
    else
      var seg := segs[0];
      var mc := ExtMembers(track, seg, exts);
      if |mc| > 1 then Err(AssertionFailed)
      else if seg !in Members(track) && |mc| == 0 then Ok(NotFound)
      else if track.Leaf? then Ok(NotFound)
      else if seg in Members(track) then VerifyTrack(segs[1..], moduleName, Child(track.children, seg), exts)
      else
        ExtNameFound(track, seg, exts);
        VerifyTrack(segs[1..], moduleName, Child(track.children, FirstExtName(Members(track), seg, exts, 0).value), exts)
  }

  /** When the node holds some `base + ext`, the first of them is found. */
  lemma ExtNameFound(g: Graph, base: string, exts: seq<string>)
    requires ExtMembers(g, base, exts) != {}
    ensures FirstExtName(Members(g), base, exts, 0).Some?
  {
    var x :| x in ExtMembers(g, base, exts);
    var k :| 0 <= k < |exts| && x == base + exts[k];
    FirstExtNameFinds(Members(g), base, exts, 0, k);
  }

  /** `end` is reached from `track` by taking, for each segment in turn, a
      child named after it (with or without an extension). */
  ghost predicate Walk(track: Graph, segs: seq<string>, exts: seq<string>, end: Graph)
    decreases |segs|
  {
    if segs == [] then end == track
    else
      track.Dir? &&
      exists j :: 0 <= j < |track.children| && NameMatches(track.children[j].0, segs[0], exts)
                  && Walk(track.children[j].1, segs[1..], exts, end)
  }

  /** What a found `module` at the end node `end` may be: the file leaf
      itself when it binds the name, a child named after the moduleName (with
      or without an extension) as a file or folder, or an `__init__.py`
      child binding the name. */
  predicate TerminalHit(end: Graph, moduleName: string, exts: seq<string>, o: Outcome)
  {
    || (end.Leaf? && moduleName in end.names && o == Outcome(Some(end.path), false))
    || (end.Dir? && exists j :: 0 <= j < |end.children| && NameMatches(end.children[j].0, moduleName, exts)
                                && o == Outcome(Some(end.children[j].1.path), true))
    || (end.Dir? && exists j :: 0 <= j < |end.children| && end.children[j].0 == "__init__.py"
                                && moduleName in Members(end.children[j].1)
                                && o == Outcome(Some(end.children[j].1.path), false))
  }

  /** Every path `verify_track` reports was reached by walking the segments
      and is a place where `module` is defined. */
  lemma {:induction false} VerifyTrackSound(segs: seq<string>, moduleName: string, track: Graph, exts: seq<string>)
    ensures VerifyTrack(segs, moduleName, track, exts).Ok? && VerifyTrack(segs, moduleName, track, exts).value.path.Some? ==>
      exists end :: Walk(track, segs, exts, end) && TerminalHit(end, moduleName, exts, VerifyTrack(segs, moduleName, track, exts).value)
    decreases |segs|
  {
    var r := VerifyTrack(segs, moduleName, track, exts);
    if r.Ok? && r.value.path.Some? {
      if segs == [] {
        TerminalSound(moduleName, track, exts);
        assert Walk(track, segs, exts, track);
      } else {
        var seg := segs[0];
        var name: string;
        if seg in Members(track) {
          name := seg;
        } else {
          ExtNameFound(track, seg, exts);
          name := FirstExtName(Members(track), seg, exts, 0).value;
        }
        var child := Child(track.children, name);
        assert r == VerifyTrack(segs[1..], moduleName, child, exts);
        VerifyTrackSound(segs[1..], moduleName, child, exts);
        var end :| Walk(child, segs[1..], exts, end) && TerminalHit(end, moduleName, exts, r.value);
        var j :| 0 <= j < |track.children| && track.children[j] == (name, child);
        assert NameMatches(track.children[j].0, seg, exts);
        assert Walk(track, segs, exts, end);
      }
    }
  }

  lemma TerminalSound(moduleName: string, track: Graph, exts: seq<string>)
    requires VerifyTrack([], moduleName, track, exts).Ok? && VerifyTrack([], moduleName, track, exts).value.path.Some?
    ensures TerminalHit(track, moduleName, exts, VerifyTrack([], moduleName, track, exts).value)
  {
    var o := VerifyTrack([], moduleName, track, exts).value;
    if track.Dir? {
      var cs := track.children;
      var mc := ExtMembers(track, moduleName, exts);
      if moduleName !in Members(track) && |mc| == 0 {
        var init := Child(cs, "__init__.py");
        assert o == Outcome(Some(init.path), false) && moduleName in Members(init);
        var j :| 0 <= j < |cs| && cs[j] == ("__init__.py", init);
      } else {
        var name: string;
        if moduleName in Members(track) {
          name := moduleName;
        } else if moduleName + ".py" in mc {
          name := moduleName + ".py";
        } else {
          ExtNameFound(track, moduleName, exts);
          name := FirstExtName(Members(track), moduleName, exts, 0).value;
        }
        assert NameMatches(name, moduleName, exts) && o == Outcome(Some(Child(cs, name).path), true);
        var j :| 0 <= j < |cs| && cs[j] == (name, Child(cs, name));
      }
    }
  }

  /** With at most one `module + ext` name present, the end of the walk looks
      for `module` in this order: the name itself (a file leaf listing it, or
      the folder child of that name), then the one `module + ext` child (so a
      present `module.py` is taken), then an `__init__.py` child listing it;
      with none of them the track is missed. */
  lemma TerminalOrder(moduleName: string, track: Graph, exts: seq<string>)
    requires |ExtMembers(track, moduleName, exts)| <= 1
    ensures track.Leaf? && moduleName in track.names ==>
      VerifyTrack([], moduleName, track, exts) == Ok(Outcome(Some(track.path), false))
    ensures track.Dir? && moduleName in Members(track) ==>
      VerifyTrack([], moduleName, track, exts) == Ok(Outcome(Some(Child(track.children, moduleName).path), true))
    ensures forall x :: track.Dir? && moduleName !in Members(track) && x in ExtMembers(track, moduleName, exts) ==>
      VerifyTrack([], moduleName, track, exts) == Ok(Outcome(Some(Child(track.children, x).path), true))
    ensures track.Dir? && moduleName !in Members(track) && moduleName + ".py" in ExtMembers(track, moduleName, exts) ==>
      VerifyTrack([], moduleName, track, exts) == Ok(Outcome(Some(Child(track.children, moduleName + ".py").path), true))
    ensures track.Dir? && moduleName !in Members(track) && ExtMembers(track, moduleName, exts) == {} && "__init__.py" in Members(track) ==>
      var init := Child(track.children, "__init__.py");
      VerifyTrack([], moduleName, track, exts) ==
        Ok(if moduleName in Members(init) then Outcome(Some(init.path), false) else NotFound)
    ensures moduleName !in Members(track) && ExtMembers(track, moduleName, exts) == {} && "__init__.py" !in Members(track) ==>
      VerifyTrack([], moduleName, track, exts) == Ok(NotFound)
    ensures track.Leaf? && moduleName !in track.names && (ExtMembers(track, moduleName, exts) != {} || "__init__.py" in track.names) ==>
      VerifyTrack([], moduleName, track, exts) == Err(NotADict)
  {
    var mc := ExtMembers(track, moduleName, exts);
    forall x | track.Dir? && moduleName !in Members(track) && x in mc
      ensures VerifyTrack([], moduleName, track, exts) == Ok(Outcome(Some(Child(track.children, x).path), true))
    {
      var name: string;
      if moduleName + ".py" in mc {
        name := moduleName + ".py";
      } else {
        ExtNameFound(track, moduleName, exts);
        name := FirstExtName(Members(track), moduleName, exts, 0).value;
      }
      OnlyMember(mc, name, x);
    }
  }

  /** A set of at most one element holding `a` and `b` has `a == b`. */
  lemma OnlyMember<T>(s: set<T>, a: T, b: T)
    requires |s| <= 1 && a in s && b in s
    ensures a == b
  {
    assert |s - {a}| == |s| - 1;
    assert s - {a} == {};
  }

  /** The source's assertion fails at the first node holding two of the
      names `base + ext` for the segment or module it looks at, and at the
      end of the walk only there. */
  lemma VerifyTrackAssertion(segs: seq<string>, moduleName: string, track: Graph, exts: seq<string>)
    ensures |ExtMembers(track, if segs == [] then moduleName else segs[0], exts)| > 1 ==>
      VerifyTrack(segs, moduleName, track, exts) == Err(AssertionFailed)
    ensures segs == [] ==>
      (VerifyTrack(segs, moduleName, track, exts) == Err(AssertionFailed) <==> |ExtMembers(track, moduleName, exts)| > 1)
  {
  }

  // ---------------------------------------------------------------------
  // search_by_repo_graph
  // ---------------------------------------------------------------------

  /** The loop of `search_chain`: the first track whose verification gives
      a truthy path, else `(None, None)`; a failure in a verification ends
      the search. */
  function FirstVerified(tracks: seq<Graph>, rest: seq<string>, moduleName: string, exts: seq<string>): Result<Outcome>
  {
    if tracks == [] then Ok(NotFound)
    else
      match VerifyTrack(rest, moduleName, tracks[0], exts)
      case Err(e) => Err(e)
      case Ok(o) => if Truthy(o.path) then Ok(o) else FirstVerified(tracks[1..], rest, moduleName, exts)
  }

  /** The first track that is not missed decides the search: its
      verification is the result, a path or a failure. */
  lemma {:induction false} FirstVerifiedAt(tracks: seq<Graph>, rest: seq<string>, moduleName: string, exts: seq<string>, k: nat)
    requires k < |tracks| && EarlierMiss(tracks, rest, moduleName, exts, k) && !Missed(tracks[k], rest, moduleName, exts)
    ensures FirstVerified(tracks, rest, moduleName, exts) == VerifyTrack(rest, moduleName, tracks[k], exts)
  {
    if k > 0 {
      assert Missed(tracks[0], rest, moduleName, exts);
      EarlierMissTail(tracks, rest, moduleName, exts, k);
      assert tracks[1..][k - 1] == tracks[k];
      FirstVerifiedAt(tracks[1..], rest, moduleName, exts, k - 1);
    }
  }

  /** When every track is missed, nothing is found. */
  lemma {:induction false} FirstVerifiedNone(tracks: seq<Graph>, rest: seq<string>, moduleName: string, exts: seq<string>)
    requires EarlierMiss(tracks, rest, moduleName, exts, |tracks|)
    ensures FirstVerified(tracks, rest, moduleName, exts) == Ok(NotFound)
  {
    if tracks != [] {
      assert Missed(tracks[0], rest, moduleName, exts);
      EarlierMissTail(tracks, rest, moduleName, exts, |tracks|);
      FirstVerifiedNone(tracks[1..], rest, moduleName, exts);
    }
  }

  lemma EarlierMissTail(tracks: seq<Graph>, rest: seq<string>, moduleName: string, exts: seq<string>, k: nat)
    requires 0 < k <= |tracks| && EarlierMiss(tracks, rest, moduleName, exts, k)
    ensures EarlierMiss(tracks[1..], rest, moduleName, exts, k - 1)
  {
    forall i | 0 <= i < k - 1 ensures Missed(tracks[1..][i], rest, moduleName, exts) {
      assert tracks[1..][i] == tracks[i + 1];
    }
  }

  /** Verifying `track` gives no truthy path and no failure. */
  predicate Missed(track: Graph, rest: seq<string>, moduleName: string, exts: seq<string>)
  {
    var v := VerifyTrack(rest, moduleName, track, exts);
    v.Ok? && !Truthy(v.value.path)
  }

  /** Every track before index `k` is missed. */
  predicate EarlierMiss(tracks: seq<Graph>, rest: seq<string>, moduleName: string, exts: seq<string>, k: nat)
    requires k <= |tracks|
  {
    forall i :: 0 <= i < k ==> Missed(tracks[i], rest, moduleName, exts)
  }

  /** `search_chain`: the tracks for the first segment (the whole graph when
      there is none), each verified against the remaining segments. */
  function SearchChain(segs: seq<string>, moduleName: string, graph: Graph, exts: seq<string>): Result<Outcome>
  {
    var start := if segs == [] then None else Some(segs[0]);
    var rest := if segs == [] then [] else segs[1..];
    FirstVerified(Tracks(start, graph, exts), rest, moduleName, exts)
  }

  /** `search_by_repo_graph`: a `from` import searches the dotted package
      for the imported name; `import a.b.c` searches `a.b` for `c`. */
  function SearchByRepoGraph(d: ImportDetail, graph: Graph, exts: seq<string>): Result<Outcome>
  {
    match d.package
    case Some(p) => SearchChain(Split(p, "."), d.moduleName, graph, exts)
    case None =>
      var parts := Split(d.moduleName, ".");
      SearchChain(parts[..|parts| - 1], parts[|parts| - 1], graph, exts)
  }

  /** A plain `import c` without a dot is looked up at the root of the
      index: the root is the only track and `c` is checked directly in it. */
  lemma PlainImportAtRoot(d: ImportDetail, graph: Graph, exts: seq<string>)
    requires d.package.None? && '.' !in d.moduleName
    ensures SearchByRepoGraph(d, graph, exts) == FirstVerified([graph], [], d.moduleName, exts)
  {
    NoSeparator(d.moduleName);
    var parts := Split(d.moduleName, ".");
    assert parts[..|parts| - 1] == [];
  }

  /** A text without a '.' splits into itself. */
  lemma NoSeparator(s: string)
    requires '.' !in s
    ensures Split(s, ".") == [s]
  {
    SeparatorOccurs(s);
  }

  /** A found '.' is a character of the text. */
  lemma SeparatorOccurs(s: string)
    ensures IndexOf(s, ".").Some? ==> '.' in s
  {
    if IndexOf(s, ".").Some? {
      var i := IndexOf(s, ".").value;
      assert s[i..i + 1] == ".";
      assert s[i] in s;
    }
  }

  /** A `from P import m` with a dotted package starts at the tracks of
      the first part of `P`, and only the tracks found there are verified,
      against the remaining parts. */
  lemma FromImportAnchors(d: ImportDetail, graph: Graph, exts: seq<string>)
    requires d.package.Some?
    ensures var parts := Split(d.package.value, ".");
      SearchByRepoGraph(d, graph, exts) == FirstVerified(Tracks(Some(parts[0]), graph, exts), parts[1..], d.moduleName, exts)
  {
  }

  // ---------------------------------------------------------------------
  // import_analyze
  // ---------------------------------------------------------------------

  /** What the resolver asks of the filesystem: `os.path.exists`,
      `os.path.isdir`, and reading a file. */
  datatype FileSystem = FileSystem(pathExists: string -> bool, isDir: string -> bool, read: Reader)

  /** An import detail with the `import_path` and `import_file_or_folder`
      entries `import_analyze` adds to it. */
  datatype ResolvedImport = ResolvedImport(detail: ImportDetail, importPath: Option<string>, fileOrFolder: bool)

  /** `RELATIVE_IMPORT_PREFIXS`, longest first. */
  const RelativePrefixes: seq<string> := ["...", "..", "."]

  /** `os.path.dirname` applied `n` times. */
  function Ancestor(p: string, n: nat): string
  {
    if n == 0 then p else DirName(Ancestor(p, n - 1))
  }

  /** The package path after the prefix, with dots turned into slashes. */
  function RelPath(package: string, prefix: string): string
    requires |prefix| <= |package|
  {
    ReplaceChar(package[|prefix|..], '.', '/')
  }

  /** The texts of the identifiers `get_node_by_kind(root, ["identifier"])` finds. */
  function IdentifierTexts(root: Node): seq<string>
  {
    var ids := Collect(root, Some({"identifier"}), {}, false);
    seq(|ids|, j requires 0 <= j < |ids| => ids[j].text)
  }

  /** Whether the `__init__.py` at `initPath` mentions `moduleName` as an
      identifier; opening an unreadable path raises. */
  function InitBinds(fs: FileSystem, parse: Parser, initPath: string, moduleName: string): Result<bool>
  {
    match fs.read(initPath)
    case None => Err(NotReadable)
    case Some(text) => Ok(moduleName in IdentifierTexts(parse(text)))
  }

  /** The init check holds exactly when some identifier node of the parsed
      file, anywhere in the tree, has the module's name as its text. */
  lemma InitBindsSpec(fs: FileSystem, parse: Parser, initPath: string, moduleName: string)
    ensures InitBinds(fs, parse, initPath, moduleName) == Ok(true) <==>
      fs.read(initPath).Some? &&
      exists x :: Reaches(parse(fs.read(initPath).value), x, {}, {}) && x.kind == "identifier" && x.text == moduleName
  {
    if fs.read(initPath).Some? {
      var root := parse(fs.read(initPath).value);
      var ids := Collect(root, Some({"identifier"}), {}, false);
      CollectMembers(root, Some({"identifier"}), {}, false);
      if moduleName in IdentifierTexts(root) {
        var j :| 0 <= j < |ids| && IdentifierTexts(root)[j] == moduleName;
        assert ids[j] in ids;
      }
      if exists x :: Reaches(root, x, {}, {}) && x.kind == "identifier" && x.text == moduleName {
        var x :| Reaches(root, x, {}, {}) && x.kind == "identifier" && x.text == moduleName;
        assert x in ids;
        var j :| 0 <= j < |ids| && ids[j] == x;
        assert IdentifierTexts(root)[j] == moduleName;
      }
    }
  }

  /** `from .p import m`, extension `ext`: the module file `p.ext`. */
  function FileCandidate(startDir: string, rel: string, ext: string): string
  {
    PathJoin(startDir, rel + ext)
  }

  /** `from .p import m`, extension `ext`: the file `p/m.ext`. */
  function FolderCandidate(startDir: string, rel: string, moduleName: string, ext: string): string
  {
    PathJoin(PathJoin(startDir, rel), moduleName + ext)
  }

  /** The extension loop for `from .p import m`: per extension, `p.ext`
      (a module, flag False) before `p/m.ext` (a file in a package, flag
      True); the loop stops once the path is truthy. */
  function PackageExtLoop(fs: FileSystem, startDir: string, rel: string, moduleName: string,
                          exts: seq<string>, i: nat, st: Outcome): Outcome
    requires i <= |exts|
    decreases |exts| - i
  {
    if i == |exts| then st
    else
      var asFile := FileCandidate(startDir, rel, exts[i]);
      var inFolder := FolderCandidate(startDir, rel, moduleName, exts[i]);
      var next := if fs.pathExists(asFile) then Outcome(Some(asFile), false)
                  else if fs.pathExists(inFolder) then Outcome(Some(inFolder), true)
                  else st;
      if Truthy(next.path) then next else PackageExtLoop(fs, startDir, rel, moduleName, exts, i + 1, next)
  }

  /** The probes for `from .p import m` under `startDir`: the extension loop,
      then an `__init__.py` of `p` binding `m` (flag False), and only when
      there is no such file, the directory `p/m` (flag True). */
  function PackageProbe(fs: FileSystem, parse: Parser, startDir: string, rel: string, moduleName: string,
                        exts: seq<string>, st: Outcome): Result<Outcome>
  {
    var afterExts := PackageExtLoop(fs, startDir, rel, moduleName, exts, 0, st);
    if Truthy(afterExts.path) then Ok(afterExts)
    else
      var initPath := PathJoin(PathJoin(startDir, rel), "__init__.py");
      var importDir := PathJoin(PathJoin(startDir, rel), moduleName);
      if fs.pathExists(initPath) then
        match InitBinds(fs, parse, initPath, moduleName)
        case Err(e) => Err(e)
        case Ok(binds) => Ok(if binds then Outcome(Some(initPath), false) else afterExts)
      else if fs.isDir(importDir) then Ok(Outcome(Some(importDir), true))
      else Ok(afterExts)
  }

  /** The extension loop for `from . import m`: the file `m.ext` (flag True). */
  function ModuleExtLoop(fs: FileSystem, startDir: string, moduleName: string, exts: seq<string>, i: nat, st: Outcome): Outcome
    requires i <= |exts|
    decreases |exts| - i
  {
    if i == |exts| then st
    else
      var candidate := PathJoin(startDir, moduleName + exts[i]);
      var next := if fs.pathExists(candidate) then Outcome(Some(candidate), true) else st;
      if Truthy(next.path) then next else ModuleExtLoop(fs, startDir, moduleName, exts, i + 1, next)
  }

  /** The probes for `from . import m` under `startDir`: the extension loop,
      then the directory `m` (flag True), then an `__init__.py` binding `m`
      (flag False). */
  function ModuleProbe(fs: FileSystem, parse: Parser, startDir: string, moduleName: string,
                       exts: seq<string>, st: Outcome): Result<Outcome>
  {
    var afterExts := ModuleExtLoop(fs, startDir, moduleName, exts, 0, st);
    if Truthy(afterExts.path) then Ok(afterExts)
    else
      var dir := PathJoin(startDir, moduleName);
      var initPath := PathJoin(startDir, "__init__.py");
      if fs.isDir(dir) then Ok(Outcome(Some(dir), true))
      else if fs.pathExists(initPath) then
        match InitBinds(fs, parse, initPath, moduleName)
        case Err(e) => Err(e)
        case Ok(binds) => Ok(if binds then Outcome(Some(initPath), false) else afterExts)
      else Ok(afterExts)
  }

  /** One pass of the prefix loop: a package starting with `prefix` is
      probed from the file's directory raised once per dot; the package
      being exactly the prefix means `from . import m`. */
  function PrefixProbe(d: ImportDetail, filepath: string, fs: FileSystem, parse: Parser,
                       exts: seq<string>, prefix: string, st: Outcome): Result<Outcome>
  {
    if d.package.Some? && StartsWith(d.package.value, prefix) then
      var startDir := Ancestor(filepath, |prefix|);
      if d.package.value != prefix then
        PackageProbe(fs, parse, startDir, RelPath(d.package.value, prefix), d.moduleName, exts, st)
      else
        ModuleProbe(fs, parse, startDir, d.moduleName, exts, st)
    else Ok(st)
  }

  /** The prefix loop from index `i`: prefixes are tried longest first, a
      failed probe lets the next, shorter prefix try, and a truthy path
      stops the loop. */
  function PrefixLoop(d: ImportDetail, filepath: string, fs: FileSystem, parse: Parser,
                      exts: seq<string>, i: nat, st: Outcome): Result<Outcome>
    requires i <= |RelativePrefixes|
    decreases |RelativePrefixes| - i
  {
    if i == |RelativePrefixes| then Ok(st)
    else
      match PrefixProbe(d, filepath, fs, parse, exts, RelativePrefixes[i], st)
      case Err(e) => Err(e)
      case Ok(next) => if Truthy(next.path) then Ok(next) else PrefixLoop(d, filepath, fs, parse, exts, i + 1, next)
  }

  /** The resolution of one detail: the relative probes, and the index
      search when they leave the path falsy. */
  function Resolve(d: ImportDetail, filepath: string, fs: FileSystem, parse: Parser,
                   graph: Graph, exts: seq<string>): (r: Result<ResolvedImport>)
    ensures r.Ok? ==> r.value.detail == d
  {
    match PrefixLoop(d, filepath, fs, parse, exts, 0, NotFound)
    case Err(e) => Err(e)
    case Ok(st) =>
      if Truthy(st.path) then Ok(ResolvedImport(d, st.path, st.fileOrFolder))
      else
        match SearchByRepoGraph(d, graph, exts)
        case Err(e) => Err(e)
        case Ok(o) => Ok(ResolvedImport(d, o.path, o.fileOrFolder))
  }

  /** The details of all import nodes, in order; the first failing
      `parse_import` ends the analysis. */
  function AllDetails(nodes: seq<Node>): Result<seq<ImportDetail>>
  {
    FlatMapAll(nodes, ImportDetailsOf)
  }

  /** `Resolve` for one file, as a function of the detail. */
  function ResolveIn(filepath: string, fs: FileSystem, parse: Parser, graph: Graph, exts: seq<string>): ImportDetail -> Result<ResolvedImport>
  {
    (d: ImportDetail) => Resolve(d, filepath, fs, parse, graph, exts)
  }

  /** What `import_analyze` returns. */
  function Analyze(nodes: seq<Node>, filepath: string, fs: FileSystem, parse: Parser,
                   graph: Graph, exts: seq<string>): Result<seq<ResolvedImport>>
  {
    match AllDetails(nodes)
    case Err(e) => Err(e)
    case Ok(ds) => MapAll(ds, ResolveIn(filepath, fs, parse, graph, exts))
  }

  /** `import_analyze`: parses every import node, then resolves each detail
      in turn; a failure in either pass ends the analysis. */
  method ImportAnalyze(importNodes: seq<Node>, filepath: string, fs: FileSystem, parse: Parser,
                       graph: Graph, exts: seq<string>) returns (r: Result<seq<ResolvedImport>>)
    ensures r == Analyze(importNodes, filepath, fs, parse, graph, exts)
  {
    var details := ParseAll(importNodes);
    if details.Err? {
      return Err(details.error);
    }
    r := ResolveAll(details.value, filepath, fs, parse, graph, exts);
  }

  /** The first loop of `import_analyze`: `import_details.extend(parse_import(node))`. */
  method ParseAll(importNodes: seq<Node>) returns (r: Result<seq<ImportDetail>>)
    ensures r == AllDetails(importNodes)
  {
    ghost var all := FlatMapAll(importNodes, ImportDetailsOf);
    assert importNodes[0..] == importNodes;
    assert all.Ok? ==> [] + all.value == all.value;
    var details: seq<ImportDetail> := [];
    var i := 0;
    while i < |importNodes|
      invariant 0 <= i <= |importNodes|
      invariant all == Chain(details, FlatMapAll(importNodes[i..], ImportDetailsOf))
    {
      var parsed := ParseImport(importNodes[i]);
      FlatMapAllStep(importNodes, ImportDetailsOf, details, i, parsed);
      if parsed.Err? {
        return Err(parsed.error);
      }
      ghost var rest := FlatMapAll(importNodes[i + 1..], ImportDetailsOf);
      assert all == Chain(details + parsed.value, rest);
      details := details + parsed.value;
      i := i + 1;
    }
    assert importNodes[i..] == [] && details + [] == details;
    r := Ok(details);
  }

  /** The second loop of `import_analyze`: every detail gets its path and flag. */
  method ResolveAll(details: seq<ImportDetail>, filepath: string, fs: FileSystem, parse: Parser,
                    graph: Graph, exts: seq<string>) returns (r: Result<seq<ResolvedImport>>)
    ensures r == MapAll(details, ResolveIn(filepath, fs, parse, graph, exts))
  {
    ghost var resolve := ResolveIn(filepath, fs, parse, graph, exts);
    ghost var all := MapAll(details, resolve);
    assert details[0..] == details;
    assert all.Ok? ==> [] + all.value == all.value;
    var resolved: seq<ResolvedImport> := [];
    var k := 0;
    while k < |details|
      invariant 0 <= k <= |details|
      invariant all == Chain(resolved, MapAll(details[k..], resolve))
    {
      MapAllStep(details, resolve, resolved, k);
      var one := ResolveDetail(details[k], filepath, fs, parse, graph, exts);
      if one.Err? {
        return Err(one.error);
      }
      resolved := resolved + [one.value];
      k := k + 1;
    }
    assert details[k..] == [] && resolved + [] == resolved;
    r := Ok(resolved);
  }

  /** The body of the detail loop: the prefix loop, then the fallback. */
  method ResolveDetail(d: ImportDetail, filepath: string, fs: FileSystem, parse: Parser,
                       graph: Graph, exts: seq<string>) returns (r: Result<ResolvedImport>)
    ensures r == ResolveIn(filepath, fs, parse, graph, exts)(d)
  {
    var probed := ProbeRelative(d, filepath, fs, parse, exts);
    if probed.Err? {
      return Err(probed.error);
    }
    var importPath, fileOrFolder := probed.value.path, probed.value.fileOrFolder;
    if !Truthy(importPath) {
      var found := SearchByRepoGraph(d, graph, exts);
      if found.Err? {
        return Err(found.error);
      }
      importPath, fileOrFolder := found.value.path, found.value.fileOrFolder;
    }
    r := Ok(ResolvedImport(d, importPath, fileOrFolder));
  }

  /** The prefix loop of `import_analyze`. */
  method ProbeRelative(d: ImportDetail, filepath: string, fs: FileSystem, parse: Parser, exts: seq<string>)
    returns (r: Result<Outcome>)
    ensures r == PrefixLoop(d, filepath, fs, parse, exts, 0, NotFound)
  {
    var st := NotFound;
    var i := 0;
    while i < |RelativePrefixes|
      invariant 0 <= i <= |RelativePrefixes|
      invariant PrefixLoop(d, filepath, fs, parse, exts, 0, NotFound) == PrefixLoop(d, filepath, fs, parse, exts, i, st)
    {
      var probe := ProbePrefix(d, filepath, fs, parse, exts, RelativePrefixes[i], st);
      if probe.Err? {
        return probe;
      }
      st := probe.value;
      if Truthy(st.path) {
        return Ok(st);
      }
      i := i + 1;
    }
    r := Ok(st);
  }

  /** The body of the prefix loop for one prefix. */
  method ProbePrefix(d: ImportDetail, filepath: string, fs: FileSystem, parse: Parser,
                     exts: seq<string>, prefix: string, st: Outcome) returns (r: Result<Outcome>)
    ensures r == PrefixProbe(d, filepath, fs, parse, exts, prefix, st)
  {
    if d.package.Some? && StartsWith(d.package.value, prefix) {
      var startDir := StartDir(filepath, |prefix|);
      if d.package.value != prefix {
        r := ProbePackage(fs, parse, startDir, RelPath(d.package.value, prefix), d.moduleName, exts, st);
      } else {
        r := ProbeModule(fs, parse, startDir, d.moduleName, exts, st);
      }
    } else {
      r := Ok(st);
    }
  }

  /** `start_dir = os.path.dirname(start_dir)`, once per dot. */
  method StartDir(filepath: string, dots: nat) returns (startDir: string)
    ensures startDir == Ancestor(filepath, dots)
  {
    startDir := filepath;
    var n := 0;
    while n < dots
      invariant 0 <= n <= dots
      invariant startDir == Ancestor(filepath, n)
    {
      startDir := DirName(startDir);
      n := n + 1;
    }
  }

  /** The `__init__.py` check: read, parse, and look for the name among the
      identifiers. */
  method InitCheck(fs: FileSystem, parse: Parser, initPath: string, moduleName: string) returns (r: Result<bool>)
    ensures r == InitBinds(fs, parse, initPath, moduleName)
  {
    var content := fs.read(initPath);
    if content.None? {
      return Err(NotReadable);
    }
    var root := parse(content.value);
    var ids := GetNodeByKind(root, Some({"identifier"}), {}, false);
    var texts := seq(|ids|, j requires 0 <= j < |ids| => ids[j].text);
    r := Ok(moduleName in texts);
  }

  /** The probes for `from .p import m`. */
  method ProbePackage(fs: FileSystem, parse: Parser, startDir: string, rel: string, moduleName: string,
                      exts: seq<string>, st: Outcome) returns (r: Result<Outcome>)
    ensures r == PackageProbe(fs, parse, startDir, rel, moduleName, exts, st)
  {
    var cur := st;
    var i := 0;
    while i < |exts|
      invariant 0 <= i <= |exts|
      invariant PackageExtLoop(fs, startDir, rel, moduleName, exts, 0, st) == PackageExtLoop(fs, startDir, rel, moduleName, exts, i, cur)
    {
      var asFile := PathJoin(startDir, rel + exts[i]);
      var inFolder := PathJoin(PathJoin(startDir, rel), moduleName + exts[i]);
      if fs.pathExists(asFile) {
        cur := Outcome(Some(asFile), false);
      } else if fs.pathExists(inFolder) {
        cur := Outcome(Some(inFolder), true);
      }
      if Truthy(cur.path) {
        break;
      }
      i := i + 1;
    }
    assert PackageExtLoop(fs, startDir, rel, moduleName, exts, 0, st) == cur;
    if !Truthy(cur.path) {
      var initPath := PathJoin(PathJoin(startDir, rel), "__init__.py");
      var importDir := PathJoin(PathJoin(startDir, rel), moduleName);
      if fs.pathExists(initPath) {
        var binds := InitCheck(fs, parse, initPath, moduleName);
        if binds.Err? {
          return Err(binds.error);
        }
        if binds.value {
          cur := Outcome(Some(initPath), false);
        }
      } else if fs.isDir(importDir) {
        cur := Outcome(Some(importDir), true);
      }
    }
    r := Ok(cur);
  }

  /** The probes for `from . import m`. */
  method ProbeModule(fs: FileSystem, parse: Parser, startDir: string, moduleName: string,
                     exts: seq<string>, st: Outcome) returns (r: Result<Outcome>)
    ensures r == ModuleProbe(fs, parse, startDir, moduleName, exts, st)
  {
    var cur := st;
    var i := 0;
    while i < |exts|
      invariant 0 <= i <= |exts|
      invariant ModuleExtLoop(fs, startDir, moduleName, exts, 0, st) == ModuleExtLoop(fs, startDir, moduleName, exts, i, cur)
    {
      var candidate := PathJoin(startDir, moduleName + exts[i]);
      if fs.pathExists(candidate) {
        cur := Outcome(Some(candidate), true);
      }
      if Truthy(cur.path) {
        break;
      }
      i := i + 1;
    }
    assert ModuleExtLoop(fs, startDir, moduleName, exts, 0, st) == cur;
    if !Truthy(cur.path) {
      var dir := PathJoin(startDir, moduleName);
      var initPath := PathJoin(startDir, "__init__.py");
      if fs.isDir(dir) {
        cur := Outcome(Some(dir), true);
      } else if fs.pathExists(initPath) {
        var binds := InitCheck(fs, parse, initPath, moduleName);
        if binds.Err? {
          return Err(binds.error);
        }
        if binds.value {
          cur := Outcome(Some(initPath), false);
        }
      }
    }
    r := Ok(cur);
  }

  /** `p.ext` or `p/m.ext` exists. */
  predicate PackageHit(fs: FileSystem, startDir: string, rel: string, moduleName: string, ext: string)
  {
    fs.pathExists(FileCandidate(startDir, rel, ext)) || fs.pathExists(FolderCandidate(startDir, rel, moduleName, ext))
  }

  /** What a hit at `ext` gives: the module file if it exists, else the file
      in the package. */
  function PackageHitOutcome(fs: FileSystem, startDir: string, rel: string, moduleName: string, ext: string): Outcome
  {
    if fs.pathExists(FileCandidate(startDir, rel, ext)) then Outcome(Some(FileCandidate(startDir, rel, ext)), false)
    else Outcome(Some(FolderCandidate(startDir, rel, moduleName, ext)), true)
  }

  /** The first extension with a hit decides the extension loop of
      `from .p import m`, and `p.ext` beats `p/m.ext` there; with no hit the
      state is left as it was. */
  lemma {:induction false} PackageExtLoopFirstHit(fs: FileSystem, startDir: string, rel: string, moduleName: string,
                                                   exts: seq<string>, i: nat, st: Outcome)
    requires rel != [] && i <= |exts| && !Truthy(st.path)
    ensures forall k :: i <= k < |exts| && PackageHit(fs, startDir, rel, moduleName, exts[k]) &&
                        (forall j :: i <= j < k ==> !PackageHit(fs, startDir, rel, moduleName, exts[j])) ==>
      PackageExtLoop(fs, startDir, rel, moduleName, exts, i, st) == PackageHitOutcome(fs, startDir, rel, moduleName, exts[k])
    ensures (forall k :: i <= k < |exts| ==> !PackageHit(fs, startDir, rel, moduleName, exts[k])) ==>
      PackageExtLoop(fs, startDir, rel, moduleName, exts, i, st) == st
    decreases |exts| - i
  {
    if i < |exts| {
      var ext := exts[i];
      if PackageHit(fs, startDir, rel, moduleName, ext) {
        PathJoinEmpty(startDir, rel + ext);
        PathJoinEmpty(startDir, rel);
        PathJoinEmpty(PathJoin(startDir, rel), moduleName + ext);
        assert Truthy(PackageHitOutcome(fs, startDir, rel, moduleName, ext).path);
      } else {
        PackageExtLoopFirstHit(fs, startDir, rel, moduleName, exts, i + 1, st);
      }
    }
  }

  /** The extension loop of `from . import m` ends at the first existing
      `m.ext`; with none, the state is left as it was. */
  lemma {:induction false} ModuleExtLoopFirstHit(fs: FileSystem, startDir: string, moduleName: string,
                                                  exts: seq<string>, i: nat, st: Outcome)
    requires moduleName != [] && i <= |exts| && !Truthy(st.path)
    ensures forall k :: i <= k < |exts| && fs.pathExists(PathJoin(startDir, moduleName + exts[k])) &&
                        (forall j :: i <= j < k ==> !fs.pathExists(PathJoin(startDir, moduleName + exts[j]))) ==>
      ModuleExtLoop(fs, startDir, moduleName, exts, i, st) == Outcome(Some(PathJoin(startDir, moduleName + exts[k])), true)
    ensures (forall k :: i <= k < |exts| ==> !fs.pathExists(PathJoin(startDir, moduleName + exts[k]))) ==>
      ModuleExtLoop(fs, startDir, moduleName, exts, i, st) == st
    decreases |exts| - i
  {
    if i < |exts| {
      if fs.pathExists(PathJoin(startDir, moduleName + exts[i])) {
        PathJoinEmpty(startDir, moduleName + exts[i]);
      } else {
        ModuleExtLoopFirstHit(fs, startDir, moduleName, exts, i + 1, st);
      }
    }
  }

  /** When no extension hits for `from .p import m`, an `__init__.py` of `p`
      is consulted before the directory `p/m`, and the directory is only
      tried when there is no `__init__.py` at all. */
  lemma PackageProbeAfterExtensions(fs: FileSystem, parse: Parser, startDir: string, rel: string, moduleName: string, exts: seq<string>)
    requires rel != []
    requires forall k :: 0 <= k < |exts| ==> !PackageHit(fs, startDir, rel, moduleName, exts[k])
    ensures var initPath := PathJoin(PathJoin(startDir, rel), "__init__.py");
            var importDir := PathJoin(PathJoin(startDir, rel), moduleName);
            var r := PackageProbe(fs, parse, startDir, rel, moduleName, exts, NotFound);
            && (fs.pathExists(initPath) && InitBinds(fs, parse, initPath, moduleName) == Ok(true) ==> r == Ok(Outcome(Some(initPath), false)))
            && (fs.pathExists(initPath) && InitBinds(fs, parse, initPath, moduleName) == Ok(false) ==> r == Ok(NotFound))
            && (!fs.pathExists(initPath) && fs.isDir(importDir) ==> r == Ok(Outcome(Some(importDir), true)))
            && (!fs.pathExists(initPath) && !fs.isDir(importDir) ==> r == Ok(NotFound))
  {
    PackageExtLoopFirstHit(fs, startDir, rel, moduleName, exts, 0, NotFound);
  }

  /** When no `m.ext` exists for `from . import m`, the directory `m` comes
      before an `__init__.py` binding `m`. */
  lemma ModuleProbeAfterExtensions(fs: FileSystem, parse: Parser, startDir: string, moduleName: string, exts: seq<string>)
    requires moduleName != []
    requires forall k :: 0 <= k < |exts| ==> !fs.pathExists(PathJoin(startDir, moduleName + exts[k]))
    ensures var dir := PathJoin(startDir, moduleName);
            var initPath := PathJoin(startDir, "__init__.py");
            var r := ModuleProbe(fs, parse, startDir, moduleName, exts, NotFound);
            && (fs.isDir(dir) ==> r == Ok(Outcome(Some(dir), true)))
            && (!fs.isDir(dir) && fs.pathExists(initPath) && InitBinds(fs, parse, initPath, moduleName) == Ok(true) ==>
                  r == Ok(Outcome(Some(initPath), false)))
            && (!fs.isDir(dir) && !fs.pathExists(initPath) ==> r == Ok(NotFound))
  {
    ModuleExtLoopFirstHit(fs, startDir, moduleName, exts, 0, NotFound);
  }

  /** An absolute import, or one whose package does not start with a dot,
      probes nothing: its path comes from the index alone. */
  lemma AbsoluteImportUsesIndex(d: ImportDetail, filepath: string, fs: FileSystem, parse: Parser, graph: Graph, exts: seq<string>)
    requires d.package.None? || !StartsWith(d.package.value, ".")
    ensures Resolve(d, filepath, fs, parse, graph, exts) ==
      match SearchByRepoGraph(d, graph, exts)
      case Err(e) => Err(e)
      case Ok(o) => Ok(ResolvedImport(d, o.path, o.fileOrFolder))
  {
    if d.package.Some? {
      DottedPrefixes(d.package.value);
    }
    assert PrefixLoop(d, filepath, fs, parse, exts, 0, NotFound) == Ok(NotFound);
  }

  /** Every relative prefix starts with a dot. */
  lemma DottedPrefixes(p: string)
    ensures forall i :: 0 <= i < |RelativePrefixes| && StartsWith(p, RelativePrefixes[i]) ==> StartsWith(p, ".")
  {
    forall i | 0 <= i < |RelativePrefixes| && StartsWith(p, RelativePrefixes[i]) ensures StartsWith(p, ".") {
      assert p[0] == RelativePrefixes[i][0];
      assert p[..1] == [p[0]];
    }
  }

  /** The probes of the first `k` prefixes ran without failing and left the
      path falsy; `sts[j]` is the state prefix `j` started from (the source
      keeps `import_path` and `import_file_or_folder` across prefixes). */
  predicate MissedBefore(d: ImportDetail, filepath: string, fs: FileSystem, parse: Parser, exts: seq<string>,
                         sts: seq<Outcome>, k: nat)
  {
    && k <= |RelativePrefixes| && |sts| == k + 1 && sts[0] == NotFound
    && forall j :: 0 <= j < k ==> MissedAt(d, filepath, fs, parse, exts, sts, j)
  }

  /** Prefix `j` probed from state `sts[j]` without failing and handed on
      the falsy state `sts[j + 1]`. */
  predicate MissedAt(d: ImportDetail, filepath: string, fs: FileSystem, parse: Parser, exts: seq<string>,
                     sts: seq<Outcome>, j: nat)
  {
    && j < |RelativePrefixes| && j + 1 < |sts|
    && PrefixProbe(d, filepath, fs, parse, exts, RelativePrefixes[j], sts[j]) == Ok(sts[j + 1])
    && !Truthy(sts[j + 1].path)
  }

  /** Prefixes that missed hand the loop on to the next, shorter one. */
  lemma MissedPassOn(d: ImportDetail, filepath: string, fs: FileSystem, parse: Parser, exts: seq<string>,
                     sts: seq<Outcome>, k: nat)
    requires MissedBefore(d, filepath, fs, parse, exts, sts, k)
    ensures PrefixLoop(d, filepath, fs, parse, exts, 0, NotFound) == PrefixLoop(d, filepath, fs, parse, exts, k, sts[k])
  {
    var i := 0;
    while i < k
      invariant i <= k
      invariant PrefixLoop(d, filepath, fs, parse, exts, 0, NotFound) == PrefixLoop(d, filepath, fs, parse, exts, i, sts[i])
    {
      assert MissedAt(d, filepath, fs, parse, exts, sts, i);
      PrefixLoopMisses(d, filepath, fs, parse, exts, i, sts[i], sts[i + 1]);
      i := i + 1;
    }
  }

  lemma PrefixLoopMisses(d: ImportDetail, filepath: string, fs: FileSystem, parse: Parser, exts: seq<string>,
                         i: nat, st: Outcome, next: Outcome)
    requires i < |RelativePrefixes|
    requires PrefixProbe(d, filepath, fs, parse, exts, RelativePrefixes[i], st) == Ok(next) && !Truthy(next.path)
    ensures PrefixLoop(d, filepath, fs, parse, exts, i, st) == PrefixLoop(d, filepath, fs, parse, exts, i + 1, next)
  {
  }

  /** A further prefix that misses extends the chain of misses by one. */
  lemma MissedExtend(d: ImportDetail, filepath: string, fs: FileSystem, parse: Parser, exts: seq<string>,
                     sts: seq<Outcome>, k: nat, next: Outcome)
    requires MissedBefore(d, filepath, fs, parse, exts, sts, k) && k < |RelativePrefixes|
    requires PrefixProbe(d, filepath, fs, parse, exts, RelativePrefixes[k], sts[k]) == Ok(next) && !Truthy(next.path)
    ensures MissedBefore(d, filepath, fs, parse, exts, sts + [next], k + 1)
  {
    var ext := sts + [next];
    forall j | 0 <= j < k + 1
      ensures MissedAt(d, filepath, fs, parse, exts, ext, j)
    {
      if j < k {
        assert MissedAt(d, filepath, fs, parse, exts, sts, j);
      }
      assert ext[j] == sts[j];
    }
  }

  /** Prefixes are tried longest first: the first one whose probe fails or
      finds a path decides the loop, and no shorter prefix is tried after
      it; when every prefix misses, the last state is the result. */
  lemma PrefixLoopFirstHit(d: ImportDetail, filepath: string, fs: FileSystem, parse: Parser, exts: seq<string>,
                           sts: seq<Outcome>, k: nat)
    requires MissedBefore(d, filepath, fs, parse, exts, sts, k)
    ensures k < |RelativePrefixes| ==>
      var probe := PrefixProbe(d, filepath, fs, parse, exts, RelativePrefixes[k], sts[k]);
      (probe.Err? || Truthy(probe.value.path)) ==> PrefixLoop(d, filepath, fs, parse, exts, 0, NotFound) == probe
    ensures k == |RelativePrefixes| ==> PrefixLoop(d, filepath, fs, parse, exts, 0, NotFound) == Ok(sts[k])
  {
    MissedPassOn(d, filepath, fs, parse, exts, sts, k);
  }

  /** The relative probes find a path exactly when some prefix finds it
      after every longer prefix missed. */
  lemma PrefixLoopFindsIff(d: ImportDetail, filepath: string, fs: FileSystem, parse: Parser, exts: seq<string>, o: Outcome)
    ensures PrefixLoop(d, filepath, fs, parse, exts, 0, NotFound) == Ok(o) && Truthy(o.path) <==>
      exists sts, k: nat :: MissedBefore(d, filepath, fs, parse, exts, sts, k) && k < |RelativePrefixes| &&
        PrefixProbe(d, filepath, fs, parse, exts, RelativePrefixes[k], sts[k]) == Ok(o) && Truthy(o.path)
  {
    if exists sts, k: nat :: MissedBefore(d, filepath, fs, parse, exts, sts, k) && k < |RelativePrefixes| &&
         PrefixProbe(d, filepath, fs, parse, exts, RelativePrefixes[k], sts[k]) == Ok(o) && Truthy(o.path) {
      var sts: seq<Outcome>, k: nat :| MissedBefore(d, filepath, fs, parse, exts, sts, k) && k < |RelativePrefixes| &&
         PrefixProbe(d, filepath, fs, parse, exts, RelativePrefixes[k], sts[k]) == Ok(o) && Truthy(o.path);
      PrefixLoopFirstHit(d, filepath, fs, parse, exts, sts, k);
    }
    if PrefixLoop(d, filepath, fs, parse, exts, 0, NotFound) == Ok(o) && Truthy(o.path) {
      var sts: seq<Outcome> := [NotFound];
      var k: nat := 0;
      while k < |RelativePrefixes|
        invariant MissedBefore(d, filepath, fs, parse, exts, sts, k)
        decreases |RelativePrefixes| - k
      {
        var probe := PrefixProbe(d, filepath, fs, parse, exts, RelativePrefixes[k], sts[k]);
        if probe.Err? || Truthy(probe.value.path) {
          PrefixLoopFirstHit(d, filepath, fs, parse, exts, sts, k);
          return;
        }
        MissedExtend(d, filepath, fs, parse, exts, sts, k, probe.value);
        sts, k := sts + [probe.value], k + 1;
      }
      assert MissedAt(d, filepath, fs, parse, exts, sts, k - 1);
      PrefixLoopFirstHit(d, filepath, fs, parse, exts, sts, k);
      assert false;
    }
  }

  /** A package `..p` that the `..` probe misses is probed again with the
      shorter prefix `.`, from the file's own directory, with the rest of
      the package turned into the absolute path `/p`: the candidate files of
      that probe lie under the filesystem root, not under the package. */
  lemma DoubleDotRetry(d: ImportDetail, filepath: string, fs: FileSystem, parse: Parser, exts: seq<string>,
                       st: Outcome, p: string)
    requires d.package == Some(".." + p) && p != [] && p[0] != '.'
    ensures PrefixProbe(d, filepath, fs, parse, exts, "...", st) == Ok(st)
    ensures PrefixProbe(d, filepath, fs, parse, exts, "..", st) ==
      PackageProbe(fs, parse, Ancestor(filepath, 2), RelPath(".." + p, ".."), d.moduleName, exts, st)
    ensures PrefixProbe(d, filepath, fs, parse, exts, ".", st) ==
      PackageProbe(fs, parse, Ancestor(filepath, 1), "/" + RelPath(".." + p, ".."), d.moduleName, exts, st)
    ensures forall ext ::
      FileCandidate(Ancestor(filepath, 1), "/" + RelPath(".." + p, ".."), ext) == "/" + RelPath(".." + p, "..") + ext
  {
    DoubleDotPackage(p);
    var rest := RelPath(".." + p, "..");
    forall ext ensures FileCandidate(Ancestor(filepath, 1), "/" + rest, ext) == "/" + rest + ext {
      var c := "/" + rest + ext;
      assert c[0] == '/' && c[..1] == "/";
    }
  }

  /** How the three prefixes meet a package `..p`. */
  lemma DoubleDotPackage(p: string)
    requires p != [] && p[0] != '.'
    ensures !StartsWith(".." + p, "...") && StartsWith(".." + p, "..") && StartsWith(".." + p, ".")
    ensures ".." + p != ".." && ".." + p != "."
    ensures RelPath(".." + p, ".") == "/" + RelPath(".." + p, "..")
  {
    var pkg := ".." + p;
    assert |pkg| == |p| + 2 && pkg[0] == '.' && pkg[1] == '.' && pkg[2] == p[0];
    assert pkg[..3][2] != '.';
    assert pkg[..2] == "..";
    assert pkg[..1] == ".";
    var a, b := RelPath(pkg, "."), RelPath(pkg, "..");
    forall i | 0 <= i < |a| ensures a[i] == ("/" + b)[i] {
      if i > 0 {
        assert pkg[1..][i] == pkg[2..][i - 1];
      }
    }
    assert a == "/" + b;
  }

  /** Once a relative probe succeeds the index is never consulted: the
      outcome is the same whatever the index holds. */
  lemma RelativeHitIgnoresIndex(d: ImportDetail, filepath: string, fs: FileSystem, parse: Parser,
                                graph1: Graph, graph2: Graph, exts: seq<string>)
    requires var probed := PrefixLoop(d, filepath, fs, parse, exts, 0, NotFound);
             probed.Err? || Truthy(probed.value.path)
    ensures Resolve(d, filepath, fs, parse, graph1, exts) == Resolve(d, filepath, fs, parse, graph2, exts)
  {
  }

  /** Every parsed detail comes back, in order, with its path and flag set. */
  lemma AnalyzeKeepsDetails(nodes: seq<Node>, filepath: string, fs: FileSystem, parse: Parser, graph: Graph, exts: seq<string>)
    requires Analyze(nodes, filepath, fs, parse, graph, exts).Ok?
    ensures AllDetails(nodes).Ok?
    ensures var ds, rs := AllDetails(nodes).value, Analyze(nodes, filepath, fs, parse, graph, exts).value;
            |rs| == |ds| && forall j :: 0 <= j < |ds| ==> rs[j].detail == ds[j]
  {
    var ds := AllDetails(nodes).value;
    var resolve := ResolveIn(filepath, fs, parse, graph, exts);
    var rs := MapAll(ds, resolve).value;
    forall j | 0 <= j < |ds| ensures rs[j].detail == ds[j] {
      assert resolve(ds[j]) == Ok(rs[j]);
    }
  }
}
