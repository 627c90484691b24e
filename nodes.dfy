/** The node records of `src/pydepcall/Node.py` and the identifier
    attribution that decides which names a function body depends on. */
module Nodes {
  import opened Common
  import opened TextUtils
  import opened SyntaxTree
  import opened ParserUtils
  import opened RepoGraph
  import opened Resolver

  // ---------------------------------------------------------------------
  // remove_parentheses
  // ---------------------------------------------------------------------

  /** The (start, end) points of the string literals the parser finds in
      `text`, outermost only. */
  function StringSpans(parse: Parser, text: string): seq<(Point, Point)>
  {
    var found := Collect(parse(text), Some({"string"}), {}, true);
    seq(|found|, j requires 0 <= j < |found| => (found[j].start, found[j].end))
  }

  /** `text` with its string literals cut out, so that parentheses inside
      them are not counted; an unknown row is a KeyError. */
  function WithoutStrings(text: string, parse: Parser): Result<string>
  {
    match SpanOffsets(SplitLines(text, IsByteLineBreak), StringSpans(parse, text))
    case None => Err(MissingKey)
    case Some(offs) => Ok(Gaps(text, 0, offs))
  }

  /** The text kept after the `i`-th ')': up to the next '(' (empty when that
      '(' comes earlier), or to the end after the last ')'. */
  function AfterClose(s: string, opens: seq<nat>, closes: seq<nat>, i: nat): string
    requires |opens| == |closes| && i < |closes|
  {
    if i == |closes| - 1 then Slice(s, closes[i] + 1, |s|)
    else Slice(s, closes[i] + 1, opens[i + 1])
  }

  /** The text kept after the ')'s from the `i`-th on. */
  function AfterClosesFrom(s: string, opens: seq<nat>, closes: seq<nat>, i: nat): string
    requires |opens| == |closes| && i <= |closes|
    decreases |closes| - i
  {
    if i == |closes| then [] else AfterClose(s, opens, closes, i) + AfterClosesFrom(s, opens, closes, i + 1)
  }

  /** The text before the first '(' followed by the text kept after each ')'. */
  function Unparenthesised(s: string, opens: seq<nat>, closes: seq<nat>): string
    requires |opens| == |closes| && |opens| > 0
  {
    Slice(s, 0, opens[0]) + AfterClosesFrom(s, opens, closes, 0)
  }

  /** What `remove_parentheses` returns for the text of a call: the string
      literals are cut out, the counts of '(' and ')' must agree (an
      assertion), and a text without any '(' has no first one to index. */
  function CalleeText(text: string, parse: Parser): Result<string>
  {
    match WithoutStrings(text, parse)
    case Err(e) => Err(e)
    case Ok(s) =>
      var opens, closes := FindAllSubstring('(', s), FindAllSubstring(')', s);
      if |opens| != |closes| then Err(AssertionFailed)
      else if opens == [] then Err(IndexOutOfRange)
      else Ok(Unparenthesised(s, opens, closes))
  }

  /** `remove_parentheses`. */
  method RemoveParentheses(text: string, parse: Parser) returns (r: Result<string>)
    ensures r == CalleeText(text, parse)
  {
    var root := parse(text);
    var nodes := GetNodeByKind(root, Some({"string"}), {}, true);
    var rmPositions := SpansOf(nodes);
    var cleaned := RemoveContent(text, rmPositions);
    if cleaned.Err? {
      return Err(cleaned.error);
    }
    var s := cleaned.value;
    var opens := FindAllSubstring('(', s);
    var closes := FindAllSubstring(')', s);
    if |opens| != |closes| {
      return Err(AssertionFailed);
    }
    if |opens| == 0 {
      return Err(IndexOutOfRange);
    }
    var modified := KeepOutside(s, opens, closes);
    r := Ok(modified);
  }

  /** The (start, end) points of the given nodes, in order. */
  method SpansOf(nodes: seq<Node>) returns (spans: seq<(Point, Point)>)
    ensures spans == seq(|nodes|, j requires 0 <= j < |nodes| => (nodes[j].start, nodes[j].end))
  {
    spans := [];
    for i := 0 to |nodes|
      invariant spans == seq(i, j requires 0 <= j < i => (nodes[j].start, nodes[j].end))
    {
      spans := spans + [(nodes[i].start, nodes[i].end)];
    }
  }

  /** The loop of `remove_parentheses` that keeps the text between a ')'
      and the next '('. */
  method KeepOutside(s: string, opens: seq<nat>, closes: seq<nat>) returns (modified: string)
    requires |opens| == |closes| && |opens| > 0
    ensures modified == Unparenthesised(s, opens, closes)
  {
    modified := Slice(s, 0, opens[0]);
    for cid := 0 to |closes|
      invariant modified + AfterClosesFrom(s, opens, closes, cid) == Unparenthesised(s, opens, closes)
    {
      var piece;
      if cid == |closes| - 1 {
        piece := Slice(s, closes[cid] + 1, |s|);
      } else {
        piece := Slice(s, closes[cid] + 1, opens[cid + 1]);
      }
      AppendAssoc(modified, piece, AfterClosesFrom(s, opens, closes, cid + 1));
      modified := modified + piece;
    }
  }

  /** Strictly ascending positions. */
  predicate Ascending(xs: seq<nat>)
  {
    forall i, j :: 0 <= i < j < |xs| ==> xs[i] < xs[j]
  }

  /** `xs` lists every position of `c` in `s`. */
  predicate Covers(xs: seq<nat>, c: char, s: string)
  {
    forall p :: 0 <= p < |s| && s[p] == c ==> p in xs
  }

  /** Every ')' closes a '(' that comes before it: the `i`-th ')' follows
      the `i`-th '('. */
  predicate Nested(opens: seq<nat>, closes: seq<nat>)
  {
    |opens| == |closes| && forall i :: 0 <= i < |opens| ==> opens[i] < closes[i]
  }

  /** The conditions under which the kept text has no parenthesis left. */
  predicate Balanced(s: string, opens: seq<nat>, closes: seq<nat>)
  {
    && Ascending(opens) && Ascending(closes)
    && Covers(opens, '(', s) && Covers(closes, ')', s)
    && opens != [] && Nested(opens, closes)
  }

  /** With well-nested parentheses the text kept has no parenthesis left:
      every argument list, nested ones included, is gone. */
  lemma UnparenthesisedHasNoParens(s: string)
    requires Nested(FindAllSubstring('(', s), FindAllSubstring(')', s)) && FindAllSubstring('(', s) != []
    ensures var r := Unparenthesised(s, FindAllSubstring('(', s), FindAllSubstring(')', s));
            '(' !in r && ')' !in r
  {
    var opens, closes := FindAllSubstring('(', s), FindAllSubstring(')', s);
    assert Balanced(s, opens, closes);
    forall p | 0 <= p < Min(opens[0], |s|) ensures s[p] != '(' && s[p] != ')' {
      BeforeFirstOpen(s, opens, closes, p);
    }
    SliceFree(s, 0, opens[0]);
    AfterClosesFree(s, opens, closes, 0);
  }

  /** No parenthesis comes before the first '('. */
  lemma BeforeFirstOpen(s: string, opens: seq<nat>, closes: seq<nat>, p: nat)
    requires Balanced(s, opens, closes) && p < opens[0] && p < |s|
    ensures s[p] != '(' && s[p] != ')'
  {
    forall j | 0 <= j < |opens| ensures opens[j] != p {
      assert j == 0 || opens[0] < opens[j];
    }
    forall j | 0 <= j < |closes| ensures closes[j] != p {
      assert j == 0 || opens[0] < opens[j];
      assert opens[j] < closes[j];
    }
  }

  /** No parenthesis lies strictly between the `i`-th ')' and the next '('
      (or the end of the text after the last ')'). */
  lemma BetweenCloseAndOpen(s: string, opens: seq<nat>, closes: seq<nat>, i: nat, p: nat)
    requires Balanced(s, opens, closes) && i < |closes| && closes[i] < p < |s|
    requires i + 1 < |opens| ==> p < opens[i + 1]
    ensures s[p] != '(' && s[p] != ')'
  {
    forall j | 0 <= j < |opens| ensures opens[j] != p {
      if j <= i {
        assert j == i || opens[j] < opens[i];
        assert opens[i] < closes[i];
      } else {
        assert j == i + 1 || opens[i + 1] < opens[j];
      }
    }
    forall j | 0 <= j < |closes| ensures closes[j] != p {
      if j <= i {
        assert j == i || closes[j] < closes[i];
      } else {
        assert j == i + 1 || closes[i + 1] < closes[j];
        assert opens[i + 1] < closes[i + 1];
      }
    }
  }

  /** No parenthesis among the characters of `s[a:b]` when none is at any
      position of that range. */
  lemma SliceFree(s: string, a: nat, b: nat)
    requires forall p :: a <= p < Min(b, |s|) ==> s[p] != '(' && s[p] != ')'
    ensures '(' !in Slice(s, a, b) && ')' !in Slice(s, a, b)
  {
    var piece := Slice(s, a, b);
    forall q | 0 <= q < |piece| ensures piece[q] != '(' && piece[q] != ')' {
      assert piece[q] == s[Min(a, |s|) + q];
    }
  }

  lemma {:induction false} AfterClosesFree(s: string, opens: seq<nat>, closes: seq<nat>, i: nat)
    requires Balanced(s, opens, closes) && i <= |closes|
    ensures '(' !in AfterClosesFrom(s, opens, closes, i) && ')' !in AfterClosesFrom(s, opens, closes, i)
    decreases |closes| - i
  {
    if i < |closes| {
      var here, rest := AfterClose(s, opens, closes, i), AfterClosesFrom(s, opens, closes, i + 1);
      assert AfterClosesFrom(s, opens, closes, i) == here + rest;
      AfterCloseFree(s, opens, closes, i);
      AfterClosesFree(s, opens, closes, i + 1);
      NotInConcat(here, rest);
    }
  }

  lemma NotInConcat(a: string, b: string)
    requires '(' !in a && ')' !in a && '(' !in b && ')' !in b
    ensures '(' !in a + b && ')' !in a + b
  {
    forall j | 0 <= j < |a + b| ensures (a + b)[j] != '(' && (a + b)[j] != ')' {
      if j < |a| {
        assert (a + b)[j] == a[j];
      } else {
        assert (a + b)[j] == b[j - |a|];
      }
    }
  }

  /** The text kept after one ')' has no parenthesis. */
  lemma AfterCloseFree(s: string, opens: seq<nat>, closes: seq<nat>, i: nat)
    requires Balanced(s, opens, closes) && i < |closes|
    ensures '(' !in AfterClose(s, opens, closes, i) && ')' !in AfterClose(s, opens, closes, i)
  {
    var b := if i == |closes| - 1 then |s| else opens[i + 1];
    forall p | closes[i] + 1 <= p < Min(b, |s|) ensures s[p] != '(' && s[p] != ')' {
      BetweenCloseAndOpen(s, opens, closes, i, p);
    }
    SliceFree(s, closes[i] + 1, b);
  }

  /** The text of a call `callee(args)` whose argument list holds no
      parenthesis reduces to the callee. */
  lemma CalleeOfSimpleCall(callee: string, args: string)
    requires '(' !in callee && ')' !in callee && '(' !in args && ')' !in args
    ensures var s := callee + "(" + args + ")";
            FindAllSubstring('(', s) == [|callee|] && FindAllSubstring(')', s) == [|callee| + |args| + 1] &&
            Unparenthesised(s, [|callee|], [|callee| + |args| + 1]) == callee
  {
    var s := callee + "(" + args + ")";
    var o, c := |callee|, |callee| + |args| + 1;
    forall p | 0 <= p < |s| && p != o && p != c ensures s[p] != '(' && s[p] != ')' {
      if p < o {
        assert s[p] == callee[p] && callee[p] in callee;
      } else {
        assert s[p] == args[p - o - 1] && args[p - o - 1] in args;
      }
    }
    assert s[o] == '(' && s[c] == ')';
    SingletonPositions('(', s, o);
    SingletonPositions(')', s, c);
    assert Slice(s, 0, o) == callee;
    assert Slice(s, c + 1, |s|) == [];
    assert AfterClosesFrom(s, [o], [c], 0) == [];
  }

  /** A character found at exactly one position is found once. */
  lemma SingletonPositions(c: char, s: string, p: nat)
    requires p < |s| && s[p] == c && forall q :: 0 <= q < |s| && s[q] == c ==> q == p
    ensures FindAllSubstring(c, s) == [p]
  {
    SingletonFrom(c, s, 0, p);
  }

  lemma {:induction false} SingletonFrom(c: char, s: string, from: nat, p: nat)
    requires from <= |s| && p < |s| && s[p] == c && forall q :: 0 <= q < |s| && s[q] == c ==> q == p
    ensures FindFrom(c, s, from) == if from <= p then [p] else []
    decreases |s| - from
  {
    if from < |s| {
      SingletonFrom(c, s, from + 1, p);
    }
  }

  // ---------------------------------------------------------------------
  // get_dependencies (identifier attribution)
  // ---------------------------------------------------------------------

  /** The names callees put in the must-include and exclude sets. */
  datatype CallSets = CallSets(must: set<string>, exclude: set<string>)

  /** The set of a sequence's elements. */
  function Elements(xs: seq<string>): set<string>
  {
    set k | 0 <= k < |xs| :: xs[k]
  }

  /** Python's `ids[1:]`. */
  function Tail(ids: seq<string>): seq<string>
  {
    if ids == [] then [] else ids[1..]
  }

  /** One callee, split at '.': a name without '.' must be included; for a
      dotted callee every segment after the first (attributes and methods)
      is excluded. */
  function AddCallee(sets: CallSets, ids: seq<string>): CallSets
  {
    if |ids| == 1 then CallSets(sets.must + {ids[0]}, sets.exclude)
    else CallSets(sets.must, sets.exclude + Elements(Tail(ids)))
  }

  /** The sets after the given split callees, added in order. */
  function SetsOf(segs: seq<seq<string>>): CallSets
  {
    if segs == [] then CallSets({}, {})
    else AddCallee(SetsOf(segs[..|segs| - 1]), segs[|segs| - 1])
  }

  /** `remove_parentheses` of a call node's text, split at '.'. */
  function CalleeSegments(parse: Parser): Node -> Result<seq<string>>
  {
    (c: Node) =>
      match CalleeText(c.text, parse)
      case Err(e) => Err(e)
      case Ok(callee) => Ok(Split(callee, "."))
  }

  /** The call nodes of a function, in pre-order. */
  function CallNodes(fn: Node): seq<Node>
  {
    Collect(fn, Some({"call"}), {}, false)
  }

  /** The sets the first loop of `get_dependencies` builds; the first
      failing `remove_parentheses` raises out of it. */
  function CallSetsOf(calls: seq<Node>, parse: Parser): Result<CallSets>
  {
    match MapAll(calls, CalleeSegments(parse))
    case Err(e) => Err(e)
    case Ok(segs) => Ok(SetsOf(segs))
  }

  /** The identifier texts kept: must-include ones, and any not excluded. */
  function Included(ids: seq<string>, sets: CallSets): set<string>
  {
    set k | 0 <= k < |ids| && (ids[k] in sets.must || ids[k] !in sets.exclude) :: ids[k]
  }

  /** What `get_dependencies` of Node.py returns for a function node. */
  function Dependencies(fn: Node, parse: Parser): Result<set<string>>
  {
    match CallSetsOf(CallNodes(fn), parse)
    case Err(e) => Err(e)
    case Ok(sets) => Ok(Included(IdentifierTexts(fn), sets))
  }

  /** `get_dependencies`: the callee sets, then the identifier filter. */
  method GetDependencies(fn: Node, parse: Parser) returns (r: Result<set<string>>)
    ensures r == Dependencies(fn, parse)
  {
    var calls := GetNodeByKind(fn, Some({"call"}), {}, false);
    var sets := CollectCallSets(calls, parse);
    if sets.Err? {
      return Err(sets.error);
    }
    var idNodes := GetNodeByKind(fn, Some({"identifier"}), {}, false);
    var included := IncludedIdentifiers(idNodes, sets.value);
    r := Ok(included);
  }

  /** `CalleeSegments` applied to one call node. */
  lemma CalleeSegmentsOf(parse: Parser, c: Node, callee: Result<string>)
    requires callee == CalleeText(c.text, parse)
    ensures callee.Err? ==> CalleeSegments(parse)(c) == Err(callee.error)
    ensures callee.Ok? ==> CalleeSegments(parse)(c) == Ok(Split(callee.value, "."))
  {
  }

  /** The first loop of `get_dependencies`. */
  method CollectCallSets(calls: seq<Node>, parse: Parser) returns (r: Result<CallSets>)
    ensures r == CallSetsOf(calls, parse)
  {
    ghost var all := MapAll(calls, CalleeSegments(parse));
    ghost var done: seq<seq<string>> := [];
    assert calls[0..] == calls;
    assert all.Ok? ==> [] + all.value == all.value;
    var must: set<string> := {};
    var exclude: set<string> := {};
    for i := 0 to |calls|
      invariant all == Chain(done, MapAll(calls[i..], CalleeSegments(parse)))
      invariant SetsOf(done) == CallSets(must, exclude)
    {
      MapAllStep(calls, CalleeSegments(parse), done, i);
      var callContent := RemoveParentheses(calls[i].text, parse);
      CalleeSegmentsOf(parse, calls[i], callContent);
      if callContent.Err? {
        assert all == Err(callContent.error);
        return Err(callContent.error);
      }
      var identifiers := Split(callContent.value, ".");
      if |identifiers| == 1 {
        must := must + {identifiers[0]};
      } else {
        exclude := exclude + Elements(identifiers[1..]);
      }
      assert (done + [identifiers])[..|done|] == done;
      done := done + [identifiers];
    }
    assert MapAll(calls[|calls|..], CalleeSegments(parse)) == Ok([]) by {
      assert calls[|calls|..] == [];
    }
    assert done + [] == done;
    r := Ok(CallSets(must, exclude));
  }

  /** One more identifier of the second loop. */
  lemma IncludedStep(ids: seq<string>, sets: CallSets, i: nat)
    requires i < |ids|
    ensures Included(ids[..i + 1], sets) ==
      Included(ids[..i], sets) + (if ids[i] in sets.must || ids[i] !in sets.exclude then {ids[i]} else {})
  {
    var pre, ext := ids[..i], ids[..i + 1];
    forall x | x in Included(ext, sets) ensures x in Included(pre, sets) || x == ids[i] {
      var k :| 0 <= k < |ext| && (ext[k] in sets.must || ext[k] !in sets.exclude) && ext[k] == x;
      if k < i { assert pre[k] == x; }
    }
    forall x | x in Included(pre, sets) ensures x in Included(ext, sets) {
      var k :| 0 <= k < |pre| && (pre[k] in sets.must || pre[k] !in sets.exclude) && pre[k] == x;
      assert ext[k] == x;
    }
    if ids[i] in sets.must || ids[i] !in sets.exclude {
      assert ext[i] == ids[i];
    }
  }

  /** The second loop of `get_dependencies`. */
  method IncludedIdentifiers(idNodes: seq<Node>, sets: CallSets) returns (included: set<string>)
    ensures included == Included(seq(|idNodes|, j requires 0 <= j < |idNodes| => idNodes[j].text), sets)
  {
    ghost var texts := seq(|idNodes|, j requires 0 <= j < |idNodes| => idNodes[j].text);
    included := {};
    for i := 0 to |idNodes|
      invariant included == Included(texts[..i], sets)
    {
      var identifierText := idNodes[i].text;
      IncludedStep(texts, sets, i);
      if identifierText in sets.must || identifierText !in sets.exclude {
        included := included + {identifierText};
      }
    }
    assert texts[..|idNodes|] == texts;
  }

  /** The must-include set holds exactly the callees without a '.'. */
  lemma {:induction false} MustSpec(segs: seq<seq<string>>)
    ensures forall x :: x in SetsOf(segs).must <==> exists k :: 0 <= k < |segs| && segs[k] == [x]
  {
    if segs != [] {
      var n := |segs| - 1;
      var pre := segs[..n];
      MustSpec(pre);
      forall x ensures x in SetsOf(segs).must <==> exists k :: 0 <= k < |segs| && segs[k] == [x] {
        if exists k :: 0 <= k < |pre| && pre[k] == [x] {
          var k :| 0 <= k < |pre| && pre[k] == [x];
          assert segs[k] == pre[k];
        }
        if exists k :: 0 <= k < |segs| && segs[k] == [x] {
          var k :| 0 <= k < |segs| && segs[k] == [x];
          if k < n { assert segs[k] == pre[k]; }
        }
        if |segs[n]| == 1 && segs[n][0] == x { assert segs[n] == [x]; }
      }
    }
  }

  /** The exclude set holds exactly the segments after the first of dotted
      callees. */
  lemma {:induction false} ExcludeSpec(segs: seq<seq<string>>)
    ensures forall x :: x in SetsOf(segs).exclude <==>
      exists k, j :: 0 <= k < |segs| && 1 <= j < |segs[k]| && segs[k][j] == x
  {
    if segs != [] {
      var n := |segs| - 1;
      var pre := segs[..n];
      ExcludeSpec(pre);
      var ids := segs[n];
      forall x ensures x in SetsOf(segs).exclude <==>
        exists k, j :: 0 <= k < |segs| && 1 <= j < |segs[k]| && segs[k][j] == x
      {
        if exists k, j :: 0 <= k < |pre| && 1 <= j < |pre[k]| && pre[k][j] == x {
          var k, j :| 0 <= k < |pre| && 1 <= j < |pre[k]| && pre[k][j] == x;
          assert segs[k] == pre[k];
        }
        if exists k, j :: 0 <= k < |segs| && 1 <= j < |segs[k]| && segs[k][j] == x {
          var k, j :| 0 <= k < |segs| && 1 <= j < |segs[k]| && segs[k][j] == x;
          if k < n {
            assert segs[k] == pre[k];
          } else {
            assert Tail(ids)[j - 1] == x;
          }
        }
        if |ids| != 1 && x in Elements(Tail(ids)) {
          var j :| 0 <= j < |Tail(ids)| && Tail(ids)[j] == x;
          assert ids[j + 1] == x;
        }
      }
    }
  }

  /** A name is a dependency exactly when some identifier of the body has
      it as text and either some callee is that bare name or no dotted
      callee has it after its first segment; attribution fails exactly when
      some call's text cannot be cleaned. */
  lemma DependenciesSpec(fn: Node, parse: Parser)
    ensures Dependencies(fn, parse).Err? <==>
      exists k :: 0 <= k < |CallNodes(fn)| && CalleeText(CallNodes(fn)[k].text, parse).Err?
    ensures Dependencies(fn, parse).Ok? ==>
      var segs := MapAll(CallNodes(fn), CalleeSegments(parse)).value;
      forall x :: x in Dependencies(fn, parse).value <==>
        x in IdentifierTexts(fn) &&
        ((exists k :: 0 <= k < |segs| && segs[k] == [x]) ||
         !(exists k, j :: 0 <= k < |segs| && 1 <= j < |segs[k]| && segs[k][j] == x))
  {
    var calls := CallNodes(fn);
    MapAllFirstError(calls, CalleeSegments(parse));
    forall k | 0 <= k < |calls|
      ensures CalleeSegments(parse)(calls[k]).Err? <==> CalleeText(calls[k].text, parse).Err?
    {
      CalleeSegmentsOf(parse, calls[k], CalleeText(calls[k].text, parse));
    }
    if Dependencies(fn, parse).Ok? {
      var segs := MapAll(calls, CalleeSegments(parse)).value;
      MustSpec(segs);
      ExcludeSpec(segs);
      var ids := IdentifierTexts(fn);
      var sets := SetsOf(segs);
      forall x ensures x in Included(ids, sets) <==> x in ids && (x in sets.must || x !in sets.exclude) {
        if x in ids {
          var k :| 0 <= k < |ids| && ids[k] == x;
        }
      }
    }
  }

  /** Every dependency is the text of an identifier node of the body. */
  lemma DependenciesAreIdentifiers(fn: Node, parse: Parser)
    requires Dependencies(fn, parse).Ok?
    ensures forall x :: x in Dependencies(fn, parse).value ==>
      exists n :: Reaches(fn, n, {}, {}) && n.kind == "identifier" && n.text == x
  {
    var ids := IdentifierTexts(fn);
    var sets := CallSetsOf(CallNodes(fn), parse).value;
    var found := Collect(fn, Some({"identifier"}), {}, false);
    CollectMembers(fn, Some({"identifier"}), {}, false);
    forall x | x in Dependencies(fn, parse).value
      ensures exists n :: Reaches(fn, n, {}, {}) && n.kind == "identifier" && n.text == x
    {
      assert x in Included(ids, sets);
      var k :| 0 <= k < |ids| && (ids[k] in sets.must || ids[k] !in sets.exclude) && ids[k] == x;
      assert found[k] in found;
    }
  }

  // ---------------------------------------------------------------------
  // Node records
  // ---------------------------------------------------------------------

  /** What the metadata extractor gives for a function definition. */
  datatype FunctionMeta = FunctionMeta(name: string, params: seq<string>, returnType: string, docstring: string)

  /** `get_called_identifiers`: the dependencies other than the parameters
      and the function's own name. */
  function CalledIdentifiers(deps: set<string>, params: seq<string>, name: string): (r: set<string>)
    ensures r <= deps
    ensures forall p :: p in params ==> p !in r
    ensures name !in r
    ensures forall x :: x in deps && x !in params && x != name ==> x in r
  {
    set x | x in deps && x !in params && x != name
  }

  /** A class definition, kept as a leaf. */
  datatype ClassNode = ClassNode(path: string, content: string, syntax: Node, position: (Point, Point), name: string)

  /** A top-level statement, named by its first identifier. */
  datatype BlockNode = BlockNode(path: string, content: string, syntax: Node, name: string, position: (Point, Point))

  /** `ClassNode(path, content, node)`: its name comes from the class
      metadata extractor. */
  function ClassNodeOf(path: string, content: string, syntax: Node, className: Node -> string): ClassNode
  {
    ClassNode(path, content, syntax, (syntax.start, syntax.end), className(syntax))
  }

  /** `BlockNode(path, content, node)`: named by the first identifier of the
      statement; a statement without one raises IndexError. */
  function BlockNodeOf(path: string, content: string, syntax: Node): (r: Result<BlockNode>)
    ensures r.Err? <==> IdentifierTexts(syntax) == []
    ensures r.Ok? ==> r.value.name == IdentifierTexts(syntax)[0] && r.value.position == (syntax.start, syntax.end)
  {
    var ids := IdentifierTexts(syntax);
    if ids == [] then Err(IndexOutOfRange)
    else Ok(BlockNode(path, content, syntax, ids[0], (syntax.start, syntax.end)))
  }

  /** A child in a node's `children` list: function and import nodes are
      shared objects, class and block nodes fresh values. */
  datatype Dependency =
    | OnFunction(functionNode: FunctionNode)
    | OnImport(importNode: ImportNode)
    | OnClass(classNode: ClassNode)
    | OnBlock(block: BlockNode)

  /** The file a child was found in. */
  function DependencyPath(d: Dependency): string
  {
    match d
    case OnFunction(f) => f.path
    case OnImport(i) => i.path
    case OnClass(c) => c.path
    case OnBlock(b) => b.path
  }

  /** `FunctionNode`: a function definition with its metadata and the
      identifiers it calls; its children are attached later. */
  class FunctionNode {
    const path: string
    const content: string
    const syntax: Node
    const position: (Point, Point)
    const name: string
    const params: seq<string>
    const returnType: string
    const docstring: string
    const calledIdentifiers: set<string>
    var children: seq<Dependency>

    constructor (path: string, content: string, syntax: Node, meta: FunctionMeta, called: set<string>)
      ensures this.path == path && this.content == content && this.syntax == syntax
      ensures position == (syntax.start, syntax.end)
      ensures name == meta.name && params == meta.params && returnType == meta.returnType && docstring == meta.docstring
      ensures calledIdentifiers == called && children == []
    {
      this.path := path;
      this.content := content;
      this.syntax := syntax;
      position := (syntax.start, syntax.end);
      name := meta.name;
      params := meta.params;
      returnType := meta.returnType;
      docstring := meta.docstring;
      calledIdentifiers := called;
      children := [];
    }
  }

  /** What constructing a `FunctionNode` computes as its called identifiers. */
  function CalledOf(syntax: Node, meta: FunctionMeta, parse: Parser): Result<set<string>>
  {
    match Dependencies(syntax, parse)
    case Err(e) => Err(e)
    case Ok(deps) => Ok(CalledIdentifiers(deps, meta.params, meta.name))
  }

  /** `FunctionNode(path, content, node)`: metadata first, then the called
      identifiers; a failing attribution raises out of the constructor. */
  method NewFunctionNode(path: string, content: string, syntax: Node, metaOf: Node -> FunctionMeta, parse: Parser)
    returns (r: Result<FunctionNode>)
    ensures r.Err? <==> Dependencies(syntax, parse).Err?
    ensures r.Err? ==> Dependencies(syntax, parse) == Err(r.error)
    ensures r.Ok? ==> fresh(r.value) && r.value.children == []
    ensures r.Ok? ==> r.value.path == path && r.value.content == content && r.value.syntax == syntax
    ensures r.Ok? ==> r.value.name == metaOf(syntax).name && r.value.position == (syntax.start, syntax.end)
    ensures r.Ok? ==> Ok(r.value.calledIdentifiers) == CalledOf(syntax, metaOf(syntax), parse)
  {
    var meta := metaOf(syntax);
    var deps := GetDependencies(syntax, parse);
    if deps.Err? {
      return Err(deps.error);
    }
    var called := CalledIdentifiers(deps.value, meta.params, meta.name);
    var node := new FunctionNode(path, content, syntax, meta, called);
    r := Ok(node);
  }

  /** `ImportNode`: an import statement with the resolved import details;
      its children are attached later. */
  class ImportNode {
    const path: string
    const content: string
    const syntax: Node
    const position: (Point, Point)
    const importDict: seq<ResolvedImport>
    var children: seq<Dependency>

    constructor (path: string, content: string, syntax: Node, importDict: seq<ResolvedImport>)
      ensures this.path == path && this.content == content && this.syntax == syntax
      ensures position == (syntax.start, syntax.end)
      ensures this.importDict == importDict && children == []
    {
      this.path := path;
      this.content := content;
      this.syntax := syntax;
      position := (syntax.start, syntax.end);
      this.importDict := importDict;
      children := [];
    }
  }

  /** `ImportNode(path, content, node, repo_graph)`: the statement is
      resolved on construction; a failing resolution raises out of it. */
  method NewImportNode(path: string, content: string, syntax: Node, fs: FileSystem, parse: Parser,
                       graph: Graph, exts: seq<string>) returns (r: Result<ImportNode>)
    ensures r.Err? <==> Analyze([syntax], path, fs, parse, graph, exts).Err?
    ensures r.Ok? ==> fresh(r.value) && r.value.children == []
    ensures r.Ok? ==> r.value.path == path && r.value.content == content && r.value.syntax == syntax
    ensures r.Ok? ==> r.value.position == (syntax.start, syntax.end)
    ensures r.Ok? ==> Ok(r.value.importDict) == Analyze([syntax], path, fs, parse, graph, exts)
  {
    var importDict := ImportAnalyze([syntax], path, fs, parse, graph, exts);
    if importDict.Err? {
      return Err(importDict.error);
    }
    var node := new ImportNode(path, content, syntax, importDict.value);
    r := Ok(node);
  }

  /** `ModuleNode`: a module file with its functions and imports. */
  class ModuleNode {
    const path: string
    var functionList: seq<FunctionNode>
    var importList: seq<ImportNode>

    constructor (path: string)
      ensures this.path == path && functionList == [] && importList == []
    {
      this.path := path;
      functionList := [];
      importList := [];
    }
  }
}
