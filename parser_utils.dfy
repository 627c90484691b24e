/** The import-statement reader and the line/span text surgery of
    `src/pycall/utils/parser_utils.py`. */
module ParserUtils {
  import opened Common
  import opened TextUtils
  import opened SyntaxTree

  // ---------------------------------------------------------------------
  // parse_import
  // ---------------------------------------------------------------------

  /** One imported name: the `package` after `from` (None for a plain
      `import`), the imported `moduleName` text, the `name` it is bound to, and
      the reconstructed `import_text`. */
  datatype ImportDetail = ImportDetail(package: Option<string>, moduleName: string, name: string, importText: string)

  /** The node kinds the source asserts may follow `from`. */
  const PackageKinds: set<string> := {"dotted_name", "__future__", "relative_import"}

  /** The node kinds collected after `import`. */
  const ModuleKinds: set<string> := {"dotted_name", "aliased_import"}

  /** Child `j` directly follows a `from` keyword and is not one itself: it
      names the package. */
  predicate PackageSlot(cs: seq<Node>, j: int)
    requires 0 <= j < |cs|
  {
    j > 0 && cs[j - 1].kind == "from" && cs[j].kind != "from"
  }

  /** The kind of the last `from` or `import` keyword before index `i`, or
      "" when there is none. */
  function LastKeyword(cs: seq<Node>, i: int): string
    requires 0 <= i <= |cs|
  {
    if i == 0 then ""
    else if cs[i - 1].kind == "from" || cs[i - 1].kind == "import" then cs[i - 1].kind
    else LastKeyword(cs, i - 1)
  }

  /** Child `j` is an imported module: a dotted or aliased name that does
      not name the package and whose nearest keyword to the left is `import`. */
  predicate ModuleSlot(cs: seq<Node>, j: int)
    requires 0 <= j < |cs|
  {
    cs[j].kind in ModuleKinds && !PackageSlot(cs, j) && LastKeyword(cs, j) == "import"
  }

  /** The module children among the first `i`, in order. */
  function ModulesBefore(cs: seq<Node>, i: int): seq<Node>
    requires 0 <= i <= |cs|
  {
    if i == 0 then []
    else ModulesBefore(cs, i - 1) + (if ModuleSlot(cs, i - 1) then [cs[i - 1]] else [])
  }

  /** The text of the last package child among the first `i`. */
  function PackageBefore(cs: seq<Node>, i: int): Option<string>
    requires 0 <= i <= |cs|
  {
    if i == 0 then None
    else if PackageSlot(cs, i - 1) then Some(cs[i - 1].text)
    else PackageBefore(cs, i - 1)
  }

  /** Among the first `i` children, one follows `from` without being a
      package name: the source's `assert` fails there. */
  predicate BadPackageBefore(cs: seq<Node>, i: int)
    requires 0 <= i <= |cs|
  {
    exists j :: 0 <= j < i && PackageSlot(cs, j) && cs[j].kind !in PackageKinds
  }

  function ImportPrefix(package: Option<string>, moduleName: string): string
  {
    if package.Some? then "from " + package.value + " import " + moduleName else "import " + moduleName
  }

  /** The record for one module child. An aliased child is split at " as "
      into exactly two stripped parts (else the unpacking fails); an empty
      alias is falsy, so the name falls back to the module. */
  function Detail(package: Option<string>, m: Node): (r: Result<ImportDetail>)
    ensures r.Ok? ==> r.value.package == package
    ensures m.kind != "aliased_import" ==> r.Ok? && r.value.moduleName == r.value.name == m.text
  {
    if m.kind == "aliased_import" then
      var parts := Split(m.text, " as ");
      if |parts| != 2 then Err(BadUnpack)
      else
        var moduleName, alias := Strip(parts[0]), Strip(parts[1]);
        Ok(ImportDetail(package, moduleName, if alias != [] then alias else moduleName,
                        ImportPrefix(package, moduleName) + " as " + alias))
    else
      Ok(ImportDetail(package, m.text, m.text, ImportPrefix(package, m.text)))
  }

  /** The records for `ms`, or the first failure. */
  function DetailsOf(package: Option<string>, ms: seq<Node>): Result<seq<ImportDetail>>
  {
    MapAll(ms, (m: Node) => Detail(package, m))
  }

  /** What `parse_import` gives for `node`: the failed assertion when a
      `from` is followed by an unexpected kind, else the records of its
      module children. */
  function ImportDetailsOf(node: Node): Result<seq<ImportDetail>>
  {
    var cs := node.children;
    if BadPackageBefore(cs, |cs|) then Err(AssertionFailed)
    else DetailsOf(PackageBefore(cs, |cs|), ModulesBefore(cs, |cs|))
  }

  /** `parse_import`: one pass over the children with the `package_start` and
      `module_start` flags, then one record per collected module child. */
  method ParseImport(node: Node) returns (r: Result<seq<ImportDetail>>)
    ensures r == ImportDetailsOf(node)
  {
    var cs := node.children;
    var moduleNodes: seq<Node> := [];
    var package: Option<string> := None;
    var packageStart, moduleStart := false, false;
    var i := 0;
    while i < |cs|
      invariant 0 <= i <= |cs|
      invariant !BadPackageBefore(cs, i)
      invariant packageStart == (i > 0 && cs[i - 1].kind == "from")
      invariant moduleStart == (LastKeyword(cs, i) == "import")
      invariant package == PackageBefore(cs, i)
      invariant moduleNodes == ModulesBefore(cs, i)
    {
      var child := cs[i];
      if child.kind == "from" {
        packageStart := true;
        moduleStart := false;
      } else if packageStart {
        if child.kind !in PackageKinds {
          assert PackageSlot(cs, i);
          return Err(AssertionFailed);
        }
        package := Some(child.text);
        packageStart := false;
      } else if child.kind == "import" {
        moduleStart := true;
      } else if moduleStart && child.kind in ModuleKinds {
        moduleNodes := moduleNodes + [child];
      }
      i := i + 1;
    }
    r := CollectAll(moduleNodes, (m: Node) => Detail(package, m));
  }

  /** For a well-formed alias (an import of `m` bound to `a`, both free of
      white space), the record keeps the module, binds the alias and
      reconstructs the text "... m as a". */
  lemma AliasedDetail(package: Option<string>, m: string, a: string, n: Node)
    requires m != [] && a != [] && HasNoSpace(m) && HasNoSpace(a)
    requires n.kind == "aliased_import" && n.text == m + " as " + a
    ensures Detail(package, n) == Ok(ImportDetail(package, m, a, ImportPrefix(package, m) + " as " + a))
  {
    SplitAliased(m, a);
    StripNoSpace(m);
    StripNoSpace(a);
  }

  /** Splitting "m as a" at " as " gives the two words when neither has a space. */
  lemma SplitAliased(m: string, a: string)
    requires HasNoSpace(m) && HasNoSpace(a)
    ensures Split(m + " as " + a, " as ") == [m, a]
  {
    var t := m + " as " + a;
    AsAfterWord(m, a);
    NoAsInWord(a);
    assert t[..|m|] == m && t[|m| + 4..] == a;
    assert Split(a, " as ") == [a];
  }

  /** The first " as " in `m + " as " + a` follows `m` when `m` has no space. */
  lemma AsAfterWord(m: string, a: string)
    requires HasNoSpace(m)
    ensures IndexOf(m + " as " + a, " as ") == Some(|m|)
  {
    var t := m + " as " + a;
    assert OccursAt(t, " as ", |m|) by { assert t[|m|..|m| + 4] == " as "; }
    forall j | 0 <= j < |m| ensures !OccursAt(t, " as ", j) {
      assert t[j..j + 4][0] == t[j] == m[j];
      assert !IsSpace(m[j]);
    }
  }

  /** A word without spaces holds no " as ". */
  lemma NoAsInWord(a: string)
    requires HasNoSpace(a)
    ensures IndexOf(a, " as ") == None
  {
    forall j | 0 <= j <= |a| - 4 ensures !OccursAt(a, " as ", j) {
      assert a[j..j + 4][0] == a[j];
      assert !IsSpace(a[j]);
    }
  }

  lemma StripNoSpace(w: string)
    requires w != [] && HasNoSpace(w)
    ensures Strip(w) == w
  {
  }

  // ---------------------------------------------------------------------
  // decorated_clean
  // ---------------------------------------------------------------------

  /** A line that `decorated_clean` keeps: its stripped text does not start with '@'. */
  predicate NotDecorator(line: string)
  {
    !StartsWith(Strip(line), "@")
  }

  /** The text `decorated_clean` returns: the lines that are not decorators,
      joined with "\n". */
  function CleanedText(content: string): string
  {
    Join("\n", Filter(SplitLines(content, IsStrLineBreak), NotDecorator))
  }

  /** `decorated_clean`: drops decorator lines and joins the rest with "\n". */
  method DecoratedClean(content: string) returns (r: string)
    ensures r == CleanedText(content)
  {
    var lines := SplitLines(content, IsStrLineBreak);
    var newLines := NonDecoratorLines(lines);
    r := Join("\n", newLines);
  }

  /** The line loop of `decorated_clean`, filling `new_lines`. */
  method NonDecoratorLines(lines: seq<string>) returns (newLines: seq<string>)
    ensures newLines == Filter(lines, NotDecorator)
  {
    newLines := [];
    var i := 0;
    while i < |lines|
      invariant 0 <= i <= |lines|
      invariant newLines == Filter(lines[..i], NotDecorator)
    {
      var kept := NotDecorator(lines[i]);
      FilterExtend(lines, i, NotDecorator, newLines, kept);
      if kept {
        newLines := newLines + [lines[i]];
      }
      i := i + 1;
    }
    assert lines[..i] == lines;
  }

  /** Splitting the cleaned text again gives exactly the non-decorator lines,
      unchanged and in order, provided the last of them is not empty (a
      trailing empty line does not survive the join). */
  lemma DecoratedCleanLines(content: string)
    requires var kept := Filter(SplitLines(content, IsStrLineBreak), NotDecorator);
             kept != [] ==> kept[|kept| - 1] != []
    ensures var kept := Filter(SplitLines(content, IsStrLineBreak), NotDecorator);
            SplitLines(CleanedText(content), IsStrLineBreak) == kept
            && forall x :: x in kept <==> x in SplitLines(content, IsStrLineBreak) && NotDecorator(x)
  {
    var lines := SplitLines(content, IsStrLineBreak);
    var kept := Filter(lines, NotDecorator);
    SplitLinesNoBreak(content, IsStrLineBreak);
    forall i | 0 <= i < |kept| ensures NoBreak(kept[i], IsStrLineBreak) {
      assert kept[i] in lines;
    }
    SplitLinesOfJoin(kept, IsStrLineBreak);
  }

  // ---------------------------------------------------------------------
  // map_line_to_id
  // ---------------------------------------------------------------------

  /** The offset at which line `i` starts when every line is followed by
      exactly one separator byte. */
  function LineStart(lines: seq<string>, i: nat): nat
    requires i <= |lines|
  {
    if i == 0 then 0 else LineStart(lines, i - 1) + |lines[i - 1]| + 1
  }

  /** `map_line_to_id`: line 0 maps to 0 and line `i` to the byte length of
      the first `i` lines joined by "\n", plus one. */
  method MapLineToId(content: string) returns (line2id: map<nat, nat>)
    ensures var lines := SplitLines(content, IsByteLineBreak);
      && (forall i: nat :: i in line2id <==> i < |lines|)
      && (forall i: nat {:trigger line2id[i]} :: i < |lines| ==> line2id[i] == LineStart(lines, i))
  {
    var lines := SplitLines(content, IsByteLineBreak);
    line2id := map[];
    var tmp: seq<string> := [];
    var lid := 0;
    while lid < |lines|
      invariant 0 <= lid <= |lines|
      invariant tmp == lines[..lid]
      invariant forall i: nat :: i in line2id <==> i < lid
      invariant forall i: nat {:trigger line2id[i]} :: i < lid ==> line2id[i] == LineStart(lines, i)
    {
      if lid == 0 {
        line2id := line2id[lid := 0];
      } else {
        var offset := |Join("\n", tmp)| + 1;
        JoinLength(lines, lid);
        line2id := line2id[lid := offset];
      }
      tmp := tmp + [lines[lid]];
      lid := lid + 1;
    }
  }

  /** The first `n` lines joined, plus one, is where line `n` starts. */
  lemma {:induction false} JoinLength(lines: seq<string>, n: nat)
    requires 0 < n <= |lines|
    ensures |Join("\n", lines[..n])| + 1 == LineStart(lines, n)
  {
    LineStartShift(lines, n - 1);
    if n > 1 {
      JoinLength(lines[1..], n - 1);
      assert lines[..n][1..] == lines[1..][..n - 1];
    }
  }

  /** Dropping the first line shifts every start by its length plus one. */
  lemma {:induction false} LineStartShift(lines: seq<string>, i: nat)
    requires 0 < |lines| && i < |lines|
    ensures LineStart(lines, i + 1) == |lines[0]| + 1 + LineStart(lines[1..], i)
  {
    if i > 0 {
      LineStartShift(lines, i - 1);
    }
  }

  /** `content` holds no carriage return, so "\n" is its only line break. */
  predicate NoCarriageReturn(content: string)
  {
    '\r' !in content
  }

  /** Line `i` of `lines` is found in `content` at `LineStart(lines, i)`. */
  predicate Locates(content: string, lines: seq<string>, i: nat)
    requires i < |lines|
  {
    LineStart(lines, i) + |lines[i]| <= |content|
    && content[LineStart(lines, i)..LineStart(lines, i) + |lines[i]|] == lines[i]
  }

  /** When "\n" is the only line break in `content`, the offset recorded for
      line `i` is exactly where that line's text sits in `content`. */
  lemma {:induction false} LineStartLocates(content: string, lines: seq<string>, i: nat)
    requires NoCarriageReturn(content) && lines == SplitLines(content, IsByteLineBreak)
    requires i < |lines|
    ensures Locates(content, lines, i)
    decreases |content|
  {
    var k := BreakIndex(content, IsByteLineBreak);
    if content == [] {
      assert false;
    } else if k == |content| {
      SplitWithoutBreak(content);
      SliceFromZero(content, |content|);
    } else {
      var rest := content[k + 1..];
      var tail := SplitLines(rest, IsByteLineBreak);
      SplitAtNewline(content, k);
      assert lines == [content[..k]] + tail;
      if i == 0 {
        SliceFromZero(content, k);
      } else {
        assert |lines| == |tail| + 1;
        LineStartLocates(rest, tail, i - 1);
        LocatesAfterBreak(content, rest, k, lines, tail, i);
      }
    }
  }

  /** The induction step: line `i` of `[content[..k]] + tail` sits `k + 1`
      further on than line `i - 1` of `tail` sits in the text after the break. */
  lemma LocatesAfterBreak(content: string, rest: string, k: nat, lines: seq<string>, tail: seq<string>, i: nat)
    requires k < |content| && rest == content[k + 1..] && lines == [content[..k]] + tail
    requires 0 < i < |lines|
    requires Locates(rest, tail, i - 1)
    ensures Locates(content, lines, i)
  {
    var st, n := LineStart(tail, i - 1), |tail[i - 1]|;
    LineStartShift(lines, i - 1);
    assert lines[1..] == tail;
    assert LineStart(lines, i) == k + 1 + st;
    assert lines[i] == tail[i - 1];
    SliceOfSuffix(content, k + 1, st, n);
  }

  lemma SliceOfSuffix(c: string, d: nat, s: nat, n: nat)
    requires d + s + n <= |c|
    ensures c[d..][s..s + n] == c[d + s..d + s + n]
  {
  }

  /** Without carriage returns, the first break is a lone "\n". */
  lemma SplitWithoutBreak(content: string)
    requires content != [] && BreakIndex(content, IsByteLineBreak) == |content|
    ensures SplitLines(content, IsByteLineBreak) == [content]
  {
  }

  lemma SliceFromZero(s: string, k: nat)
    requires k <= |s|
    ensures s[0..k] == s[..k]
  {
  }

  lemma SplitAtNewline(content: string, k: nat)
    requires NoCarriageReturn(content)
    requires k == BreakIndex(content, IsByteLineBreak) && k < |content|
    ensures SplitLines(content, IsByteLineBreak) == [content[..k]] + SplitLines(content[k + 1..], IsByteLineBreak)
  {
    assert content[k] != '\r' by { assert content[k] in content; }
    SplitLinesAtBreak(content, IsByteLineBreak, k);
  }

  // ---------------------------------------------------------------------
  // remove_content
  // ---------------------------------------------------------------------

  /** Python's `content[a:b]` for non-negative bounds: both are clipped to
      the length, and a reversed range is empty. */
  function Slice(content: string, a: nat, b: nat): string
  {
    var lo := Min(a, |content|);
    content[lo..Max(lo, Min(b, |content|))]
  }

  function Min(a: nat, b: nat): nat
  {
    if a < b then a else b
  }

  function Max(a: nat, b: nat): nat
  {
    if a < b then b else a
  }

  /** The byte offset of a point, or None when its row has no entry in the
      line map (a KeyError). */
  function Offset(lines: seq<string>, p: Point): Option<nat>
  {
    if p.row < |lines| then Some(LineStart(lines, p.row) + p.column) else None
  }

  /** The spans as (start, end) byte offsets, or None if a row is unknown. */
  function SpanOffsets(lines: seq<string>, spans: seq<(Point, Point)>): (r: Option<seq<(nat, nat)>>)
  {
    if spans == [] then Some([])
    else
      var s, e, rest := Offset(lines, spans[0].0), Offset(lines, spans[0].1), SpanOffsets(lines, spans[1..]);
      if s.None? || e.None? || rest.None? then None
      else Some([(s.value, e.value)] + rest.value)
  }

  /** The pieces `remove_content` keeps, from offset `from` on: up to the
      next span's start, then from that span's end, and so on to the end. */
  function Gaps(content: string, from: nat, offs: seq<(nat, nat)>): string
    decreases |offs|
  {
    if offs == [] then Slice(content, from, |content|)
    else Slice(content, from, offs[0].0) + Gaps(content, offs[0].1, offs[1..])
  }

  /** `remove_content`: the text with the given (start, end) spans cut out. */
  method RemoveContent(content: string, rmPosition: seq<(Point, Point)>) returns (r: Result<string>)
    ensures var offs := SpanOffsets(SplitLines(content, IsByteLineBreak), rmPosition);
      && (offs.None? ==> r == Err(MissingKey))
      && (offs.Some? ==> r == Ok(Gaps(content, 0, offs.value)))
  {
    ghost var lines := SplitLines(content, IsByteLineBreak);
    var line2id := MapLineToId(content);
    var positions := SpanPositions(line2id, rmPosition, lines);
    if positions.None? {
      return Err(MissingKey);
    }
    var newRmPosition := positions.value + [|content|];
    ghost var offs := SpanOffsets(lines, rmPosition).value;
    EvenPositions(offs, |content|);
    var newContent := KeepGaps(content, newRmPosition);
    GapsOfAllPositions(content, offs);
    r := Ok(newContent);
  }

  /** The first half of `remove_content`: each span's two points become
      byte offsets through the line map, laid out after a leading 0; a row
      the map lacks raises KeyError (None here). */
  method SpanPositions(line2id: map<nat, nat>, rmPosition: seq<(Point, Point)>, ghost lines: seq<string>)
    returns (r: Option<seq<nat>>)
    requires forall i: nat :: i in line2id <==> i < |lines|
    requires forall i: nat {:trigger line2id[i]} :: i < |lines| ==> line2id[i] == LineStart(lines, i)
    ensures r.None? <==> SpanOffsets(lines, rmPosition).None?
    ensures r.Some? ==> r.value == Positions(SpanOffsets(lines, rmPosition).value)
  {
    var newRmPosition: seq<nat> := [0];
    ghost var offs: seq<(nat, nat)> := [];
    var k := 0;
    while k < |rmPosition|
      invariant 0 <= k <= |rmPosition|
      invariant SpanOffsets(lines, rmPosition[..k]) == Some(offs)
      invariant newRmPosition == Positions(offs)
    {
      SpanOffsetsSnoc(lines, rmPosition, k);
      var pos := rmPosition[k];
      if pos.0.row !in line2id || pos.1.row !in line2id {
        SpanOffsetsPrefix(lines, rmPosition, k + 1);
        return None;
      }
      var s, e := line2id[pos.0.row] + pos.0.column, line2id[pos.1.row] + pos.1.column;
      PrefixOfSnoc(offs, (s, e));
      newRmPosition := newRmPosition + [s, e];
      offs := offs + [(s, e)];
      k := k + 1;
    }
    WholePrefix(rmPosition);
    r := Some(newRmPosition);
  }

  /** The list `remove_content` builds: 0, then each span's start and end. */
  function Positions(offs: seq<(nat, nat)>): (r: seq<nat>)
    ensures |r| == 2 * |offs| + 1 && r[0] == 0
  {
    if offs == [] then [0]
    else Positions(offs[..|offs| - 1]) + [offs[|offs| - 1].0, offs[|offs| - 1].1]
  }

  lemma {:induction false} PositionsAt(offs: seq<(nat, nat)>, j: nat)
    requires j < |offs|
    ensures Positions(offs)[2 * j + 1] == offs[j].0 && Positions(offs)[2 * j + 2] == offs[j].1
    decreases |offs|
  {
    var init := offs[..|offs| - 1];
    if j < |init| {
      PositionsAt(init, j);
    } else if init != [] {
      PositionsAt(init, 0);
    }
  }

  /** The second half of `remove_content`: concatenates the text between
      each pair of positions, walking the list two at a time. */
  method KeepGaps(content: string, positions: seq<nat>) returns (newContent: string)
    requires |positions| % 2 == 0
    ensures newContent == GapsAt(content, positions, 0)
  {
    newContent := [];
    var posId := 0;
    while posId < |positions|
      invariant 0 <= posId && posId % 2 == 0
      invariant newContent + GapsAt(content, positions, posId) == GapsAt(content, positions, 0)
    {
      newContent := newContent + Slice(content, positions[posId], positions[posId + 1]);
      posId := posId + 2;
    }
    assert newContent + [] == newContent;
  }

  /** What the loop over `positions` appends from index `i` on: the text
      between each pair `positions[i], positions[i + 1]`, then the next pair. */
  function GapsAt(content: string, positions: seq<nat>, i: nat): string
    decreases |positions| - i
  {
    if i + 1 >= |positions| then [] else Slice(content, positions[i], positions[i + 1]) + GapsAt(content, positions, i + 2)
  }

  lemma EvenPositions(offs: seq<(nat, nat)>, size: nat)
    ensures |Positions(offs) + [size]| % 2 == 0
  {
  }

  lemma GapsOfAllPositions(content: string, offs: seq<(nat, nat)>)
    ensures GapsAt(content, Positions(offs) + [|content|], 0) == Gaps(content, 0, offs)
  {
    GapsOfPositions(content, offs, 0);
    WholeSuffix(offs);
  }

  /** Walking the positions list two at a time yields the gaps between the
      spans. */
  lemma {:induction false} GapsOfPositions(content: string, offs: seq<(nat, nat)>, q: nat)
    requires q <= |offs|
    ensures var positions := Positions(offs) + [|content|];
      GapsAt(content, positions, 2 * q) == Gaps(content, positions[2 * q], offs[q..])
    decreases |offs| - q
  {
    var positions := Positions(offs) + [|content|];
    if q < |offs| {
      PositionsAt(offs, q);
      GapsOfPositions(content, offs, q + 1);
      var start := positions[2 * q];
      assert positions[2 * q + 1] == offs[q].0 && positions[2 * q + 2] == offs[q].1;
      assert offs[q..][0] == offs[q] && offs[q..][1..] == offs[q + 1..];
      assert Gaps(content, start, offs[q..]) == Slice(content, start, offs[q].0) + Gaps(content, offs[q].1, offs[q + 1..]);
      assert GapsAt(content, positions, 2 * q) == Slice(content, start, offs[q].0) + GapsAt(content, positions, 2 * q + 2);
    } else {
      assert offs[q..] == [];
    }
  }

  /** Adds one resolved span to the offsets so far; unresolved stays unresolved. */
  function AppendSpan(acc: Option<seq<(nat, nat)>>, s: Option<nat>, e: Option<nat>): Option<seq<(nat, nat)>>
  {
    if acc.Some? && s.Some? && e.Some? then Some(acc.value + [(s.value, e.value)]) else None
  }

  lemma {:induction false} SpanOffsetsSnoc(lines: seq<string>, spans: seq<(Point, Point)>, k: nat)
    requires k < |spans|
    ensures SpanOffsets(lines, spans[..k + 1])
      == AppendSpan(SpanOffsets(lines, spans[..k]), Offset(lines, spans[k].0), Offset(lines, spans[k].1))
  {
    if k > 0 {
      assert spans[..k][0] == spans[..k + 1][0] == spans[0];
      assert spans[..k][1..] == spans[1..][..k - 1];
      assert spans[..k + 1][1..] == spans[1..][..k];
      assert spans[1..][k - 1] == spans[k];
      SpanOffsetsSnoc(lines, spans[1..], k - 1);
      var s0, e0 := Offset(lines, spans[0].0), Offset(lines, spans[0].1);
      var inner := SpanOffsets(lines, spans[1..][..k - 1]);
      var s, e := Offset(lines, spans[k].0), Offset(lines, spans[k].1);
      if s0.Some? && e0.Some? && inner.Some? && s.Some? && e.Some? {
        var x, y := [(s0.value, e0.value)], [(s.value, e.value)];
        assert x + (inner.value + y) == (x + inner.value) + y;
      }
    } else {
      assert spans[..0] == [] && spans[..1] == [spans[0]] && spans[..1][1..] == [];
      var s, e := Offset(lines, spans[0].0), Offset(lines, spans[0].1);
      if s.Some? && e.Some? {
        assert [(s.value, e.value)] + [] == [] + [(s.value, e.value)];
      }
    }
  }

  lemma {:induction false} SpanOffsetsPrefix(lines: seq<string>, spans: seq<(Point, Point)>, k: nat)
    requires k <= |spans|
    requires SpanOffsets(lines, spans[..k]).None?
    ensures SpanOffsets(lines, spans).None?
  {
    assert k > 0;
    assert spans[..k][0] == spans[0];
    if SpanOffsets(lines, spans[..k][1..]).None? {
      assert spans[..k][1..] == spans[1..][..k - 1];
      SpanOffsetsPrefix(lines, spans[1..], k - 1);
    }
  }

  /** Every span is resolved exactly when all of their rows are lines of
      the text; the offsets come one per span. */
  lemma {:induction false} SpanOffsetsDefined(lines: seq<string>, spans: seq<(Point, Point)>)
    ensures var r := SpanOffsets(lines, spans);
      && (r.Some? <==> forall k :: 0 <= k < |spans| ==> spans[k].0.row < |lines| && spans[k].1.row < |lines|)
      && (r.Some? ==> |r.value| == |spans|)
  {
    if spans != [] {
      SpanOffsetsDefined(lines, spans[1..]);
      assert forall k :: 1 <= k < |spans| ==> spans[k] == spans[1..][k - 1];
    }
  }

  /** Position `p` lies inside one of the removed spans. */
  predicate Covered(offs: seq<(nat, nat)>, p: nat)
  {
    exists k :: 0 <= k < |offs| && offs[k].0 <= p < offs[k].1
  }

  /** The characters from position `p` on that lie outside every span. */
  function Outside(content: string, p: nat, offs: seq<(nat, nat)>): string
    decreases |content| - p
  {
    if p >= |content| then []
    else (if Covered(offs, p) then [] else [content[p]]) + Outside(content, p + 1, offs)
  }

  /** The spans are in ascending order, do not overlap, start at or after
      `from` and end within the text. */
  predicate Ascending(from: nat, offs: seq<(nat, nat)>, size: nat)
    decreases |offs|
  {
    if offs == [] then from <= size
    else from <= offs[0].0 <= offs[0].1 && Ascending(offs[0].1, offs[1..], size)
  }

  /** `remove_content` keeps, in order, exactly the characters outside the
      removed spans, when those are ascending and non-overlapping. */
  lemma {:induction false} RemoveContentKeepsOutside(content: string, from: nat, offs: seq<(nat, nat)>)
    requires Ascending(from, offs, |content|)
    ensures Gaps(content, from, offs) == Outside(content, from, offs)
    decreases |offs|
  {
    if offs == [] {
      OutsideUncovered(content, from, |content|, offs);
    } else {
      var s, e := offs[0].0, offs[0].1;
      AscendingBounds(e, offs[1..], |content|);
      OutsideUncovered(content, from, s, offs);
      OutsideCovered(content, s, e, offs);
      OutsideDropSpan(content, e, offs);
      RemoveContentKeepsOutside(content, e, offs[1..]);
    }
  }

  lemma {:induction false} AscendingBounds(from: nat, offs: seq<(nat, nat)>, size: nat)
    requires Ascending(from, offs, size)
    ensures from <= size
    ensures forall k :: 0 <= k < |offs| ==> from <= offs[k].0 <= offs[k].1 <= size
    decreases |offs|
  {
    if offs != [] {
      AscendingBounds(offs[0].1, offs[1..], size);
      assert forall k :: 1 <= k < |offs| ==> offs[k] == offs[1..][k - 1];
    }
  }

  lemma {:induction false} OutsideUncovered(content: string, a: nat, b: nat, offs: seq<(nat, nat)>)
    requires a <= b <= |content|
    requires forall p :: a <= p < b ==> !Covered(offs, p)
    ensures Outside(content, a, offs) == content[a..b] + Outside(content, b, offs)
    decreases b - a
  {
    if a < b {
      OutsideUncovered(content, a + 1, b, offs);
      OutsideStep(content, a, offs);
      assert !Covered(offs, a);
      assert content[a..b] == [content[a]] + content[a + 1..b];
      AppendAssoc([content[a]], content[a + 1..b], Outside(content, b, offs));
    }
  }

  lemma OutsideStep(content: string, p: nat, offs: seq<(nat, nat)>)
    requires p < |content|
    ensures Outside(content, p, offs) == (if Covered(offs, p) then [] else [content[p]]) + Outside(content, p + 1, offs)
  {
  }

  lemma {:induction false} OutsideCovered(content: string, a: nat, b: nat, offs: seq<(nat, nat)>)
    requires a <= b
    requires forall p :: a <= p < b ==> Covered(offs, p)
    ensures Outside(content, a, offs) == Outside(content, b, offs)
    decreases b - a
  {
    if a < b {
      OutsideCovered(content, a + 1, b, offs);
      if a < |content| {
        OutsideStep(content, a, offs);
        assert Covered(offs, a);
        assert [] + Outside(content, a + 1, offs) == Outside(content, a + 1, offs);
      }
    }
  }

  lemma {:induction false} OutsideDropSpan(content: string, p: nat, offs: seq<(nat, nat)>)
    requires offs != [] && offs[0].1 <= p
    ensures Outside(content, p, offs) == Outside(content, p, offs[1..])
    decreases |content| - p
  {
    if p < |content| {
      OutsideDropSpan(content, p + 1, offs);
      assert Covered(offs, p) <==> Covered(offs[1..], p) by {
        assert forall k :: 1 <= k < |offs| ==> offs[k] == offs[1..][k - 1];
        if Covered(offs, p) {
          var k :| 0 <= k < |offs| && offs[k].0 <= p < offs[k].1;
          assert k > 0;
          assert offs[1..][k - 1] == offs[k];
        }
      }
    }
  }
}
