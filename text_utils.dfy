/** The text helpers of `src/utils/utils.py` together with the Python string
    primitives they are built from (`str.split()`, `str.strip()`,
    `str.splitlines()`). */
module TextUtils {
  import opened Common

  /** Python's `str.isspace` for one character: the characters that
      `str.split()` and `str.strip()` treat as white space. */
  predicate IsSpace(c: char)
  {
    var n := c as int;
    || 9 <= n <= 13 || 28 <= n <= 32 || n == 0x85 || n == 0xA0 || n == 0x1680
    || 0x2000 <= n <= 0x200A || n == 0x2028 || n == 0x2029 || n == 0x202F
    || n == 0x205F || n == 0x3000
  }

  predicate HasNoSpace(w: string)
  {
    forall i :: 0 <= i < |w| ==> !IsSpace(w[i])
  }

  predicate HasNonSpace(s: string)
  {
    exists i :: 0 <= i < |s| && !IsSpace(s[i])
  }

  /** The length of the leading run of non-white-space characters. */
  function WordLength(s: string): (k: nat)
    ensures k <= |s|
    ensures HasNoSpace(s[..k])
    ensures k < |s| ==> IsSpace(s[k])
  {
    if s == [] || IsSpace(s[0]) then 0 else 1 + WordLength(s[1..])
  }

  /** Python's `str.split()` with no argument: the maximal runs of
      non-white-space characters, in order. */
  function Words(s: string): (ws: seq<string>)
    ensures forall i :: 0 <= i < |ws| ==> ws[i] != [] && HasNoSpace(ws[i])
    decreases |s|
  {
    if s == [] then []
    else if IsSpace(s[0]) then Words(s[1..])
    else
      var k := WordLength(s);
      [s[..k]] + Words(s[k..])
  }

  predicate NotSpace(c: char)
  {
    !IsSpace(c)
  }

  /** Nothing but white space is lost between a text and its words:
      `"".join(s.split())` is `s` with its white-space characters removed. */
  lemma {:induction false} WordsCoverText(s: string)
    ensures Join("", Words(s)) == Filter(s, NotSpace)
    decreases |s|
  {
    if s != [] {
      FilterCons(s, NotSpace);
      if IsSpace(s[0]) {
        WordsCoverText(s[1..]);
      } else {
        var k := WordLength(s);
        WordsCoverText(s[k..]);
        FilterWord(s, k);
        var rest := Words(s[k..]);
        assert ([s[..k]] + rest)[1..] == rest;
        if rest == [] {
          assert Filter(s[k..], NotSpace) == [];
          assert s[..k] + [] == s[..k];
        }
      }
    }
  }

  /** A leading run without white space passes the filter whole. */
  lemma FilterWord(s: string, k: nat)
    requires k <= |s| && HasNoSpace(s[..k])
    ensures Filter(s, NotSpace) == s[..k] + Filter(s[k..], NotSpace)
  {
    var w := s[..k];
    forall i | 0 <= i < |w| ensures NotSpace(w[i]) {
      assert !IsSpace(w[i]);
    }
    FilterKeepsPrefix(w, s[k..], NotSpace);
    assert s == w + s[k..];
  }

  /** `fix_white_space`: the words of `string` joined by single spaces. */
  function FixWhiteSpace(s: string): (r: string)
  {
    Join(" ", Words(s))
  }

  /** A string that is its own normal form: no leading or trailing white
      space, and every white-space character is a lone ' ' between words. */
  predicate Normalised(r: string)
  {
    && (r != [] ==> !IsSpace(r[0]) && !IsSpace(r[|r| - 1]))
    && forall i :: 0 <= i < |r| && IsSpace(r[i]) ==> r[i] == ' ' && 0 < i < |r| - 1 && !IsSpace(r[i + 1])
  }

  /** `fix_white_space` keeps the words and their order, and its result has
      no leading, trailing or doubled white space. */
  lemma {:induction false} FixWhiteSpaceSpec(s: string)
    ensures Normalised(FixWhiteSpace(s))
    ensures Words(FixWhiteSpace(s)) == Words(s)
  {
    JoinWordsNormalised(Words(s));
    WordsOfJoin(Words(s));
  }

  /** "Remove redundant white space" is idempotent. */
  lemma FixWhiteSpaceIdempotent(s: string)
    ensures FixWhiteSpace(FixWhiteSpace(s)) == FixWhiteSpace(s)
  {
    FixWhiteSpaceSpec(s);
  }

  lemma {:induction false} JoinWordsNormalised(ws: seq<string>)
    requires forall i :: 0 <= i < |ws| ==> ws[i] != [] && HasNoSpace(ws[i])
    ensures Normalised(Join(" ", ws))
    ensures ws != [] ==> Join(" ", ws) != [] && Join(" ", ws)[0] == ws[0][0]
  {
    if |ws| > 1 {
      JoinWordsNormalised(ws[1..]);
      var t := Join(" ", ws[1..]);
      var r := ws[0] + " " + t;
      assert Join(" ", ws) == r;
      assert forall i :: 0 <= i < |ws[0]| ==> r[i] == ws[0][i];
      assert forall i :: |ws[0]| < i < |r| ==> r[i] == t[i - |ws[0]| - 1];
    }
  }

  lemma {:induction false} WordsOfJoin(ws: seq<string>)
    requires forall i :: 0 <= i < |ws| ==> ws[i] != [] && HasNoSpace(ws[i])
    ensures Words(Join(" ", ws)) == ws
  {
    if |ws| == 1 {
      WordsOfWord(ws[0], []);
      assert ws[0] + [] == ws[0];
    } else if |ws| > 1 {
      var t := Join(" ", ws[1..]);
      WordsOfWord(ws[0], " " + t);
      assert Words(" " + t) == Words(t) by { assert (" " + t)[1..] == t; }
      WordsOfJoin(ws[1..]);
      assert ws[0] + " " + t == ws[0] + (" " + t);
    }
  }

  /** A word followed by text that starts with white space (or nothing)
      splits into that word and the words of the rest. */
  lemma {:induction false} WordsOfWord(w: string, rest: string)
    requires w != [] && HasNoSpace(w)
    requires rest == [] || IsSpace(rest[0])
    ensures Words(w + rest) == [w] + Words(rest)
  {
    WordLengthOfWord(w, rest);
    assert (w + rest)[..|w|] == w;
    assert (w + rest)[|w|..] == rest;
  }

  lemma {:induction false} WordLengthOfWord(w: string, rest: string)
    requires HasNoSpace(w)
    requires rest == [] || IsSpace(rest[0])
    ensures WordLength(w + rest) == |w|
    decreases |w|
  {
    if w != [] {
      assert (w + rest)[1..] == w[1..] + rest;
      WordLengthOfWord(w[1..], rest);
    } else {
      assert w + rest == rest;
    }
  }

  /** Python's `str.strip()` with no argument. */
  function Strip(s: string): (r: string)
  {
    TrimEnd(TrimStart(s))
  }

  function TrimStart(s: string): (r: string)
    ensures r == [] || !IsSpace(r[0])
    ensures |r| <= |s| && r == s[|s| - |r|..]
    ensures forall j :: 0 <= j < |s| - |r| ==> IsSpace(s[j])
  {
    if s != [] && IsSpace(s[0]) then TrimStart(s[1..]) else s
  }

  function TrimEnd(s: string): (r: string)
    ensures r == [] || !IsSpace(r[|r| - 1])
    ensures r <= s && forall j :: |r| <= j < |s| ==> IsSpace(s[j])
  {
    if s != [] && IsSpace(s[|s| - 1]) then TrimEnd(s[..|s| - 1]) else s
  }

  /** A line survives `remove_empty_line` exactly when it has a character
      that is not white space. */
  lemma StripEmptyIff(s: string)
    ensures Strip(s) != [] <==> HasNonSpace(s)
  {
    var t := TrimStart(s);
    var k := |s| - |t|;
    if HasNonSpace(s) {
      var i :| 0 <= i < |s| && !IsSpace(s[i]);
      assert k <= i;
      assert t != [] && !IsSpace(t[0]);
      assert TrimEnd(t) != [];
    }
    if Strip(s) != [] {
      assert t != [] && s[k] == t[0];
    }
  }

  /** Python's `str.splitlines()` (or `bytes.splitlines()` with the
      narrower `isBreak`): a "\r\n" pair counts as one break, the break
      characters are dropped, and a final break does not start a new line. */
  function SplitLines(s: string, isBreak: char -> bool): (lines: seq<string>)
    decreases |s|
  {
    if s == [] then []
    else
      var k := BreakIndex(s, isBreak);
      if k == |s| then [s]
      else
        [s[..k]] + SplitLines(s[k + BreakWidth(s, k)..], isBreak)
  }

  /** How many characters the break at `k` takes: a "\r\n" pair is one break. */
  function BreakWidth(s: string, k: nat): (w: nat)
    requires k < |s|
    ensures w == 1 || w == 2
    ensures k + w <= |s|
  {
    if s[k] == '\r' && k + 1 < |s| && s[k + 1] == '\n' then 2 else 1
  }

  /** The index of the first line-break character, or `|s|`. */
  function BreakIndex(s: string, isBreak: char -> bool): (k: nat)
    ensures k <= |s|
    ensures forall j :: 0 <= j < k ==> !isBreak(s[j])
    ensures k < |s| ==> isBreak(s[k])
  {
    if s == [] || isBreak(s[0]) then 0 else 1 + BreakIndex(s[1..], isBreak)
  }

  /** A break other than '\r' ends the first line and is dropped alone. */
  lemma SplitLinesAtBreak(s: string, isBreak: char -> bool, k: nat)
    requires k == BreakIndex(s, isBreak) && k < |s| && s[k] != '\r'
    ensures SplitLines(s, isBreak) == [s[..k]] + SplitLines(s[k + 1..], isBreak)
  {
    SplitLinesUnfold(s, isBreak, k);
    assert BreakWidth(s, k) == 1;
  }

  lemma SplitLinesUnfold(s: string, isBreak: char -> bool, k: nat)
    requires k == BreakIndex(s, isBreak) && k < |s|
    ensures SplitLines(s, isBreak) == [s[..k]] + SplitLines(s[k + BreakWidth(s, k)..], isBreak)
  {
  }

  /** The line boundaries of `str.splitlines()`. */
  predicate IsStrLineBreak(c: char)
  {
    var n := c as int;
    10 <= n <= 13 || 28 <= n <= 30 || n == 0x85 || n == 0x2028 || n == 0x2029
  }

  /** The line boundaries of `bytes.splitlines()`. */
  predicate IsByteLineBreak(c: char)
  {
    c == '\n' || c == '\r'
  }

  predicate NoBreak(s: string, isBreak: char -> bool)
  {
    forall i :: 0 <= i < |s| ==> !isBreak(s[i])
  }

  /** Every line `SplitLines` returns is free of break characters. */
  lemma {:induction false} SplitLinesNoBreak(s: string, isBreak: char -> bool)
    ensures forall i :: 0 <= i < |SplitLines(s, isBreak)| ==> NoBreak(SplitLines(s, isBreak)[i], isBreak)
    decreases |s|
  {
    if s != [] {
      var k := BreakIndex(s, isBreak);
      if k < |s| {
        SplitLinesNoBreak(s[k + BreakWidth(s, k)..], isBreak);
      }
    }
  }

  /** Joining lines with "\n" and splitting again gives the lines back, as
      long as no line holds a break and the last line is not empty. */
  lemma {:induction false} SplitLinesOfJoin(lines: seq<string>, isBreak: char -> bool)
    requires isBreak('\n')
    requires forall i :: 0 <= i < |lines| ==> NoBreak(lines[i], isBreak)
    requires lines != [] ==> lines[|lines| - 1] != []
    ensures SplitLines(Join("\n", lines), isBreak) == lines
  {
    if |lines| == 1 {
      BreakIndexOfLine(lines[0], [], isBreak);
      assert lines[0] + [] == lines[0];
    } else if |lines| > 1 {
      var t := Join("\n", lines[1..]);
      var s := lines[0] + "\n" + t;
      assert Join("\n", lines) == s;
      BreakIndexOfLine(lines[0], "\n" + t, isBreak);
      assert s == lines[0] + ("\n" + t);
      var k := |lines[0]|;
      assert s[k] == '\n';
      assert s[..k] == lines[0];
      assert s[k + 1..] == t;
      SplitLinesOfJoin(lines[1..], isBreak);
      assert t != [] by { JoinNonEmpty(lines[1..]); }
    }
  }

  lemma {:induction false} JoinNonEmpty(lines: seq<string>)
    requires lines != [] && lines[|lines| - 1] != []
    ensures Join("\n", lines) != []
  {
    if |lines| > 1 {
      JoinNonEmpty(lines[1..]);
    }
  }

  lemma {:induction false} BreakIndexOfLine(line: string, rest: string, isBreak: char -> bool)
    requires NoBreak(line, isBreak)
    requires rest == [] || isBreak(rest[0])
    ensures BreakIndex(line + rest, isBreak) == |line|
    decreases |line|
  {
    if line != [] {
      assert (line + rest)[1..] == line[1..] + rest;
      BreakIndexOfLine(line[1..], rest, isBreak);
    } else {
      assert line + rest == rest;
    }
  }

  /** The lines `remove_empty_line` keeps: `[x for x in lines if x.strip()]`. */
  function NonEmptyLines(lines: seq<string>): (kept: seq<string>)
    ensures forall x :: x in kept <==> x in lines && HasNonSpace(x)
  {
    forall x ensures Strip(x) != [] <==> HasNonSpace(x) { StripEmptyIff(x); }
    Filter(lines, (x: string) => Strip(x) != [])
  }

  /** `remove_empty_line`. */
  function RemoveEmptyLine(s: string): (r: string)
  {
    Join("\n", NonEmptyLines(SplitLines(s, IsStrLineBreak)))
  }

  /** Splitting the result of `remove_empty_line` gives back exactly the
      lines of the input that hold a non-white-space character, unchanged
      and in their original order. */
  lemma RemoveEmptyLineSpec(s: string)
    ensures SplitLines(RemoveEmptyLine(s), IsStrLineBreak) == NonEmptyLines(SplitLines(s, IsStrLineBreak))
  {
    var lines := SplitLines(s, IsStrLineBreak);
    var kept := NonEmptyLines(lines);
    SplitLinesNoBreak(s, IsStrLineBreak);
    forall i | 0 <= i < |kept| ensures NoBreak(kept[i], IsStrLineBreak) && kept[i] != [] {
      assert kept[i] in lines;
    }
    SplitLinesOfJoin(kept, IsStrLineBreak);
  }

  /** `find_all_substring` for a pattern that matches one literal character
      (the only way the source uses it: the escaped parentheses of Node.py):
      the positions of that character, ascending. */
  function FindAllSubstring(c: char, s: string): (r: seq<nat>)
    ensures forall i, j :: 0 <= i < j < |r| ==> r[i] < r[j]
    ensures forall p :: p in r <==> 0 <= p < |s| && s[p] == c
  {
    FindFrom(c, s, 0)
  }

  function FindFrom(c: char, s: string, from: nat): (r: seq<nat>)
    requires from <= |s|
    ensures forall i, j :: 0 <= i < j < |r| ==> r[i] < r[j]
    ensures forall p :: p in r <==> from <= p < |s| && s[p] == c
    decreases |s| - from
  {
    if from == |s| then []
    else if s[from] == c then
      var rest := FindFrom(c, s, from + 1);
      assert forall j :: 0 <= j < |rest| ==> rest[j] in rest;
      [from] + rest
    else FindFrom(c, s, from + 1)
  }
}
