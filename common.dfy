/** Small shared vocabulary: optional values, results, and the handful of
    Python `str` operations the dependency resolver relies on. */
module Common {

  datatype Option<+T> = None | Some(value: T)

  /** The exceptions the source raises, named by the Python exception class. */
  datatype Error =
    | AssertionFailed   // a failed `assert`
    | BadUnpack         // `a, b = xs` with `len(xs) != 2`
    | IndexOutOfRange   // IndexError
    | MissingKey        // KeyError
    | NotADict          // indexing a list with a string (TypeError)
    | NotReadable       // `open` failed (missing file, a directory, ...)
    | MissingAttribute  // AttributeError

  datatype Result<+T> = Ok(value: T) | Err(error: Error)

  /** Python's `str.startswith`. */
  predicate StartsWith(s: string, prefix: string)
  {
    |prefix| <= |s| && s[..|prefix|] == prefix
  }

  /** Python's `str.endswith`. */
  predicate EndsWith(s: string, suffix: string)
  {
    |suffix| <= |s| && s[|s| - |suffix|..] == suffix
  }

  /** `needle` occurs in `haystack` starting at index `i`. */
  predicate OccursAt(haystack: string, needle: string, i: int)
  {
    0 <= i <= |haystack| - |needle| && haystack[i..i + |needle|] == needle
  }

  /** Python's `needle in haystack` on strings. */
  predicate Contains(haystack: string, needle: string)
  {
    exists i :: 0 <= i <= |haystack| - |needle| && OccursAt(haystack, needle, i)
  }

  /** Python's `str.endswith(tuple)`. */
  predicate EndsWithAny(s: string, suffixes: seq<string>)
  {
    exists k :: 0 <= k < |suffixes| && EndsWith(s, suffixes[k])
  }

  /** Python's `str.startswith(tuple)`. */
  predicate StartsWithAny(s: string, prefixes: seq<string>)
  {
    exists k :: 0 <= k < |prefixes| && StartsWith(s, prefixes[k])
  }

  /** The index of the first occurrence of `sep` in `s`, as `str.find` gives it. */
  function IndexOf(s: string, sep: string): (r: Option<nat>)
    requires sep != []
    ensures r.Some? ==> OccursAt(s, sep, r.value)
    ensures r.Some? ==> forall j :: 0 <= j < r.value ==> !OccursAt(s, sep, j)
    ensures r.None? ==> forall j :: !OccursAt(s, sep, j)
    decreases |s|
  {
    if |s| < |sep| then None
    else if s[..|sep|] == sep then Some(0)
    else
      var rest := IndexOf(s[1..], sep);
      assert forall j :: 1 <= j ==> (OccursAt(s, sep, j) <==> OccursAt(s[1..], sep, j - 1)) by {
        forall j | 1 <= j ensures OccursAt(s, sep, j) <==> OccursAt(s[1..], sep, j - 1) {
          if 1 <= j <= |s| - |sep| {
            SliceOfTail(s, j, |sep|);
          }
        }
      }
      if rest.None? then None else Some(rest.value + 1)
  }

  lemma SliceOfTail<T>(s: seq<T>, j: nat, n: nat)
    requires 1 <= j && j + n <= |s|
    ensures s[j..j + n] == s[1..][j - 1..j - 1 + n]
  {
  }

  /** Python's `str.split(sep)` for a non-empty separator: the pieces between
      non-overlapping occurrences of `sep`, scanned left to right. */
  function Split(s: string, sep: string): (r: seq<string>)
    requires sep != []
    ensures |r| >= 1
    decreases |s|
  {
    match IndexOf(s, sep)
    case None => [s]
    case Some(i) => [s[..i]] + Split(s[i + |sep|..], sep)
  }

  /** Python's `sep.join(parts)`. */
  function Join(sep: string, parts: seq<string>): string
  {
    if |parts| == 0 then []
    else if |parts| == 1 then parts[0]
    else parts[0] + sep + Join(sep, parts[1..])
  }

  /** Python's `str.replace(from, to)` for single characters. */
  function ReplaceChar(s: string, from: char, to: char): (r: string)
    ensures |r| == |s|
    ensures forall i :: 0 <= i < |s| ==> r[i] == if s[i] == from then to else s[i]
  {
    seq(|s|, i requires 0 <= i < |s| => if s[i] == from then to else s[i])
  }

  /** Taking all of a sequence gives it back. */
  lemma WholePrefix<T>(s: seq<T>)
    ensures s[..|s|] == s
  {
  }

  lemma WholeSuffix<T>(s: seq<T>)
    ensures s[0..] == s
  {
  }

  lemma AppendAssoc<T>(a: seq<T>, b: seq<T>, c: seq<T>)
    ensures a + (b + c) == (a + b) + c
  {
  }

  lemma PrefixOfSnoc<T>(s: seq<T>, x: T)
    ensures (s + [x])[..|s|] == s
  {
  }

  /** `xs` holds no element twice. */
  predicate NoDuplicates<T(==)>(xs: seq<T>)
  {
    forall i, j :: 0 <= i < j < |xs| ==> xs[i] != xs[j]
  }

  /** `a` is `b` with some elements left out and the rest kept in order. */
  predicate Subsequence<T(==)>(a: seq<T>, b: seq<T>)
    decreases |b|
  {
    if a == [] then true
    else if b == [] then false
    else if a[0] == b[0] then Subsequence(a[1..], b[1..])
    else Subsequence(a, b[1..])
  }

  /** A list comprehension `[x for x in xs if keep(x)]`: the kept elements,
      each as often as in `xs`, in their original order. */
  function Filter<T(==,!new)>(xs: seq<T>, keep: T -> bool): (r: seq<T>)
    ensures forall x :: x in r <==> x in xs && keep(x)
  {
    if xs == [] then []
    else
      var rest := Filter(xs[1..], keep);
      assert xs == [xs[0]] + xs[1..];
      if keep(xs[0]) then [xs[0]] + rest else rest
  }

  lemma FilterCons<T(!new)>(xs: seq<T>, keep: T -> bool)
    requires xs != []
    ensures Filter(xs, keep) == (if keep(xs[0]) then [xs[0]] else []) + Filter(xs[1..], keep)
  {
    if !keep(xs[0]) {
      assert [] + Filter(xs[1..], keep) == Filter(xs[1..], keep);
    }
  }

  /** A prefix whose every element is kept passes the comprehension whole. */
  lemma {:induction false} FilterKeepsPrefix<T(!new)>(w: seq<T>, rest: seq<T>, keep: T -> bool)
    requires forall i :: 0 <= i < |w| ==> keep(w[i])
    ensures Filter(w + rest, keep) == w + Filter(rest, keep)
    decreases |w|
  {
    if w == [] {
      assert w + rest == rest;
    } else {
      var t, tail := w + rest, w[1..];
      forall i | 0 <= i < |tail| ensures keep(tail[i]) {
        assert tail[i] == w[i + 1];
      }
      calc {
        Filter(t, keep);
        { assert t[0] == w[0] && keep(w[0]); }
        [t[0]] + Filter(t[1..], keep);
        { assert t[1..] == tail + rest; FilterKeepsPrefix(tail, rest, keep); }
        [w[0]] + (tail + Filter(rest, keep));
        { assert w == [w[0]] + tail; }
        w + Filter(rest, keep);
      }
    }
  }

  /** A relation that holds pairwise between `xs` and the first `i`
      elements of `ys` still holds after both grow by one related pair. */
  lemma PairwiseSnoc<A, B>(xs: seq<A>, x: A, ys: seq<B>, i: nat, rel: (A, B) -> bool)
    requires i < |ys| && |xs| == i
    requires forall k :: 0 <= k < i ==> rel(xs[k], ys[..i][k])
    requires rel(x, ys[i])
    ensures forall k :: 0 <= k < i + 1 ==> rel((xs + [x])[k], ys[..i + 1][k])
  {
    forall k | 0 <= k < i + 1 ensures rel((xs + [x])[k], ys[..i + 1][k]) {
      if k < i {
        assert (xs + [x])[k] == xs[k] && ys[..i + 1][k] == ys[..i][k];
      }
    }
  }

  /** One step of the comprehension, as a loop over `xs` takes it. */
  lemma {:induction false} FilterStep<T(!new)>(xs: seq<T>, i: nat, keep: T -> bool)
    requires i < |xs|
    ensures Filter(xs[..i + 1], keep) == Filter(xs[..i], keep) + (if keep(xs[i]) then [xs[i]] else [])
  {
    if i > 0 {
      FilterStep(xs[1..], i - 1, keep);
      assert xs[..i + 1][1..] == xs[1..][..i];
      assert xs[..i][1..] == xs[1..][..i - 1];
    } else {
      assert xs[..1] == [xs[0]] && xs[..1][1..] == [];
    }
  }

  /** The loop form of `FilterStep`: appending the next element when it is
      kept extends the filtered prefix. */
  lemma FilterExtend<T(!new)>(xs: seq<T>, i: nat, keep: T -> bool, acc: seq<T>, kept: bool)
    requires i < |xs| && acc == Filter(xs[..i], keep) && kept == keep(xs[i])
    ensures (if kept then acc + [xs[i]] else acc) == Filter(xs[..i + 1], keep)
  {
    FilterStep(xs, i, keep);
  }

  /** The comprehension keeps every kept element as often as `xs` has it,
      drops the others entirely, and preserves the order. */
  lemma {:induction false} FilterKeeps<T(!new)>(xs: seq<T>, keep: T -> bool)
    ensures forall x :: multiset(Filter(xs, keep))[x] == if keep(x) then multiset(xs)[x] else 0
    ensures Subsequence(Filter(xs, keep), xs)
  {
    if xs != [] {
      FilterKeeps(xs[1..], keep);
      assert xs == [xs[0]] + xs[1..];
    }
  }

  /** Applies `f` to every element in order; the first failure is the
      outcome, as a loop that returns on the first error gives it. */
  function MapAll<A, B>(xs: seq<A>, f: A -> Result<B>): (r: Result<seq<B>>)
    ensures r.Ok? ==> |r.value| == |xs| && forall j :: 0 <= j < |xs| ==> f(xs[j]) == Ok(r.value[j])
  {
    if xs == [] then Ok([])
    else match f(xs[0])
      case Err(e) => Err(e)
      case Ok(y) =>
        var rest := MapAll(xs[1..], f);
        assert forall j :: 1 <= j < |xs| ==> xs[j] == xs[1..][j - 1];
        if rest.Err? then rest else Ok([y] + rest.value)
  }

  /** `MapAll` fails exactly when some element fails, and then with the
      error of the first failing element. */
  lemma {:induction false} MapAllFirstError<A, B>(xs: seq<A>, f: A -> Result<B>)
    ensures MapAll(xs, f).Err? <==> exists j :: 0 <= j < |xs| && f(xs[j]).Err?
    ensures MapAll(xs, f).Err? ==>
      exists j :: 0 <= j < |xs| && f(xs[j]) == Err(MapAll(xs, f).error) && forall i :: 0 <= i < j ==> f(xs[i]).Ok?
  {
    if xs != [] {
      MapAllFirstError(xs[1..], f);
      if f(xs[0]).Err? {
        assert f(xs[0]) == Err(MapAll(xs, f).error);
      } else if MapAll(xs, f).Err? {
        var j :| 0 <= j < |xs[1..]| && f(xs[1..][j]) == Err(MapAll(xs, f).error) && forall i :: 0 <= i < j ==> f(xs[1..][i]).Ok?;
        assert forall i :: 0 <= i < j + 1 ==> f(xs[i]).Ok? by {
          forall i | 0 <= i < j + 1 ensures f(xs[i]).Ok? {
            if i > 0 { assert xs[i] == xs[1..][i - 1]; }
          }
        }
        assert f(xs[j + 1]) == Err(MapAll(xs, f).error);
      } else {
        forall j | 0 <= j < |xs| ensures f(xs[j]).Ok? {
          if j > 0 { assert xs[j] == xs[1..][j - 1]; }
        }
      }
    }
  }

  /** When every element before `i` succeeds and `xs[i]` fails, `MapAll`
      fails with the error of `xs[i]`. */
  lemma MapAllFailsAt<A, B>(xs: seq<A>, f: A -> Result<B>, i: nat)
    requires i < |xs| && f(xs[i]).Err?
    requires forall k :: 0 <= k < i ==> f(xs[k]).Ok?
    ensures MapAll(xs, f) == Err(f(xs[i]).error)
  {
    MapAllFirstError(xs, f);
    var j :| 0 <= j < |xs| && f(xs[j]) == Err(MapAll(xs, f).error) && forall k :: 0 <= k < j ==> f(xs[k]).Ok?;
    assert !(j < i) && !(i < j);
  }

  /** When every element succeeds, so does `MapAll`. */
  lemma MapAllSucceeds<A, B>(xs: seq<A>, f: A -> Result<B>)
    requires forall k :: 0 <= k < |xs| ==> f(xs[k]).Ok?
    ensures MapAll(xs, f).Ok?
  {
    MapAllFirstError(xs, f);
  }

  /** The records `done` so far followed by the outcome for the rest. */
  function Chain<B>(done: seq<B>, rest: Result<seq<B>>): Result<seq<B>>
  {
    if rest.Ok? then Ok(done + rest.value) else rest
  }

  /** One step of a loop that applies `f` to `xs[k]` after collecting `done`. */
  lemma MapAllStep<A, B>(xs: seq<A>, f: A -> Result<B>, done: seq<B>, k: nat)
    requires k < |xs|
    ensures f(xs[k]).Err? ==> Chain(done, MapAll(xs[k..], f)) == Err(f(xs[k]).error)
    ensures f(xs[k]).Ok? ==> Chain(done, MapAll(xs[k..], f)) == Chain(done + [f(xs[k]).value], MapAll(xs[k + 1..], f))
  {
    assert xs[k..][0] == xs[k] && xs[k..][1..] == xs[k + 1..];
    var rest := MapAll(xs[k + 1..], f);
    if f(xs[k]).Ok? && rest.Ok? {
      assert done + ([f(xs[k]).value] + rest.value) == (done + [f(xs[k]).value]) + rest.value;
    }
  }

  /** The loop form of `MapAll`: records each result in order and returns
      on the first failure. */
  method CollectAll<A, B>(xs: seq<A>, f: A -> Result<B>) returns (r: Result<seq<B>>)
    ensures r == MapAll(xs, f)
  {
    assert xs[0..] == xs;
    var all := MapAll(xs, f);
    assert all.Ok? ==> [] + all.value == all.value;
    var done: seq<B> := [];
    var k := 0;
    while k < |xs|
      invariant 0 <= k <= |xs|
      invariant all == Chain(done, MapAll(xs[k..], f))
    {
      MapAllStep(xs, f, done, k);
      var y := f(xs[k]);
      if y.Err? {
        return Err(y.error);
      }
      done := done + [y.value];
      k := k + 1;
    }
    assert xs[k..] == [] && done + [] == done;
    r := Ok(done);
  }

  /** The concatenation of the sequences `f` gives for `xs`, in order, or
      the first failure. */
  function FlatMapAll<A, B>(xs: seq<A>, f: A -> Result<seq<B>>): Result<seq<B>>
  {
    if xs == [] then Ok([])
    else
      match f(xs[0])
      case Err(e) => Err(e)
      case Ok(ys) => Chain(ys, FlatMapAll(xs[1..], f))
  }

  /** One step of a loop that extends `done` with `f(xs[k])`, given as `y`. */
  lemma FlatMapAllStep<A, B>(xs: seq<A>, f: A -> Result<seq<B>>, done: seq<B>, k: nat, y: Result<seq<B>>)
    requires k < |xs| && y == f(xs[k])
    ensures y.Err? ==> Chain(done, FlatMapAll(xs[k..], f)) == Err(y.error)
    ensures y.Ok? ==> Chain(done, FlatMapAll(xs[k..], f)) == Chain(done + y.value, FlatMapAll(xs[k + 1..], f))
  {
    assert xs[k..][0] == xs[k] && xs[k..][1..] == xs[k + 1..];
    var rest := FlatMapAll(xs[k + 1..], f);
    if y.Ok? && rest.Ok? {
      AppendAssoc(done, y.value, rest.value);
    }
  }

  /** The union of `f(xs[k])` over the first `i` elements: a set that a loop
      over `xs` extends element by element. */
  function UnionUpTo<T, U>(xs: seq<T>, f: T -> set<U>, i: nat): set<U>
    requires i <= |xs|
  {
    if i == 0 then {} else UnionUpTo(xs, f, i - 1) + f(xs[i - 1])
  }

  /** One more step of the union. */
  lemma UnionUpToStep<T, U>(xs: seq<T>, f: T -> set<U>, i: nat, acc: set<U>, added: set<U>)
    requires i < |xs| && acc == UnionUpTo(xs, f, i) && added == f(xs[i])
    ensures acc + added == UnionUpTo(xs, f, i + 1)
  {
  }

  /** An element is in the union exactly when one of the sets holds it. */
  lemma {:induction false} UnionUpToMembers<T, U>(xs: seq<T>, f: T -> set<U>, i: nat)
    requires i <= |xs|
    ensures forall x :: x in UnionUpTo(xs, f, i) <==> exists k :: 0 <= k < i && x in f(xs[k])
  {
    if i > 0 {
      UnionUpToMembers(xs, f, i - 1);
    }
  }

  /** `{f(x) for x in xs}`. */
  function Image<T, U>(xs: seq<T>, f: T -> U): set<U>
  {
    set j | 0 <= j < |xs| :: f(xs[j])
  }
}
