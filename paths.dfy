/** The two `os.path` operations the resolver uses, as POSIX `posixpath`
    defines them, on plain strings. */
module Paths {
  import opened Common

  /** True when every character of `s` is '/'. */
  predicate AllSlashes(s: string)
  {
    forall i :: 0 <= i < |s| ==> s[i] == '/'
  }

  /** The index just after the last '/' in `s`, or 0 (`s.rfind('/') + 1`). */
  function AfterLastSlash(s: string): (i: nat)
    ensures i <= |s|
    ensures i > 0 ==> s[i - 1] == '/'
    ensures forall j :: i <= j < |s| ==> s[j] != '/'
  {
    if s == [] then 0
    else if s[|s| - 1] == '/' then |s|
    else AfterLastSlash(s[..|s| - 1])
  }

  /** `s.rstrip('/')`. */
  function StripTrailingSlashes(s: string): (r: string)
    ensures r <= s
    ensures r == [] || r[|r| - 1] != '/'
    ensures AllSlashes(s[|r|..])
  {
    if s == [] || s[|s| - 1] != '/' then s
    else StripTrailingSlashes(s[..|s| - 1])
  }

  /** `os.path.dirname`: everything before the last '/', with trailing
      slashes removed unless the head consists of slashes only. */
  function DirName(p: string): string
  {
    var head := p[..AfterLastSlash(p)];
    if head != [] && !AllSlashes(head) then StripTrailingSlashes(head) else head
  }

  /** `os.path.join(a, b)`: an absolute `b` replaces `a`; otherwise `b` is
      appended, with a '/' between unless `a` is empty or ends in one. */
  function PathJoin(a: string, b: string): string
  {
    if StartsWith(b, "/") then b
    else if a == [] || EndsWith(a, "/") then a + b
    else a + "/" + b
  }

  /** `dirname` undoes `join` of a directory and a plain entry name: this is
      what lets the resolver walk from a file back up to its package. */
  lemma DirNameOfJoin(dir: string, name: string)
    requires dir != [] && dir[|dir| - 1] != '/'
    requires forall i :: 0 <= i < |name| ==> name[i] != '/'
    ensures DirName(PathJoin(dir, name)) == dir
  {
    var p := dir + "/" + name;
    assert !StartsWith(name, "/");
    assert !EndsWith(dir, "/");
    assert PathJoin(dir, name) == p;
    AfterLastSlashOfSuffix(dir + "/", name);
    assert p[..|dir| + 1] == dir + "/";
    assert !AllSlashes(dir + "/") by { assert (dir + "/")[|dir| - 1] != '/'; }
    assert StripTrailingSlashes(dir + "/") == StripTrailingSlashes(dir);
  }

  lemma AfterLastSlashOfSuffix(head: string, tail: string)
    requires head != [] && head[|head| - 1] == '/'
    requires forall i :: 0 <= i < |tail| ==> tail[i] != '/'
    ensures AfterLastSlash(head + tail) == |head|
    decreases |tail|
  {
    if tail == [] {
      assert head + tail == head;
    } else {
      assert (head + tail)[..|head + tail| - 1] == head + tail[..|tail| - 1];
      AfterLastSlashOfSuffix(head, tail[..|tail| - 1]);
    }
  }

  /** A join is empty only when both parts are. */
  lemma PathJoinEmpty(a: string, b: string)
    ensures PathJoin(a, b) == [] <==> a == [] && b == []
  {
  }
}
