/** The parts of Node's POSIX `path` module the backend uses (`extname`, `dirname`,
    `join`) and the last segment of `split('/')`. Paths are plain strings; `join`
    does not normalise `.` or `..` segments and trailing slashes are not stripped. */
module Paths {
  import opened Js

  /** The index of the last occurrence of `c` in `s`, if any. */
  function LastIndexOf(s: string, c: char): (r: Option<nat>)
    ensures r.Some? ==> r.value < |s| && s[r.value] == c
                        && forall i :: r.value < i < |s| ==> s[i] != c
    ensures r.None? ==> forall i :: 0 <= i < |s| ==> s[i] != c
  {
    if |s| == 0 then None
    else if s[|s| - 1] == c then Some(|s| - 1)
    else LastIndexOf(s[..|s| - 1], c)
  }

  /** The last element of `s.split('/')`: everything after the last slash. */
  function LastSegment(s: string): (r: string)
    ensures '/' !in r && |r| <= |s|
    ensures forall i :: 0 <= i < |r| ==> r[i] == s[|s| - |r| + i]
    ensures |r| == |s| || s[|s| - |r| - 1] == '/'
  {
    match LastIndexOf(s, '/')
    case None => s
    case Some(k) => s[k + 1..]
  }

  /** `path.extname(p)`: from the last dot of the last segment, unless that dot opens
      the segment or the segment is `..`. */
  function ExtName(p: string): (r: string)
    ensures r == "" || (r[0] == '.' && '/' !in r)
  {
    var base := LastSegment(p);
    match LastIndexOf(base, '.')
    case None => ""
    case Some(d) => if d == 0 || base == ".." then "" else base[d..]
  }

  /** `path.extname(p)` is the part of the last segment from its last dot; it is empty
      exactly when the segment is `..` or has no dot after its first character. */
  lemma ExtNameIsLastDotSuffix(p: string)
    ensures var base := LastSegment(p);
            ExtName(p) == "" <==> base == ".." || forall k :: 1 <= k < |base| ==> base[k] != '.'
    ensures var base := LastSegment(p); var r := ExtName(p);
            r != "" ==> |r| < |base| && r == base[|base| - |r|..] && forall k :: 1 <= k < |r| ==> r[k] != '.'
  {
    var base := LastSegment(p);
    match LastIndexOf(base, '.')
    case None =>
    case Some(d) =>
      if d != 0 && base != ".." {
        var r := base[d..];
        assert ExtName(p) == r;
        assert base[|base| - |r|..] == r;
        assert forall k :: 1 <= k < |r| ==> r[k] == base[d + k];
      }
  }

  /** `path.dirname(p)`: everything before the last slash; `.` when there is none,
      `/` when the only slash opens the path. */
  function DirName(p: string): (r: string)
    ensures r != ""
    ensures '/' !in p ==> r == "."
    ensures '/' in p ==> exists k :: 0 <= k < |p| && p[k] == '/' && (forall i :: k < i < |p| ==> p[i] != '/')
                                     && r == (if k == 0 then "/" else p[..k])
  {
    match LastIndexOf(p, '/')
    case None => "."
    case Some(k) => if k == 0 then "/" else p[..k]
  }

  /** `path.join(a, b)` for a directory and a single file name. */
  function Join(a: string, b: string): (r: string)
    ensures |a| + |b| <= |r| <= |a| + |b| + 1
    ensures r[..|a|] == a && r[|r| - |b|..] == b
    ensures a != "" && b != "" ==> r[|r| - |b| - 1] == '/'
    ensures a == "" || b == "" ==> r == a + b
  {
    if a == "" then b
    else if b == "" then a
    else if a[|a| - 1] == '/' then a + b
    else a + "/" + b
  }

  /** A file joined onto a directory is a child of that directory: its `dirname`
      gives the directory back and its last segment is the file name. */
  lemma {:induction false} JoinChild(dir: string, name: string)
    requires name != "" && '/' !in name
    requires dir == "/" || (dir != "" && dir[|dir| - 1] != '/')
    ensures DirName(Join(dir, name)) == dir
    ensures LastSegment(Join(dir, name)) == name
  {
    var j := Join(dir, name);
    var k := |j| - |name| - 1;
    assert j[k] == '/';
    assert j[k + 1..] == name;
    assert forall i :: k < i < |j| ==> j[i] != '/' by {
      forall i | k < i < |j| ensures j[i] != '/' {
        assert j[i] == name[i - k - 1];
      }
    }
    LastIndexOfIs(j, '/', k);
    if dir == "/" {
      assert k == 0;
    } else {
      assert j[..k] == dir;
    }
  }

  lemma {:induction false} LastIndexOfIs(s: string, c: char, k: nat)
    requires k < |s| && s[k] == c && forall i :: k < i < |s| ==> s[i] != c
    ensures LastIndexOf(s, c) == Some(k)
  {
    if k < |s| - 1 {
      LastIndexOfIs(s[..|s| - 1], c, k);
    }
  }
}
