/**
 * The POSIX path helpers of Python's `os.path` that the runner uses to name
 * files: `basename`, `dirname`, two-argument `join`, `splitext` and `isabs`.
 * `normpath` and `abspath` depend on the working directory and are passed
 * in by the callers that need them.
 */
module Paths {
  import Strings

  /** `os.path.isabs(p)`. */
  predicate IsAbs(p: string)
  {
    |p| > 0 && p[0] == '/'
  }

  /** `os.path.basename(p)`: the text after the last '/'. */
  function Basename(p: string): (r: string)
    ensures '/' !in r
  {
    Strings.LastSegment(p, '/')
  }

  predicate AllSlashes(s: string)
  {
    forall i :: 0 <= i < |s| ==> s[i] == '/'
  }

  /** `os.path.dirname(p)`: the text up to the last '/', with trailing slashes
   *  removed unless it consists of slashes only. */
  function Dirname(p: string): (r: string)
    ensures r == "" || AllSlashes(r) || r[|r| - 1] != '/'
  {
    Strings.LastSegmentSuffix(p, '/');
    var head := p[..|p| - |Basename(p)|];
    if head != "" && !AllSlashes(head) then
      var r := Strings.RStrip(head, '/');
      assert r != "" by {
        var i :| 0 <= i < |head| && head[i] != '/';
      }
      r
    else head
  }

  /** `os.path.join(a, b)`. */
  function Join(a: string, b: string): (r: string)
    ensures IsAbs(b) ==> r == b
  {
    if IsAbs(b) then b
    else if a == "" || a[|a| - 1] == '/' then a + b
    else a + "/" + b
  }

  /** `os.path.splitext(b)` for a base name (no '/'): the split at the last '.',
   *  unless every character before that '.' is a '.' too. */
  function SplitExt(b: string): (r: (string, string))
    ensures r.0 + r.1 == b
    ensures r.1 == "" || (r.1[0] == '.' && '.' !in r.1[1..])
    ensures r.1 != "" <==> exists i, j :: 0 <= i < j < |b| && b[i] != '.' && b[j] == '.'
  {
    var ext := Strings.LastSegment(b, '.');
    Strings.LastSegmentSuffix(b, '.');
    if '.' in b && exists i :: 0 <= i < |b| - |ext| - 1 && b[i] != '.' then
      var stem := Strings.DropLastSegment(b, '.');
      assert b == stem + ['.'] + ext;
      (stem, ['.'] + ext)
    else (b, "")
  }

  /** A name without '/' joined onto a directory is a file directly inside that
   *  directory: `dirname` and `basename` of the result give the two parts back. */
  lemma JoinedNameSitsInDir(d: string, n: string)
    requires '/' !in n
    requires d == "" || AllSlashes(d) || d[|d| - 1] != '/'
    ensures Basename(Join(d, n)) == n
    ensures Dirname(Join(d, n)) == d
  {
    if d == "" {
      assert Join(d, n) == n;
    } else if d[|d| - 1] == '/' {
      JoinAfterSlash(d, n);
    } else {
      JoinAddsSlash(d, n);
    }
  }

  lemma JoinAfterSlash(d: string, n: string)
    requires '/' !in n && d != "" && AllSlashes(d)
    ensures Basename(Join(d, n)) == n
    ensures Dirname(Join(d, n)) == d
  {
    var p := Join(d, n);
    assert p == d[..|d| - 1] + ['/'] + n;
    Strings.LastSegmentAfter(d[..|d| - 1], n, '/');
    assert p[..|p| - |n|] == d;
  }

  lemma JoinAddsSlash(d: string, n: string)
    requires '/' !in n && d != "" && d[|d| - 1] != '/'
    ensures Basename(Join(d, n)) == n
    ensures Dirname(Join(d, n)) == d
  {
    var p := Join(d, n);
    assert p == d + ['/'] + n;
    Strings.LastSegmentAfter(d, n, '/');
    var head := p[..|p| - |n|];
    assert head == d + ['/'];
    assert !AllSlashes(head) by {
      assert head[|d| - 1] != '/';
    }
    assert head[..|head| - 1] == d;
  }

  /** Joining anything onto an absolute path gives an absolute path. */
  lemma JoinKeepsAbs(a: string, b: string)
    requires IsAbs(a)
    ensures IsAbs(Join(a, b))
  {
    if !IsAbs(b) {
      assert Join(a, b)[0] == a[0];
    }
  }

  /** The directory of an absolute path is absolute. */
  lemma DirnameKeepsAbs(p: string)
    requires IsAbs(p)
    ensures IsAbs(Dirname(p))
  {
    Strings.LastSegmentSuffix(p, '/');
    var head := p[..|p| - |Basename(p)|];
    assert head[0] == '/';
    if !AllSlashes(head) {
      var r := Strings.RStrip(head, '/');
      assert r != "" && r <= head by {
        var i :| 0 <= i < |head| && head[i] != '/';
      }
      assert r[0] == head[0];
    }
  }
}
