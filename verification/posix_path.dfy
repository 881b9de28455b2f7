/** The two `os.path` functions the ingestion code applies to every file
    path, with their POSIX meaning: `basename` is the text after the last
    '/', `dirname` the text up to it with trailing slashes removed unless
    the head consists of slashes only. */
module PosixPath {
  import opened Strings

  /** `os.path.basename(p)`. */
  function Basename(p: string): (r: string)
    ensures '/' !in r
    ensures |r| <= |p| && p[|p| - |r|..] == r
  {
    p[RFind(p, '/') + 1..]
  }

  /** `p` without its trailing '/' characters (`p.rstrip('/')`). */
  function RStripSlashes(p: string): (r: string)
    ensures |r| <= |p| && p[..|r|] == r
    ensures |r| == 0 || r[|r| - 1] != '/'
    ensures forall i :: |r| <= i < |p| ==> p[i] == '/'
  {
    if |p| == 0 || p[|p| - 1] != '/' then p else RStripSlashes(p[..|p| - 1])
  }

  predicate AllSlashes(p: string)
  {
    forall i :: 0 <= i < |p| ==> p[i] == '/'
  }

  /** `os.path.dirname(p)`. */
  function Dirname(p: string): string
  {
    var head := p[..RFind(p, '/') + 1];
    if head != "" && !AllSlashes(head) then RStripSlashes(head) else head
  }

  /** A path is its directory head followed by its base name. */
  lemma HeadAndBasename(p: string)
    ensures p == p[..RFind(p, '/') + 1] + Basename(p)
  {
  }

  /** Building a path from a directory that does not end in '/' and a name
      without '/' and splitting it again gives back both parts. */
  lemma {:induction false} DirnameBasenameRoundTrip(d: string, n: string)
    requires d != "" && d[|d| - 1] != '/'
    requires '/' !in n
    ensures Basename(d + "/" + n) == n
    ensures Dirname(d + "/" + n) == d
  {
    var p := d + "/" + n;
    var k := RFind(p, '/');
    assert p[|d|] == '/';
    assert p[|d| + 1..] == n;
    assert k == |d| by {
      assert p[|d|] == '/' && '/' !in p[|d| + 1..];
    }
    var head := p[..k + 1];
    assert head == d + "/";
    assert !AllSlashes(head) by {
      assert head[|d| - 1] != '/';
    }
    assert head[..|head| - 1] == d;
  }
}
