/** The `os.path` functions the core uses, as Python's `posixpath` defines them. */
module PosixPath {
  import opened PyText

  /** `s.rfind(c)`: the index of the last `c`, or -1. */
  function RFind(s: string, c: char): (r: int)
    ensures -1 <= r < |s|
    ensures r >= 0 ==> s[r] == c
    ensures forall k :: r < k < |s| ==> s[k] != c
  {
    if s == [] then -1 else if s[|s| - 1] == c then |s| - 1 else RFind(s[..|s| - 1], c)
  }

  /** `os.path.basename(p)`: what follows the last `/`. */
  function Basename(p: string): (r: string)
    ensures '/' !in r
    ensures |r| <= |p| && r == p[|p| - |r|..]
  {
    p[RFind(p, '/') + 1..]
  }

  predicate AllSlashes(s: string) { forall i :: 0 <= i < |s| ==> s[i] == '/' }

  function RStripSlashes(s: string): string
  {
    if s != [] && s[|s| - 1] == '/' then RStripSlashes(s[..|s| - 1]) else s
  }

  /** `os.path.dirname(p)`: what precedes the last `/`, without trailing
      slashes unless it is made of slashes only. */
  function Dirname(p: string): string
  {
    var head := p[..RFind(p, '/') + 1];
    if head != [] && !AllSlashes(head) then RStripSlashes(head) else head
  }

  /** `os.path.join(a, b)`. */
  function Join(a: string, b: string): (r: string)
    ensures b != [] && b[|b| - 1] != '/' ==> r != [] && r[|r| - 1] != '/'
  {
    if |b| > 0 && b[0] == '/' then b
    else if a == [] || a[|a| - 1] == '/' then a + b
    else a + "/" + b
  }

  /** `os.path.splitext(p)[0]`: `p` without its extension, where a run of
      leading dots in the last component does not start an extension. */
  function SplitExtRoot(p: string): (r: string)
    ensures |r| <= |p| && r == p[..|r|]
  {
    var sepIndex := RFind(p, '/');
    var dotIndex := RFind(p, '.');
    if dotIndex > sepIndex && exists k :: sepIndex + 1 <= k < dotIndex && p[k] != '.' then p[..dotIndex]
    else p
  }

  /** `os.path.splitext(os.path.basename(p))[0]`. */
  function Stem(p: string): (r: string)
    ensures '/' !in r
  {
    var b := Basename(p);
    var r := SplitExtRoot(b);
    assert forall i :: 0 <= i < |r| ==> r[i] == b[i];
    r
  }

  /** Joining a directory with a plain file name gives a path whose basename
      is that name. */
  lemma BasenameOfJoin(d: string, name: string)
    requires '/' !in name
    ensures Basename(Join(d, name)) == name
  {
    var p := Join(d, name);
    var i := RFind(p, '/');
    assert forall k :: |p| - |name| <= k < |p| ==> p[k] == name[k - (|p| - |name|)];
    if |p| > |name| {
      assert p[|p| - |name| - 1] == '/';
    }
  }

  /** ... and whose dirname is the directory, when it is a non-empty path that
      does not end in a slash. */
  lemma DirnameOfJoin(d: string, name: string)
    requires '/' !in name
    requires d != [] && d[|d| - 1] != '/'
    ensures Dirname(Join(d, name)) == d
  {
    var p := Join(d, name);
    assert p == d + "/" + name;
    assert forall k :: |d| < k < |p| ==> p[k] == name[k - |d| - 1];
    assert p[|d|] == '/';
    var i := RFind(p, '/');
    assert i == |d|;
    assert p[..i + 1] == d + "/";
    assert (d + "/")[..|d|] == d;
    assert RStripSlashes(d + "/") == RStripSlashes(d) == d;
    assert !AllSlashes(d + "/") by { assert (d + "/")[|d| - 1] != '/'; }
  }
}
