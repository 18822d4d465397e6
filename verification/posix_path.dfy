/** The parts of Python's `posixpath` the modelled code calls:
    `dirname`, `basename`, `splitext` and `join`, for `/` as separator. */
module PosixPath {

  /** `s.rfind(c)`: the index of the last `c` in `s`, or -1. */
  function LastIndex(s: string, c: char): (i: int)
    ensures -1 <= i < |s|
    ensures i >= 0 ==> s[i] == c
    ensures forall k :: i < k < |s| ==> s[k] != c
  {
    if |s| == 0 then -1
    else if s[|s| - 1] == c then |s| - 1
    else LastIndex(s[..|s| - 1], c)
  }

  predicate AllSlashes(s: string) {
    forall i :: 0 <= i < |s| ==> s[i] == '/'
  }

  /** `s.rstrip('/')`. */
  function RStripSlashes(s: string): (r: string)
    ensures |r| <= |s| && r == s[..|r|]
    ensures r == [] || r[|r| - 1] != '/'
  {
    if |s| > 0 && s[|s| - 1] == '/' then RStripSlashes(s[..|s| - 1]) else s
  }

  /** `os.path.dirname(p)`: everything up to the last separator, with
      trailing separators dropped unless the head is separators only. */
  function Dirname(p: string): (d: string)
    ensures |d| <= |p| && d == p[..|d|]
  {
    var head := p[..LastIndex(p, '/') + 1];
    if head != [] && !AllSlashes(head) then RStripSlashes(head) else head
  }

  /** `os.path.basename(p)`: everything after the last separator. */
  function Basename(p: string): (b: string)
    ensures '/' !in b
    ensures EndsWithPart(p, b)
  {
    p[LastIndex(p, '/') + 1..]
  }

  predicate EndsWithPart(p: string, b: string) {
    |b| <= |p| && p[|p| - |b|..] == b
  }

  /** `os.path.splitext(p)`: the extension starts at the last dot of the
      last component, provided a character other than a dot precedes it
      in that component; otherwise there is no extension. */
  function SplitExt(p: string): (string, string) {
    var start := LastIndex(p, '/') + 1;
    var dot := LastIndex(p, '.');
    if start <= dot && exists k :: start <= k < dot && p[k] != '.' then
      (p[..dot], p[dot..])
    else
      (p, "")
  }

  /** `os.path.join(a, b)`: an absolute `b` replaces `a`; otherwise one
      separator is put between them unless `a` is empty or ends with one. */
  function Join(a: string, b: string): string {
    if |b| > 0 && b[0] == '/' then b
    else if |a| == 0 || a[|a| - 1] == '/' then a + b
    else a + "/" + b
  }

  /** The two halves of `splitext` put back together give the path; the
      extension is empty or a dot followed by neither dot nor separator, and
      a non-empty extension is never the whole last component. */
  lemma SplitExtParts(p: string)
    ensures var (root, ext) := SplitExt(p);
      && root + ext == p
      && (ext == [] || (ext[0] == '.' && '.' !in ext[1..] && '/' !in ext))
      && (ext != [] ==> exists k :: LastIndex(p, '/') < k < |root| && root[k] != '.')
  {
    var start := LastIndex(p, '/') + 1;
    var dot := LastIndex(p, '.');
    var (root, ext) := SplitExt(p);
    if start <= dot && exists k :: start <= k < dot && p[k] != '.' {
      assert ext == p[dot..];
      assert forall k :: 0 <= k < |ext| - 1 ==> ext[1..][k] == p[dot + 1 + k];
      assert forall k :: 0 <= k < |ext| ==> ext[k] == p[dot + k];
    }
  }

  /** `dirname` only ever shortens a path; it returns the path itself
      exactly at the fixed points, so a path different from its `dirname`
      is strictly longer than it. */
  lemma DirnameShrinks(p: string)
    ensures Dirname(p) != p ==> |Dirname(p)| < |p|
  {
  }

  /** The last occurrence of `c` in `x + [c] + b`, when `b` has none, is
      the one just after `x`. */
  lemma {:induction false} LastIndexAt(x: string, c: char, b: string)
    requires c !in b
    ensures LastIndex(x + [c] + b, c) == |x|
    decreases |b|
  {
    var s := x + [c] + b;
    if |b| > 0 {
      assert s[|s| - 1] == b[|b| - 1];
      assert s[..|s| - 1] == x + [c] + b[..|b| - 1];
      LastIndexAt(x, c, b[..|b| - 1]);
    }
  }

  /** The filesystem root and the empty path are fixed points of `dirname`;
      one level below the root, `dirname` gives the root. */
  lemma DirnameFixedPoints(name: string)
    requires |name| > 0 && '/' !in name
    ensures Dirname("/") == "/"
    ensures Dirname("") == ""
    ensures Dirname("/" + name) == "/"
  {
    LastIndexAt("", '/', "");
    assert "" + ['/'] + "" == "/";
    LastIndexAt("", '/', name);
    assert "" + ['/'] + name == "/" + name;
  }

  lemma JoinRelative(a: string, b: string)
    requires |a| > 0 && a[|a| - 1] != '/'
    requires |b| > 0 && b[0] != '/'
    ensures Join(a, b) == a + "/" + b
    ensures '/' !in b ==> Basename(Join(a, b)) == b
  {
    if '/' !in b {
      LastIndexAt(a, '/', b);
    }
  }
}
