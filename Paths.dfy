/**
 * String helpers that behave like the Python calls the scripts make on
 * '/'-separated paths: `str.endswith`, `str.rfind`, `os.path.join`,
 * `os.path.basename` and `os.path.splitext` (POSIX flavour).
 */
module Paths {

  /** `s.endswith(suffix)`: a case-sensitive suffix test. */
  predicate EndsWith(s: string, suffix: string) {
    |suffix| <= |s| && s[|s| - |suffix|..] == suffix
  }

  /** `s` ends with `suffix` exactly when `s` is some string followed by `suffix`. */
  lemma EndsWithMeaning(s: string, suffix: string)
    ensures EndsWith(s, suffix) <==> exists x :: s == x + suffix
  {
    if EndsWith(s, suffix) {
      assert s == s[..|s| - |suffix|] + suffix;
    }
    if x :| s == x + suffix {
      assert s[|s| - |suffix|..] == suffix;
    }
  }

  /** `s.rfind(c)`: the index of the last `c` in `s`, or -1 when there is none. */
  function LastIndexOf(s: string, c: char): (r: int)
    ensures -1 <= r < |s|
    ensures r >= 0 ==> s[r] == c
    ensures forall i | r < i < |s| :: s[i] != c
  {
    if s == [] then -1
    else if s[|s| - 1] == c then |s| - 1
    else LastIndexOf(s[..|s| - 1], c)
  }

  /** `os.path.join(a, b)`: an absolute `b` replaces `a`; otherwise a '/' is put between them unless `a` is empty or already ends with one. */
  function Join(a: string, b: string): (path: string) {
    if |b| > 0 && b[0] == '/' then b
    else if a == [] || a[|a| - 1] == '/' then a + b
    else a + "/" + b
  }

  /**
   * What `join` promises: the result ends with `b`; an absolute `b` is the whole result;
   * otherwise the result starts with `a`, and when `a` is not empty a '/' stands between `a`'s text and `b`,
   * with nothing else added.
   */
  lemma JoinParts(a: string, b: string)
    ensures EndsWith(Join(a, b), b)
    ensures |b| > 0 && b[0] == '/' ==> Join(a, b) == b
    ensures !(|b| > 0 && b[0] == '/') ==> |a| <= |Join(a, b)| && Join(a, b)[..|a|] == a
    ensures !(|b| > 0 && b[0] == '/') && a != [] ==> |a| + |b| <= |Join(a, b)| && Join(a, b)[|Join(a, b)| - |b| - 1] == '/'
    ensures !(|b| > 0 && b[0] == '/') ==> |Join(a, b)| <= |a| + |b| + 1
  {
  }

  /** `os.path.basename(p)`: everything after the last '/'. */
  function Basename(p: string): (r: string)
    ensures '/' !in r
    ensures EndsWith(p, r)
  {
    p[LastIndexOf(p, '/') + 1..]
  }

  /**
   * `os.path.splitext(p)[0]`: `p` without its extension. The extension starts at the
   * last '.' after the last '/', and only when some character other than '.' precedes
   * that dot within the last component (so ".hidden" has no extension).
   */
  function SplitExtRoot(p: string): (r: string)
    ensures |r| <= |p| && r == p[..|r|]
  {
    var sepIndex := LastIndexOf(p, '/');
    var dotIndex := LastIndexOf(p, '.');
    if dotIndex > sepIndex && exists i | sepIndex + 1 <= i < dotIndex :: p[i] != '.' then p[..dotIndex]
    else p
  }

  /** When `x` is empty or ends with `c`, and `f` has no `c`, the last `c` of `x + f` is the end of `x`. */
  lemma {:induction false} LastIndexAfterPrefix(x: string, f: string, c: char)
    requires x == [] || x[|x| - 1] == c
    requires c !in f
    ensures LastIndexOf(x + f, c) == |x| - 1
    decreases |f|
  {
    if f == [] {
      assert x + f == x;
    } else {
      var s := x + f;
      assert s[|s| - 1] == f[|f| - 1];
      assert s[..|s| - 1] == x + f[..|f| - 1];
      LastIndexAfterPrefix(x, f[..|f| - 1], c);
    }
  }

  /** The component joined last is what `basename` gives back. */
  lemma BasenameOfJoin(d: string, f: string)
    requires '/' !in f
    ensures Basename(Join(d, f)) == f
  {
    var x := if d == [] || d[|d| - 1] == '/' then d else d + "/";
    assert Join(d, f) == x + f;
    LastIndexAfterPrefix(x, f, '/');
    assert (x + f)[|x|..] == f;
  }

  /** `join(d, f)` always ends with `f`, so it keeps every suffix of `f`. */
  lemma JoinEndsWith(d: string, f: string, suffix: string)
    requires EndsWith(f, suffix)
    ensures EndsWith(Join(d, f), suffix)
  {
    var j := Join(d, f);
    var x := j[..|j| - |f|];
    assert j == x + f;
    assert j[|j| - |suffix|..] == f[|f| - |suffix|..];
  }

  /**
   * `splitext` removes the last extension "." + e from a stem without '/' that holds some
   * character other than '.' (so `a.b.mov` gives `a.b`, and `x.mov` gives `x`).
   */
  lemma {:induction false} SplitExtRootOfStem(stem: string, e: string)
    requires '/' !in stem && exists i | 0 <= i < |stem| :: stem[i] != '.'
    requires '.' !in e && '/' !in e
    ensures SplitExtRoot(stem + "." + e) == stem
  {
    var head := stem + ".";
    var p := head + e;
    assert p == stem + "." + e;
    var sepIndex, dotIndex := LastIndexOf(p, '/'), LastIndexOf(p, '.');
    assert sepIndex == -1 by {
      assert '/' !in p;
      LastIndexAfterPrefix([], p, '/');
      assert [] + p == p;
    }
    assert dotIndex == |stem| by {
      LastIndexAfterPrefix(head, e, '.');
    }
    var i :| 0 <= i < |stem| && stem[i] != '.';
    assert sepIndex + 1 <= i < dotIndex && p[i] != '.';
    assert p[..dotIndex] == stem;
  }

  /** The dotted stem of an example clip name keeps its inner dot. */
  lemma DottedStemExample()
    ensures SplitExtRoot("a.b.mov") == "a.b"
  {
    assert "a.b.mov" == "a.b" + "." + "mov";
    assert "a.b"[0] != '.';
    SplitExtRootOfStem("a.b", "mov");
  }
}
