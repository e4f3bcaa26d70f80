/**
 * The posix flavour of Node's `path` module, as far as the extension uses it:
 * `join` of plain segments, `dirname` and `extname`.
 */
module Paths {

  /** `path.join(a, b)`: empty segments are dropped and the rest joined with '/'. */
  function Join(a: string, b: string): (r: string)
    ensures r != ""
  {
    if a == "" && b == "" then "."
    else if a == "" then b
    else if b == "" then a
    else a + "/" + b
  }

  /** Joining onto a fixed non-empty directory never sends two different names to the same path. */
  lemma {:induction false} JoinInjective(dir: string, a: string, b: string)
    requires dir != ""
    requires Join(dir, a) == Join(dir, b)
    ensures a == b
  {
    if a != "" && b != "" {
      assert (dir + "/" + a)[|dir| + 1..] == a;
      assert (dir + "/" + b)[|dir| + 1..] == b;
    }
  }

  /** The same, for all pairs of names at once. */
  lemma {:induction false} JoinInjectiveAll(dir: string)
    requires dir != ""
    ensures forall a, b :: Join(dir, a) == Join(dir, b) ==> a == b
  {
    forall a, b | Join(dir, a) == Join(dir, b)
      ensures a == b
    {
      JoinInjective(dir, a, b);
    }
  }

  // ---------------------------------------------------------------------------
  // dirname

  /**
   * The loop inside `path.dirname`: scanning down from position `i` (never reaching 0),
   * the position of the first '/' met after some other character, or -1.
   */
  function DirEnd(p: string, i: int, matchedSlash: bool): (end: int)
    requires i < |p|
    ensures end == -1 || (1 <= end <= i && p[end] == '/')
    ensures end != -1 && matchedSlash ==> end < i
    decreases i
  {
    if i < 1 then -1
    else if p[i] == '/' then (if !matchedSlash then i else DirEnd(p, i - 1, matchedSlash))
    else DirEnd(p, i - 1, false)
  }

  /** `path.dirname(p)`: the path without its last segment. */
  function Dirname(p: string): (r: string)
    ensures r != ""
    ensures r == "." || r == "/" || |r| < |p|
  {
    if |p| == 0 then "."
    else
      var end := DirEnd(p, |p| - 1, true);
      if end == -1 then (if p[0] == '/' then "/" else ".")
      else if p[0] == '/' && end == 1 then "//"
      else p[..end]
  }

  lemma {:induction false} DirEndSegment(p: string, i: int, dir: string, name: string)
    requires p == dir + "/" + name && |dir| >= 1
    requires forall k :: 0 <= k < |name| ==> name[k] != '/'
    requires |dir| < i < |p|
    ensures DirEnd(p, i, false) == |dir|
    decreases i
  {
    if i - 1 > |dir| {
      assert p[i] == name[i - |dir| - 1];
      DirEndSegment(p, i - 1, dir, name);
    } else {
      assert p[i] == name[i - |dir| - 1];
      assert p[|dir|] == '/';
    }
  }

  /** The parent of `dir/name`, for a name without separators, is `dir` (unless `dir` is the root itself). */
  lemma {:induction false} DirnameOfJoin(dir: string, name: string)
    requires dir != "" && dir != "/" && name != ""
    requires forall k :: 0 <= k < |name| ==> name[k] != '/'
    ensures Dirname(Join(dir, name)) == dir
  {
    var p := dir + "/" + name;
    assert p[|p| - 1] == name[|name| - 1];
    if |name| == 1 {
      assert p[|dir|] == '/';
      DirEndSegmentLast(p, dir, name);
    } else {
      DirEndSegment(p, |p| - 2, dir, name);
    }
    assert p[..|dir|] == dir;
    assert p[0] == dir[0];
  }

  lemma {:induction false} DirEndSegmentLast(p: string, dir: string, name: string)
    requires p == dir + "/" + name && |dir| >= 1 && |name| == 1
    requires name[0] != '/'
    ensures DirEnd(p, |p| - 1, true) == |dir|
  {
    assert p[|p| - 1] == name[0];
    assert p[|dir|] == '/';
  }

  // ---------------------------------------------------------------------------
  // extname

  /** The last position of `c` in `s`, or -1. */
  function LastIndexOfChar(s: string, c: char): (r: int)
    ensures -1 <= r < |s|
    ensures r == -1 <==> c !in s
    ensures 0 <= r ==> s[r] == c
    ensures forall k :: r < k < |s| ==> s[k] != c
  {
    if |s| == 0 then -1
    else if s[|s| - 1] == c then |s| - 1
    else
      assert s == s[..|s| - 1] + [s[|s| - 1]];
      LastIndexOfChar(s[..|s| - 1], c)
  }

  /** The last segment of a path. */
  function Basename(p: string): string {
    p[LastIndexOfChar(p, '/') + 1..]
  }

  /**
   * `path.extname(p)`: the last segment from its last '.', or "" when that segment
   * has no '.', starts with its only '.', or is "..".
   */
  function ExtName(p: string): string {
    var base := Basename(p);
    var dot := LastIndexOfChar(base, '.');
    if dot <= 0 || base == ".." then "" else base[dot..]
  }

  predicate EndsWith(s: string, suffix: string) {
    |suffix| <= |s| && s[|s| - |suffix|..] == suffix
  }

  /**
   * The build is triggered by saving a `.reproto` document: a path has that extension exactly
   * when it ends in ".reproto" and some other character of its last segment comes before that.
   */
  lemma {:induction false} ExtNameReproto(p: string)
    ensures ExtName(p) == ".reproto" <==> |p| > 8 && EndsWith(p, ".reproto") && p[|p| - 9] != '/'
  {
    var ext := ".reproto";
    assert IsExtension(ext);
    if |p| > 8 && EndsWith(p, ext) && p[|p| - 9] != '/' {
      ExtNameOfSuffix(p, ext);
    }
    if ExtName(p) == ext {
      SuffixOfExtName(p, ext);
    }
  }

  /** A '.' followed by at least one character, none of them a '.' or a '/'. */
  predicate IsExtension(ext: string) {
    && |ext| >= 2 && ext[0] == '.'
    && (forall k :: 0 <= k < |ext| ==> ext[k] != '/')
    && (forall k :: 1 <= k < |ext| ==> ext[k] != '.')
  }

  /** A path ending in `<c><ext>`, with `c` not a separator, has extension `ext`. */
  lemma {:induction false} ExtNameOfSuffix(p: string, ext: string)
    requires IsExtension(ext)
    requires |p| > |ext| && EndsWith(p, ext) && p[|p| - |ext| - 1] != '/'
    ensures ExtName(p) == ext
  {
    LastSlashBefore(p, ext);
    BasenameEnds(p);
    SuffixOfSuffix(p, Basename(p), ext);
    LastDotStartsExtension(Basename(p), ext);
  }

  lemma {:induction false} SuffixOfSuffix(p: string, base: string, ext: string)
    requires |ext| <= |base| <= |p| && p[|p| - |base|..] == base && EndsWith(p, ext)
    ensures EndsWith(base, ext)
  {
    assert base[|base| - |ext|..] == p[|p| - |base|..][|base| - |ext|..];
  }

  lemma {:induction false} LastSlashBefore(p: string, ext: string)
    requires IsExtension(ext)
    requires |p| > |ext| && EndsWith(p, ext) && p[|p| - |ext| - 1] != '/'
    ensures LastIndexOfChar(p, '/') < |p| - |ext| - 1
    ensures |Basename(p)| > |ext|
  {
    var n := |p| - |ext|;
    forall k | n <= k < |p| ensures p[k] != '/' {
      assert p[k] == p[n..][k - n];
    }
  }

  lemma {:induction false} LastDotStartsExtension(base: string, ext: string)
    requires IsExtension(ext)
    requires EndsWith(base, ext)
    ensures LastIndexOfChar(base, '.') == |base| - |ext|
  {
    var d := |base| - |ext|;
    assert base[d] == base[d..][0];
    forall k | d < k < |base| ensures base[k] != '.' {
      assert base[k] == base[d..][k - d];
    }
  }

  /** A path with extension `ext` ends in `<c><ext>` for some `c` that is not a separator. */
  lemma {:induction false} SuffixOfExtName(p: string, ext: string)
    requires IsExtension(ext)
    requires ExtName(p) == ext
    ensures |p| > |ext| && EndsWith(p, ext) && p[|p| - |ext| - 1] != '/'
  {
    var base := Basename(p);
    BasenameEnds(p);
    var dot := LastIndexOfChar(base, '.');
    assert 0 < dot && base[dot..] == ext;
    EndsAfterDot(p, base, dot, ext);
  }

  /** The last segment of a path ends it and holds no separator. */
  lemma {:induction false} BasenameEnds(p: string)
    ensures var b := Basename(p);
      && |b| <= |p| && p[|p| - |b|..] == b
      && forall k :: 0 <= k < |b| ==> b[k] != '/'
  {
    var s := LastIndexOfChar(p, '/');
    var b := p[s + 1..];
    forall k | 0 <= k < |b| ensures b[k] != '/' {
      assert b[k] == p[s + 1 + k];
    }
  }

  lemma {:induction false} EndsAfterDot(p: string, base: string, dot: int, ext: string)
    requires |base| <= |p| && p[|p| - |base|..] == base
    requires forall k :: 0 <= k < |base| ==> base[k] != '/'
    requires 0 < dot <= |base| && base[dot..] == ext
    ensures |p| > |ext| && EndsWith(p, ext) && p[|p| - |ext| - 1] != '/'
  {
    var n := |p| - |base|;
    assert p[n + dot..] == p[n..][dot..];
    assert p[n + dot - 1] == base[dot - 1];
  }
}
