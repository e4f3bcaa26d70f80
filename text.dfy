/**
 * The JavaScript string operations the extension relies on, stated over `seq<char>`:
 * `trim`, `toLowerCase`, `indexOf`, `split` (by a character class, and by a
 * repeated character class as in `split(/[ \t]+/)`) and `parseInt`.
 */
module Text {

  // ---------------------------------------------------------------------------
  // White space and trimming

  /** White space as `String.prototype.trim` and `parseInt` see it: the WhiteSpace and LineTerminator characters of ECMA-262. */
  predicate IsSpace(c: char) {
    || c == '\t' || c == '\n' || c == '\U{000B}' || c == '\U{000C}' || c == '\r' || c == ' '
    || c == '\U{00A0}' || c == '\U{1680}' || ('\U{2000}' <= c <= '\U{200A}')
    || c == '\U{2028}' || c == '\U{2029}' || c == '\U{202F}' || c == '\U{205F}'
    || c == '\U{3000}' || c == '\U{FEFF}'
  }

  predicate AllSpace(s: string) {
    forall i :: 0 <= i < |s| ==> IsSpace(s[i])
  }

  /** Neither starts nor ends with white space. */
  predicate Unpadded(s: string) {
    s == [] || (!IsSpace(s[0]) && !IsSpace(s[|s| - 1]))
  }

  /** Drops the leading white space. */
  function TrimStart(s: string): (r: string)
    ensures |r| <= |s| && r == s[|s| - |r|..]
    ensures forall i :: 0 <= i < |s| - |r| ==> IsSpace(s[i])
    ensures r == [] || !IsSpace(r[0])
  {
    if |s| > 0 && IsSpace(s[0]) then
      var r := TrimStart(s[1..]);
      assert s[1..][|s| - 1 - |r|..] == s[|s| - |r|..];
      forall i | 1 <= i < |s| - |r| ensures IsSpace(s[i]) {
        assert s[i] == s[1..][i - 1];
      }
      r
    else
      s
  }

  /** Drops the trailing white space. */
  function TrimEnd(s: string): (r: string)
    ensures |r| <= |s| && r == s[..|r|]
    ensures forall i :: |r| <= i < |s| ==> IsSpace(s[i])
    ensures r == [] || !IsSpace(r[|r| - 1])
  {
    if |s| > 0 && IsSpace(s[|s| - 1]) then
      var r := TrimEnd(s[..|s| - 1]);
      assert s[..|s| - 1][..|r|] == s[..|r|];
      forall i | |r| <= i < |s| - 1 ensures IsSpace(s[i]) {
        assert s[i] == s[..|s| - 1][i];
      }
      r
    else
      s
  }

  /** `String.prototype.trim`: what is left once leading and trailing white space is removed. */
  function Trim(s: string): (r: string)
    ensures Unpadded(r)
    ensures |r| <= |s|
  {
    TrimEnd(TrimStart(s))
  }

  lemma {:induction false} TrimStartPadded(a: string, t: string)
    requires AllSpace(a)
    requires t == [] || !IsSpace(t[0])
    ensures TrimStart(a + t) == t
  {
    if a != [] {
      assert (a + t)[1..] == a[1..] + t;
      TrimStartPadded(a[1..], t);
    } else {
      assert a + t == t;
    }
  }

  lemma {:induction false} TrimEndPadded(t: string, b: string)
    requires AllSpace(b)
    requires t == [] || !IsSpace(t[|t| - 1])
    ensures TrimEnd(t + b) == t
  {
    if b != [] {
      assert (t + b)[..|t + b| - 1] == t + b[..|b| - 1];
      TrimEndPadded(t, b[..|b| - 1]);
    } else {
      assert t + b == t;
    }
  }

  /** Trim removes exactly the white space around an unpadded core, whatever that white space is. */
  lemma {:induction false} TrimPadded(a: string, t: string, b: string)
    requires AllSpace(a) && AllSpace(b) && Unpadded(t)
    ensures Trim(a + t + b) == t
  {
    if t == [] {
      assert a + t + b == a + b;
      TrimStartPadded(a + b, []);
      assert a + b + [] == a + b;
    } else {
      assert a + t + b == a + (t + b);
      TrimStartPadded(a, t + b);
    }
    TrimEndPadded(t, b);
  }

  /** Trimming is idempotent, and the identity on unpadded text. */
  lemma {:induction false} TrimIdempotent(s: string)
    ensures Trim(Trim(s)) == Trim(s)
    ensures Unpadded(s) ==> Trim(s) == s
  {
    TrimUnpadded(Trim(s));
    if Unpadded(s) {
      TrimUnpadded(s);
    }
  }

  lemma {:induction false} TrimUnpadded(t: string)
    requires Unpadded(t)
    ensures Trim(t) == t
  {
    assert TrimStart(t) == t;
    assert TrimEnd(t) == t;
  }

  // ---------------------------------------------------------------------------
  // Case folding

  /** `toLowerCase` on one character, for the ASCII letters. */
  function LowerChar(c: char): char {
    if 'A' <= c <= 'Z' then (c as int + 32) as char else c
  }

  /** `String.prototype.toLowerCase`, restricted to ASCII case folding. */
  function ToLower(s: string): (r: string)
    ensures |r| == |s|
  {
    seq(|s|, i requires 0 <= i < |s| => LowerChar(s[i]))
  }

  // ---------------------------------------------------------------------------
  // Searching

  /** `s.indexOf(c)` for a single character: the first position of `c`, or -1. */
  function IndexOfChar(s: string, c: char): (r: int)
    ensures r == -1 <==> c !in s
    ensures 0 <= r ==> r < |s| && s[r] == c && c !in s[..r]
  {
    if |s| == 0 then -1
    else if s[0] == c then 0
    else
      var k := IndexOfChar(s[1..], c);
      if k < 0 then
        assert s == [s[0]] + s[1..];
        -1
      else
        assert s[..k + 1] == [s[0]] + s[1..][..k];
        k + 1
  }

  predicate OccursAt(q: string, s: string, i: int) {
    0 <= i && i + |q| <= |s| && s[i..i + |q|] == q
  }

  /** `s` contains `q` as a contiguous piece. */
  ghost predicate IsSubstring(q: string, s: string) {
    exists i :: OccursAt(q, s, i)
  }

  /** `s.indexOf(q)`: the first position at which `q` occurs in `s`, or -1 when it occurs nowhere. */
  function IndexOf(s: string, q: string): (r: int)
    ensures r == -1 || OccursAt(q, s, r)
    ensures r >= -1
    ensures forall i :: 0 <= i && (r == -1 || i < r) ==> !OccursAt(q, s, i)
    ensures r == -1 <==> !IsSubstring(q, s)
    decreases |s|
  {
    if |q| > |s| then -1
    else if s[..|q|] == q then 0
    else
      var k := IndexOf(s[1..], q);
      assert forall i :: 1 <= i ==> (OccursAt(q, s, i) <==> OccursAt(q, s[1..], i - 1)) by {
        forall i | 1 <= i ensures OccursAt(q, s, i) <==> OccursAt(q, s[1..], i - 1) {
          if i + |q| <= |s| {
            var shifted, direct := s[1..][i - 1..i - 1 + |q|], s[i..i + |q|];
            assert forall j :: 0 <= j < |q| ==> shifted[j] == direct[j];
            assert shifted == direct;
          }
        }
      }
      if k < 0 then -1 else k + 1
  }

  /** The empty string occurs at the very start of every string. */
  lemma {:induction false} IndexOfEmpty(s: string)
    ensures IndexOf(s, "") == 0
  {
    assert OccursAt("", s, 0);
  }

  // ---------------------------------------------------------------------------
  // Splitting

  predicate NoneWhere(s: string, p: char -> bool) {
    forall i :: 0 <= i < |s| ==> !p(s[i])
  }

  lemma {:induction false} NoneWhereConcat(a: string, b: string, p: char -> bool)
    requires NoneWhere(a, p) && NoneWhere(b, p)
    ensures NoneWhere(a + b, p)
  {
    forall i | 0 <= i < |a + b| ensures !p((a + b)[i]) {
      if i >= |a| {
        assert (a + b)[i] == b[i - |a|];
      }
    }
  }

  predicate AllWhere(s: string, p: char -> bool) {
    forall i :: 0 <= i < |s| ==> p(s[i])
  }

  /** The first position whose character satisfies `p`, or -1. */
  function FirstWhere(s: string, p: char -> bool): (r: int)
    ensures -1 <= r < |s|
    ensures r == -1 <==> NoneWhere(s, p)
    ensures 0 <= r ==> p(s[r]) && NoneWhere(s[..r], p)
  {
    if |s| == 0 then -1
    else if p(s[0]) then 0
    else
      var k := FirstWhere(s[1..], p);
      if k < 0 then -1
      else
        assert s[..k + 1] == [s[0]] + s[1..][..k];
        k + 1
  }

  /** Drops the leading characters that satisfy `p`. */
  function SkipWhere(s: string, p: char -> bool): (r: string)
    ensures |r| <= |s| && r == s[|s| - |r|..]
    ensures forall i :: 0 <= i < |s| - |r| ==> p(s[i])
    ensures r == [] || !p(r[0])
    ensures |s| > 0 && p(s[0]) ==> |r| < |s|
  {
    if |s| > 0 && p(s[0]) then
      var r := SkipWhere(s[1..], p);
      assert s[1..][|s| - 1 - |r|..] == s[|s| - |r|..];
      forall i | 1 <= i < |s| - |r| ensures p(s[i]) {
        assert s[i] == s[1..][i - 1];
      }
      r
    else
      s
  }

  /** `s.split(sep)` where every single character satisfying `p` separates two pieces (as `split('\n')` or `split(/[\.-]/)`). */
  function Split(s: string, p: char -> bool): (r: seq<string>)
    ensures |r| >= 1
    ensures forall k :: 0 <= k < |r| ==> NoneWhere(r[k], p)
    decreases |s|
  {
    var i := FirstWhere(s, p);
    if i < 0 then [s] else [s[..i]] + Split(s[i + 1..], p)
  }

  /** `s.split(/[…]+/)`: every maximal run of characters satisfying `p` separates two pieces. */
  function SplitRuns(s: string, p: char -> bool): (r: seq<string>)
    ensures |r| >= 1
    decreases |s|
  {
    var i := FirstWhere(s, p);
    if i < 0 then [s]
    else
      var rest := SkipWhere(s[i..], p);
      [s[..i]] + SplitRuns(rest, p)
  }

  /** The first match is the unique position that matches with no match before it. */
  lemma {:induction false} FirstWhereIs(s: string, p: char -> bool, k: int)
    requires 0 <= k < |s| && p(s[k]) && NoneWhere(s[..k], p)
    ensures FirstWhere(s, p) == k
  {
  }

  lemma {:induction false} SplitCons(a: string, c: char, b: string, p: char -> bool)
    requires NoneWhere(a, p) && p(c)
    ensures Split(a + [c] + b, p) == [a] + Split(b, p)
  {
    var s := a + [c] + b;
    assert s[|a|] == c;
    assert s[..|a|] == a;
    FirstWhereIs(s, p, |a|);
    assert s[|a| + 1..] == b;
  }

  lemma {:induction false} SplitWhole(s: string, p: char -> bool)
    requires NoneWhere(s, p)
    ensures Split(s, p) == [s]
  {
  }

  lemma {:induction false} SplitRunsCons(a: string, run: string, b: string, p: char -> bool)
    requires NoneWhere(a, p) && run != [] && AllWhere(run, p)
    requires b == [] || !p(b[0])
    ensures SplitRuns(a + run + b, p) == [a] + SplitRuns(b, p)
  {
    var s := a + run + b;
    assert s[|a|] == run[0];
    assert s[..|a|] == a;
    FirstWhereIs(s, p, |a|);
    assert s[|a|..] == run + b;
    SkipWherePadded(run, b, p);
  }

  lemma {:induction false} SkipWherePadded(run: string, b: string, p: char -> bool)
    requires AllWhere(run, p)
    requires b == [] || !p(b[0])
    ensures SkipWhere(run + b, p) == b
  {
    if run != [] {
      assert (run + b)[1..] == run[1..] + b;
      SkipWherePadded(run[1..], b, p);
    } else {
      assert run + b == b;
    }
  }

  // ---------------------------------------------------------------------------
  // Numbers

  /** A JavaScript number as `parseInt` produces it: an integer or NaN. */
  datatype Num = Int(value: int) | NaN {
    /** `n >= k`, which is false for NaN. */
    predicate AtLeast(k: int) {
      Int? && value >= k
    }
  }

  /** The value of `c` as a digit in the given radix (10 or 16), or -1 when it is not one. */
  function DigitValue(c: char, radix: nat): (d: int)
    ensures -1 <= d < 16
  {
    if '0' <= c <= '9' && (c as int - '0' as int) < radix then c as int - '0' as int
    else if radix == 16 && 'a' <= c <= 'f' then c as int - 'a' as int + 10
    else if radix == 16 && 'A' <= c <= 'F' then c as int - 'A' as int + 10
    else -1
  }

  predicate IsDigit(c: char, radix: nat) {
    DigitValue(c, radix) >= 0
  }

  /** The length of the longest prefix of `s` made of digits. */
  function DigitRun(s: string, radix: nat): (n: nat)
    ensures n <= |s|
    ensures forall i :: 0 <= i < n ==> IsDigit(s[i], radix)
    ensures n < |s| ==> !IsDigit(s[n], radix)
  {
    if |s| > 0 && IsDigit(s[0], radix) then 1 + DigitRun(s[1..], radix) else 0
  }

  /** The number a string of digits denotes, most significant digit first. */
  function DigitsValue(ds: string, radix: nat): nat
    requires forall i :: 0 <= i < |ds| ==> IsDigit(ds[i], radix)
  {
    if ds == [] then 0
    else
      assert IsDigit(ds[|ds| - 1], radix);
      DigitsValue(ds[..|ds| - 1], radix) * radix + DigitValue(ds[|ds| - 1], radix)
  }

  /**
   * `parseInt(s)` with no radix: skip leading white space, take an optional sign,
   * then read the unsigned part. Trailing text after the digits is ignored.
   */
  function ParseInt(s: string): Num {
    var t := TrimStart(s);
    if |t| > 0 && t[0] == '-' then
      match ParseUnsigned(t[1..])
      case Int(v) => Int(-v)
      case NaN => NaN
    else if |t| > 0 && t[0] == '+' then ParseUnsigned(t[1..])
    else ParseUnsigned(t)
  }

  /** Radix 16 after a `0x`/`0X` prefix, radix 10 otherwise. */
  function ParseUnsigned(u: string): Num {
    if |u| >= 2 && u[0] == '0' && (u[1] == 'x' || u[1] == 'X') then ParseDigits(u[2..], 16)
    else ParseDigits(u, 10)
  }

  /** The longest run of digits at the start of `v`; NaN when there is none. */
  function ParseDigits(v: string, radix: nat): Num {
    var n := DigitRun(v, radix);
    if n == 0 then NaN else Int(DigitsValue(v[..n], radix))
  }

  function DigitChar(d: nat): (c: char)
    requires d < 10
    ensures DigitValue(c, 10) == d
  {
    ('0' as int + d) as char
  }

  /** The decimal rendering of a natural number, as `String(n)` writes it. */
  function Dec(n: nat): (r: string)
    ensures |r| >= 1
    ensures forall i :: 0 <= i < |r| ==> '0' <= r[i] <= '9'
  {
    if n < 10 then [DigitChar(n)] else Dec(n / 10) + [DigitChar(n % 10)]
  }

  lemma {:induction false} DecValue(n: nat)
    ensures forall i :: 0 <= i < |Dec(n)| ==> IsDigit(Dec(n)[i], 10)
    ensures DigitsValue(Dec(n), 10) == n
  {
    var r := Dec(n);
    if n >= 10 {
      DecValue(n / 10);
      assert r[..|r| - 1] == Dec(n / 10);
    }
  }

  lemma {:induction false} DigitRunAll(s: string, radix: nat)
    requires forall i :: 0 <= i < |s| ==> IsDigit(s[i], radix)
    ensures DigitRun(s, radix) == |s|
  {
    if |s| > 0 {
      DigitRunAll(s[1..], radix);
    }
  }

  /** `parseInt` reads back exactly the number that `String(n)` wrote. */
  lemma {:induction false} ParseIntDec(n: nat)
    ensures ParseInt(Dec(n)) == Int(n)
  {
    var s := Dec(n);
    assert !IsSpace(s[0]);
    assert TrimStart(s) == s;
    DecValue(n);
    DigitRunAll(s, 10);
    assert s[..|s|] == s;
    assert ParseDigits(s, 10) == Int(n);
    assert |s| >= 2 ==> s[1] != 'x' && s[1] != 'X';
    assert ParseUnsigned(s) == Int(n);
  }

  /** `parseInt` of text without any digit where one is expected is NaN. */
  lemma {:induction false} ParseIntNoDigits(s: string)
    requires s == [] || (!IsSpace(s[0]) && s[0] != '-' && s[0] != '+' && !IsDigit(s[0], 10))
    ensures ParseInt(s) == NaN
  {
    assert TrimStart(s) == s;
    if s != [] {
      assert s[0] != '0';
      assert DigitRun(s, 10) == 0;
    }
  }
}
