/**
 * Character classes and string helpers shared by the grammars: Go's ASCII
 * `\w` and `\d`, decimal numerals, `strings.Replace(s, old, new, -1)` and
 * `strings.TrimSpace`.
 */
module Text {

  predicate IsDigit(c: char) { '0' <= c <= '9' }
  predicate IsLower(c: char) { 'a' <= c <= 'z' }
  predicate IsUpper(c: char) { 'A' <= c <= 'Z' }

  /** `\w` in Go's regular expressions: ASCII letters, digits and underscore. */
  predicate IsWordChar(c: char) { IsDigit(c) || IsLower(c) || IsUpper(c) || c == '_' }

  predicate AllDigits(s: string) { forall i :: 0 <= i < |s| ==> IsDigit(s[i]) }
  predicate AllWord(s: string) { forall i :: 0 <= i < |s| ==> IsWordChar(s[i]) }

  /** No character of `s` is a line feed. */
  predicate OneLine(s: string) { forall i :: 0 <= i < |s| ==> s[i] != '\n' }

  function DigitValue(c: char): (v: nat)
    requires IsDigit(c)
    ensures v < 10
  {
    (c as int) - ('0' as int)
  }

  function DigitChar(v: nat): (c: char)
    requires v < 10
    ensures IsDigit(c) && DigitValue(c) == v
  {
    (('0' as int) + v) as char
  }

  /** The value of a run of decimal digits, most significant first. */
  function DecimalValue(s: string): nat
    requires AllDigits(s)
  {
    if s == [] then 0 else 10 * DecimalValue(s[..|s| - 1]) + DigitValue(s[|s| - 1])
  }

  /** The shortest decimal numeral of `n`; Discord renders its ids this way. */
  function Decimal(n: nat): (s: string)
    ensures |s| > 0 && AllDigits(s)
  {
    if n < 10 then [DigitChar(n)] else Decimal(n / 10) + [DigitChar(n % 10)]
  }

  /** Reading a numeral back gives the number it was written from. */
  lemma {:induction false} DecimalRoundTrip(n: nat)
    ensures DecimalValue(Decimal(n)) == n
  {
    if n >= 10 {
      var s := Decimal(n);
      assert s[..|s| - 1] == Decimal(n / 10);
      DecimalRoundTrip(n / 10);
    }
  }

  /** `p` occurs in `s` starting at index `k`. */
  predicate OccursAt(s: string, p: string, k: int)
  {
    0 <= k && k + |p| <= |s| && s[k..k + |p|] == p
  }

  predicate Contains(s: string, p: string)
  {
    exists k | 0 <= k <= |s| :: OccursAt(s, p, k)
  }

  /**
   * `strings.Replace(s, p, r, -1)` for a non-empty `p`: occurrences of `p`
   * are found left to right, without overlap, and each is replaced by `r`.
   */
  function ReplaceAll(s: string, p: string, r: string): string
    requires |p| > 0
    decreases |s|
  {
    if |s| < |p| then s
    else if s[..|p|] == p then r + ReplaceAll(s[|p|..], p, r)
    else [s[0]] + ReplaceAll(s[1..], p, r)
  }

  /** A string without an occurrence of `p` is left as it is. */
  lemma {:induction false} ReplaceAllIdentity(s: string, p: string, r: string)
    requires |p| > 0 && !Contains(s, p)
    ensures ReplaceAll(s, p, r) == s
    decreases |s|
  {
    if |s| >= |p| {
      assert !OccursAt(s, p, 0);
      forall k | OccursAt(s[1..], p, k) ensures OccursAt(s, p, k + 1) {
        assert s[k + 1..k + 1 + |p|] == s[1..][k..k + |p|];
      }
      ReplaceAllIdentity(s[1..], p, r);
    }
  }

  /** Replacement copies a prefix that does not hold the pattern's first character. */
  lemma {:induction false} ReplaceSkip(a: string, b: string, p: string, r: string)
    requires |p| > 0 && p[0] !in a
    ensures ReplaceAll(a + b, p, r) == a + ReplaceAll(b, p, r)
    decreases |a|
  {
    if a != [] {
      var s := a + b;
      assert s[0] == a[0] && a[0] != p[0];
      if |s| >= |p| {
        assert s[..|p|][0] == s[0];
      }
      assert s[1..] == a[1..] + b;
      ReplaceSkip(a[1..], b, p, r);
    } else {
      assert a + b == b;
    }
  }

  /**
   * The first occurrence after a prefix free of the pattern's first
   * character is replaced by `r`, and replacement goes on after it.
   */
  lemma ReplaceOccurrence(a: string, b: string, p: string, r: string)
    requires |p| > 0 && p[0] !in a
    ensures ReplaceAll(a + p + b, p, r) == a + r + ReplaceAll(b, p, r)
  {
    assert a + p + b == a + (p + b);
    ReplaceSkip(a, p + b, p, r);
    assert (p + b)[..|p|] == p && (p + b)[|p|..] == b;
  }

  /**
   * The result of a replacement starts either with the input copied
   * unchanged or with a character of the replacement text.
   */
  lemma {:induction false} VerbatimPrefix(s: string, p: string, r: string, j: nat)
    requires |p| > 0 && |r| > 0
    requires j <= |ReplaceAll(s, p, r)|
    ensures || (j <= |s| && ReplaceAll(s, p, r)[..j] == s[..j])
            || exists i :: 0 <= i < j && ReplaceAll(s, p, r)[i] in r
    decreases |s|
  {
    var t := ReplaceAll(s, p, r);
    if |s| < |p| || j == 0 {
    } else if s[..|p|] == p {
      assert t[0] == r[0];
    } else {
      var t' := ReplaceAll(s[1..], p, r);
      assert t == [s[0]] + t';
      VerbatimPrefix(s[1..], p, r, j - 1);
      if j - 1 <= |s[1..]| && t'[..j - 1] == s[1..][..j - 1] {
        assert t[..j] == s[..j];
      } else {
        var i :| 0 <= i < j - 1 && t'[i] in r;
        assert t[i + 1] in r;
      }
    }
  }

  lemma OccursInSuffix(s: string, q: string, d: nat, k: int)
    requires d <= |s| && OccursAt(s[d..], q, k)
    ensures OccursAt(s, q, k + d)
  {
    assert s[k + d..k + d + |q|] == s[d..][k..k + |q|];
  }

  /** What does not occur in `s` does not occur in a suffix of it. */
  lemma NotInSuffix(s: string, q: string, d: nat)
    requires d <= |s| && !Contains(s, q)
    ensures !Contains(s[d..], q)
  {
    forall m | 0 <= m <= |s[d..]| ensures !OccursAt(s[d..], q, m) {
      if OccursAt(s[d..], q, m) {
        OccursInSuffix(s, q, d, m);
      }
    }
  }

  /** An occurrence past a prefix `a` is an occurrence in what follows `a`. */
  lemma OccursAfterPrefix(a: string, b: string, q: string, k: int)
    requires k >= |a|
    ensures OccursAt(a + b, q, k) ==> OccursAt(b, q, k - |a|)
  {
    if OccursAt(a + b, q, k) {
      assert b[k - |a|..k - |a| + |q|] == (a + b)[k..k + |q|];
    }
  }

  /** No character of `r` appears in `q`. */
  predicate SharesNoChar(r: string, q: string)
  {
    forall i :: 0 <= i < |r| ==> r[i] !in q
  }

  /**
   * A replacement text sharing no character with `q` cannot make `q` appear:
   * after the replacement, `q` occurs nowhere if `q` is the pattern itself or
   * if `q` did not occur before.
   */
  lemma {:induction false} ReplaceAllAvoids(s: string, p: string, r: string, q: string, k: int)
    requires |p| > 0 && |r| > 0 && |q| > 0 && SharesNoChar(r, q)
    requires q == p || !Contains(s, q)
    ensures !OccursAt(ReplaceAll(s, p, r), q, k)
    decreases |s|, 1
  {
    if |s| < |p| {
    } else if s[..|p|] == p {
      AvoidsAfterReplacement(s, p, r, q, k);
    } else {
      AvoidsAfterCopy(s, p, r, q, k);
    }
  }

  lemma {:induction false} AvoidsAfterReplacement(s: string, p: string, r: string, q: string, k: int)
    requires |p| > 0 && |r| > 0 && |q| > 0 && SharesNoChar(r, q)
    requires q == p || !Contains(s, q)
    requires |s| >= |p| && s[..|p|] == p
    ensures !OccursAt(ReplaceAll(s, p, r), q, k)
    decreases |s|, 0
  {
    var t' := ReplaceAll(s[|p|..], p, r);
    assert ReplaceAll(s, p, r) == r + t';
    if k < |r| {
      NotAtReplacement(r, t', q, k);
    } else {
      OccursAfterPrefix(r, t', q, k);
      if q != p {
        NotInSuffix(s, q, |p|);
      }
      ReplaceAllAvoids(s[|p|..], p, r, q, k - |r|);
    }
  }

  /** `q` cannot start inside a text that shares no character with it. */
  lemma NotAtReplacement(r: string, b: string, q: string, k: int)
    requires |q| > 0 && SharesNoChar(r, q) && k < |r|
    ensures !OccursAt(r + b, q, k)
  {
    if 0 <= k && k + |q| <= |r + b| {
      assert (r + b)[k..k + |q|][0] == r[k];
      CharNotShared(r, q, r[k]);
      assert q[0] in q;
    }
  }

  lemma {:induction false} AvoidsAfterCopy(s: string, p: string, r: string, q: string, k: int)
    requires |p| > 0 && |r| > 0 && |q| > 0 && SharesNoChar(r, q)
    requires q == p || !Contains(s, q)
    requires |s| >= |p| && s[..|p|] != p
    ensures !OccursAt(ReplaceAll(s, p, r), q, k)
    decreases |s|, 0
  {
    var t := ReplaceAll(s, p, r);
    var t' := ReplaceAll(s[1..], p, r);
    assert t == [s[0]] + t';
    if k > 0 {
      OccursAfterPrefix([s[0]], t', q, k);
      if q != p {
        NotInSuffix(s, q, 1);
      }
      ReplaceAllAvoids(s[1..], p, r, q, k - 1);
    } else if k == 0 {
      NotAtStartAfterCopy(s, p, r, q);
    }
  }

  lemma CharNotShared(r: string, q: string, c: char)
    requires SharesNoChar(r, q) && c in r
    ensures c !in q
  {
    var i :| 0 <= i < |r| && r[i] == c;
  }

  lemma NotAtStartAfterCopy(s: string, p: string, r: string, q: string)
    requires |p| > 0 && |r| > 0 && |q| > 0 && SharesNoChar(r, q)
    requires q == p || !Contains(s, q)
    requires |s| >= |p| && s[..|p|] != p
    ensures !OccursAt(ReplaceAll(s, p, r), q, 0)
  {
    var t := ReplaceAll(s, p, r);
    var t' := ReplaceAll(s[1..], p, r);
    assert t == [s[0]] + t';
    if |q| <= |t| {
      VerbatimPrefix(s[1..], p, r, |q| - 1);
      if |q| - 1 <= |s[1..]| && t'[..|q| - 1] == s[1..][..|q| - 1] {
        CopiedStart(s, t, t', |q|);
        if q == p {
          assert s[..|q|] != q;
        } else {
          assert !OccursAt(s, q, 0);
        }
      } else {
        var i :| 0 <= i < |q| - 1 && t'[i] in r;
        ForeignCharBreaksMatch(t, q, r, i + 1);
      }
    }
  }

  lemma CopiedStart(s: string, t: string, t': string, n: nat)
    requires 0 < n <= |s| && n <= |t| && t == [s[0]] + t'
    requires t'[..n - 1] == s[1..][..n - 1]
    ensures t[..n] == s[..n]
  {
    assert t[..n] == [s[0]] + t'[..n - 1];
    assert s[..n] == [s[0]] + s[1..][..n - 1];
  }

  lemma ForeignCharBreaksMatch(t: string, q: string, r: string, i: nat)
    requires SharesNoChar(r, q) && i < |q| <= |t| && t[i] in r
    ensures !OccursAt(t, q, 0)
  {
    CharNotShared(r, q, t[i]);
    assert t[..|q|][i] == t[i];
  }

  /** `unicode.IsSpace`: the characters `strings.TrimSpace` removes. */
  predicate IsSpace(c: char)
  {
    var n := c as int;
    (0x09 <= n <= 0x0D) || n == 0x20 || n == 0x85 || n == 0xA0 || n == 0x1680
    || (0x2000 <= n <= 0x200A) || n == 0x2028 || n == 0x2029 || n == 0x202F
    || n == 0x205F || n == 0x3000
  }

  /** `s` without its leading white space. */
  function TrimLeft(s: string): string
  {
    if s != [] && IsSpace(s[0]) then TrimLeft(s[1..]) else s
  }

  /** `s` without its trailing white space. */
  function TrimRight(s: string): string
  {
    if s != [] && IsSpace(s[|s| - 1]) then TrimRight(s[..|s| - 1]) else s
  }

  /** `strings.TrimSpace`: leading and trailing white space removed. */
  function TrimSpace(s: string): string
  {
    TrimRight(TrimLeft(s))
  }

  /** TrimLeft drops exactly the longest all-space prefix. */
  lemma {:induction false} TrimLeftSpec(s: string)
    ensures |TrimLeft(s)| <= |s| && TrimLeft(s) == s[|s| - |TrimLeft(s)|..]
    ensures TrimLeft(s) != [] ==> !IsSpace(TrimLeft(s)[0])
    ensures forall i :: 0 <= i < |s| - |TrimLeft(s)| ==> IsSpace(s[i])
  {
    if s != [] && IsSpace(s[0]) {
      TrimLeftSpec(s[1..]);
      forall i | 0 <= i < |s| - |TrimLeft(s)| ensures IsSpace(s[i]) {
        if i > 0 {
          assert s[i] == s[1..][i - 1];
        }
      }
    }
  }

  /** TrimRight drops exactly the longest all-space suffix. */
  lemma {:induction false} TrimRightSpec(s: string)
    ensures |TrimRight(s)| <= |s| && TrimRight(s) == s[..|TrimRight(s)|]
    ensures TrimRight(s) != [] ==> !IsSpace(TrimRight(s)[|TrimRight(s)| - 1])
    ensures forall i :: |TrimRight(s)| <= i < |s| ==> IsSpace(s[i])
  {
    if s != [] && IsSpace(s[|s| - 1]) {
      var s' := s[..|s| - 1];
      TrimRightSpec(s');
      assert s'[..|TrimRight(s)|] == s[..|TrimRight(s)|];
      forall i | |TrimRight(s)| <= i < |s| ensures IsSpace(s[i]) {
        if i < |s| - 1 {
          assert s[i] == s'[i];
        }
      }
    }
  }

  /**
   * TrimSpace keeps a contiguous stretch of `s` that neither starts nor
   * ends with white space, and everything it drops is white space.
   */
  lemma TrimSpaceSpec(s: string)
    ensures exists a, b ::
      && 0 <= a <= b <= |s| && TrimSpace(s) == s[a..b]
      && (forall i :: 0 <= i < a ==> IsSpace(s[i]))
      && (forall i :: b <= i < |s| ==> IsSpace(s[i]))
    ensures TrimSpace(s) != [] ==> !IsSpace(TrimSpace(s)[0]) && !IsSpace(TrimSpace(s)[|TrimSpace(s)| - 1])
  {
    var l := TrimLeft(s);
    TrimLeftSpec(s);
    TrimRightSpec(l);
    var a := |s| - |l|;
    var b := a + |TrimRight(l)|;
    assert TrimSpace(s) == s[a..b];
    forall i | b <= i < |s| ensures IsSpace(s[i]) {
      assert s[i] == l[i - a];
    }
  }

  /** A string that neither starts nor ends with white space is its own trim. */
  lemma TrimSpaceIdentity(s: string)
    requires s != [] ==> !IsSpace(s[0]) && !IsSpace(s[|s| - 1])
    ensures TrimSpace(s) == s
  {
  }
}
