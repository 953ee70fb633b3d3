/**
  The few functions of Go's `strings` and `strconv` packages that the
  request gates and the catalog loader rely on, written out so that their
  edge cases are part of the model: `strings.TrimSpace`, `strings.Split`
  with a one-character separator, `strings.ToUpper` (as far as it matters
  for finding an ASCII word), `strings.Contains`, and the decimal rendering
  of integers used by `strconv.Itoa` and `fmt.Sprintf("%v", n)`.
*/
module Text {

  /** Go's `unicode.IsSpace`: the Latin-1 white space characters and the
      characters with the Unicode White_Space property. */
  predicate IsSpace(c: char) {
    || c == ' ' || c == '\t' || c == '\n' || c == '\r'
    || c == '\U{000B}' || c == '\U{000C}' || c == '\U{0085}' || c == '\U{00A0}'
    || c == '\U{1680}' || ('\U{2000}' <= c <= '\U{200A}')
    || c == '\U{2028}' || c == '\U{2029}' || c == '\U{202F}' || c == '\U{205F}'
    || c == '\U{3000}'
  }

  predicate AllSpace(s: string) {
    forall k :: 0 <= k < |s| ==> IsSpace(s[k])
  }

  /** The first position at or after `i` that does not hold white space
      (or `|s|`). */
  function SkipSpace(s: string, i: nat): (a: nat)
    requires i <= |s|
    ensures i <= a <= |s|
    ensures forall k :: i <= k < a ==> IsSpace(s[k])
    ensures a < |s| ==> !IsSpace(s[a])
    decreases |s| - i
  {
    if i < |s| && IsSpace(s[i]) then SkipSpace(s, i + 1) else i
  }

  /** The last position at or before `j`, and not before `lo`, that follows a
      character other than white space (or `lo`). */
  function SkipSpaceBack(s: string, lo: nat, j: nat): (b: nat)
    requires lo <= j <= |s|
    ensures lo <= b <= j
    ensures forall k :: b <= k < j ==> IsSpace(s[k])
    ensures b > lo ==> !IsSpace(s[b - 1])
  {
    if j > lo && IsSpace(s[j - 1]) then SkipSpaceBack(s, lo, j - 1) else j
  }

  /** `strings.TrimSpace`: the text between the leading and the trailing
      white space. It is empty exactly when the whole text is white space. */
  function TrimSpace(s: string): (r: string)
    ensures r == [] <==> AllSpace(s)
  {
    var a := SkipSpace(s, 0);
    var b := SkipSpaceBack(s, a, |s|);
    s[a..b]
  }

  /** The trimmed text is a slice of the text with white space only around
      it, and it neither starts nor ends with white space. */
  lemma TrimSpaceSpec(s: string)
    ensures var r, a := TrimSpace(s), SkipSpace(s, 0);
      && a + |r| <= |s| && r == s[a..a + |r|]
      && (forall k :: 0 <= k < a ==> IsSpace(s[k]))
      && (forall k :: a + |r| <= k < |s| ==> IsSpace(s[k]))
      && (r == [] || (!IsSpace(r[0]) && !IsSpace(r[|r| - 1])))
  {
  }

  /** Trimming twice is trimming once. */
  lemma TrimSpaceIdempotent(s: string)
    ensures TrimSpace(TrimSpace(s)) == TrimSpace(s)
  {
    var t := TrimSpace(s);
    TrimSpaceSpec(s);
    if t != [] {
      assert SkipSpace(t, 0) == 0;
      assert SkipSpaceBack(t, 0, |t|) == |t|;
    }
  }

  function IndexOf(s: string, c: char): (i: nat)
    requires c in s
    ensures i < |s| && s[i] == c && c !in s[..i]
  {
    if s[0] == c then 0 else IndexOf(s[1..], c) + 1
  }

  /** `IndexOf` finds the first occurrence. */
  lemma IndexOfFirst(s: string, c: char, p: nat)
    requires p < |s| && s[p] == c && c !in s[..p]
    ensures IndexOf(s, c) == p
  {
  }

  /** `strings.Join` with a one-character separator. */
  function Join(pieces: seq<string>, sep: char): string {
    if pieces == [] then ""
    else if |pieces| == 1 then pieces[0]
    else pieces[0] + [sep] + Join(pieces[1..], sep)
  }

  /** `strings.Split(s, sep)` for a one-character separator: the pieces
      between the separators, empty pieces included, so there is always one
      piece more than there are separators. */
  function Split(s: string, sep: char): (r: seq<string>)
    ensures |r| >= 1
    ensures forall k :: 0 <= k < |r| ==> sep !in r[k]
    ensures Join(r, sep) == s
    decreases |s|
  {
    if sep !in s then [s]
    else
      var i := IndexOf(s, sep);
      var rest := Split(s[i + 1..], sep);
      assert s == s[..i] + [sep] + s[i + 1..];
      [s[..i]] + rest
  }

  /** Splitting undoes joining, as long as no piece holds the separator. */
  lemma {:induction false} SplitJoin(pieces: seq<string>, sep: char)
    requires |pieces| >= 1
    requires forall k :: 0 <= k < |pieces| ==> sep !in pieces[k]
    ensures Split(Join(pieces, sep), sep) == pieces
  {
    if |pieces| > 1 {
      var s := Join(pieces, sep);
      var p := pieces[0];
      assert s == p + [sep] + Join(pieces[1..], sep);
      assert s[|p|] == sep && s[..|p|] == p;
      assert IndexOf(s, sep) == |p|;
      assert s[|p| + 1..] == Join(pieces[1..], sep);
      SplitJoin(pieces[1..], sep);
    }
  }

  function UpperChar(c: char): char {
    if 'a' <= c <= 'z' then (c as int - 'a' as int + 'A' as int) as char else c
  }

  /** `strings.ToUpper` on the ASCII letters. */
  function Upper(s: string): (r: string)
    ensures |r| == |s|
  {
    seq(|s|, k requires 0 <= k < |s| => UpperChar(s[k]))
  }

  /** Upper-casing commutes with taking a slice. */
  lemma UpperSlice(s: string, i: nat, j: nat)
    requires i <= j <= |s|
    ensures Upper(s)[i..j] == Upper(s[i..j])
  {
  }

  ghost predicate OccursAt(s: string, t: string, i: int) {
    0 <= i && i + |t| <= |s| && s[i..i + |t|] == t
  }

  /** `strings.Contains`: a search from each position in turn. */
  predicate Contains(s: string, t: string)
    decreases |s|
  {
    (|t| <= |s| && s[..|t|] == t) || (|s| > 0 && Contains(s[1..], t))
  }

  /** The search finds `t` exactly when `t` occurs somewhere in `s`. */
  lemma {:induction false} ContainsIff(s: string, t: string)
    ensures Contains(s, t) <==> exists i :: OccursAt(s, t, i)
    decreases |s|
  {
    if |t| <= |s| && s[..|t|] == t {
      assert OccursAt(s, t, 0);
    } else if |s| > 0 {
      ContainsIff(s[1..], t);
      forall j | OccursAt(s[1..], t, j) ensures OccursAt(s, t, j + 1) {
        assert s[j + 1..j + 1 + |t|] == s[1..][j..j + |t|];
      }
      forall i | OccursAt(s, t, i) && i > 0 ensures OccursAt(s[1..], t, i - 1) {
        assert s[1..][i - 1..i - 1 + |t|] == s[i..i + |t|];
      }
      assert !OccursAt(s, t, 0);
    }
  }

  /** A word that neither starts nor ends with white space occurs in the
      upper-cased trimmed text exactly when it occurs in the upper-cased
      text: upper-casing leaves white space alone, so no occurrence can
      reach into the trimmed-off ends. */
  lemma UpperTrimOccurs(s: string, w: string)
    requires |w| > 0 && !IsSpace(w[0]) && !IsSpace(w[|w| - 1])
    ensures (exists i :: OccursAt(Upper(TrimSpace(s)), w, i)) <==> (exists i :: OccursAt(Upper(s), w, i))
  {
    var t, a := TrimSpace(s), SkipSpace(s, 0);
    TrimSpaceSpec(s);
    UpperInsideSpace(s, t, w, a);
  }

  /** The same for any slice with only white space around it. */
  lemma UpperInsideSpace(s: string, t: string, w: string, a: nat)
    requires |w| > 0 && !IsSpace(w[0]) && !IsSpace(w[|w| - 1])
    requires a + |t| <= |s| && t == s[a..a + |t|]
    requires forall k :: 0 <= k < a ==> IsSpace(s[k])
    requires forall k :: a + |t| <= k < |s| ==> IsSpace(s[k])
    ensures (exists i :: OccursAt(Upper(t), w, i)) <==> (exists i :: OccursAt(Upper(s), w, i))
  {
    var n := |t|;
    var u, v := Upper(s), Upper(t);
    assert u[a..a + |v|] == v by {
      UpperSlice(s, a, a + n);
    }
    if i :| OccursAt(v, w, i) {
      OccursInSlice(u, v, a, w, i);
    }
    if i :| OccursAt(u, w, i) {
      OccurrenceInside(s, w, a, n, i);
      OccursInSlice(u, v, a, w, i - a);
    }
  }

  /** Occurring in a slice is occurring in the whole at the shifted
      position. */
  lemma OccursInSlice(u: string, v: string, a: nat, w: string, i: int)
    requires a + |v| <= |u| && u[a..a + |v|] == v
    requires 0 <= i && i + |w| <= |v|
    ensures OccursAt(v, w, i) <==> OccursAt(u, w, a + i)
  {
    var x, y := u[a + i..a + i + |w|], v[i..i + |w|];
    forall k | 0 <= k < |w|
      ensures x[k] == y[k]
    {
      assert u[a + i + k] == u[a..a + |v|][i + k];
    }
    assert x == y;
  }

  /** An occurrence of such a word in the upper-cased text lies between
      white-space ends. */
  lemma OccurrenceInside(s: string, w: string, a: nat, n: nat, i: int)
    requires |w| > 0 && !IsSpace(w[0]) && !IsSpace(w[|w| - 1])
    requires a + n <= |s|
    requires forall k :: 0 <= k < a ==> IsSpace(s[k])
    requires forall k :: a + n <= k < |s| ==> IsSpace(s[k])
    requires OccursAt(Upper(s), w, i)
    ensures a <= i && i + |w| <= a + n
  {
    assert Upper(s)[i] == w[0];
    assert Upper(s)[i + |w| - 1] == w[|w| - 1];
  }

  function Digit(d: nat): char
    requires d < 10
  {
    "0123456789"[d]
  }

  predicate IsDigit(c: char) {
    '0' <= c <= '9'
  }

  function DigitValue(c: char): nat
    requires IsDigit(c)
  {
    c as int - '0' as int
  }

  /** `strconv.Itoa` for a non-negative number: decimal digits without
      leading zeros. */
  function NatToDecimal(n: nat): (r: string)
    ensures |r| >= 1 && (r[0] == '0' ==> |r| == 1)
    ensures forall k :: 0 <= k < |r| ==> IsDigit(r[k])
  {
    if n < 10 then [Digit(n)] else NatToDecimal(n / 10) + [Digit(n % 10)]
  }

  /** The value of a string of decimal digits, the reference reading of
      `NatToDecimal`. */
  function DecimalValue(s: string): nat
    requires forall k :: 0 <= k < |s| ==> IsDigit(s[k])
  {
    if s == [] then 0 else DecimalValue(s[..|s| - 1]) * 10 + DigitValue(s[|s| - 1])
  }

  lemma {:induction false} DecimalRoundTrip(n: nat)
    ensures DecimalValue(NatToDecimal(n)) == n
  {
    if n >= 10 {
      var r := NatToDecimal(n);
      assert r[..|r| - 1] == NatToDecimal(n / 10);
      DecimalRoundTrip(n / 10);
      assert DigitValue(Digit(n % 10)) == n % 10;
    } else {
      assert DigitValue(Digit(n)) == n;
    }
  }

  /** Different numbers have different renderings. */
  lemma NatToDecimalInjective(m: nat, n: nat)
    requires NatToDecimal(m) == NatToDecimal(n)
    ensures m == n
  {
    DecimalRoundTrip(m);
    DecimalRoundTrip(n);
  }

  /** `fmt.Sprintf("%v", n)` for a signed integer. */
  function IntToDecimal(n: int): (r: string)
    ensures |r| >= 1
    ensures r[0] == '-' <==> n < 0
    ensures n >= 0 ==> r == NatToDecimal(n)
  {
    if n < 0 then "-" + NatToDecimal(-n) else NatToDecimal(n)
  }

  /** Reading back a rendering of `IntToDecimal`. */
  function ParseInt(s: string): int
    requires |s| >= 1
    requires forall k :: (if s[0] == '-' then 1 else 0) <= k < |s| ==> IsDigit(s[k])
  {
    if s[0] == '-' then -(DecimalValue(s[1..]) as int) else DecimalValue(s)
  }

  lemma IntRoundTrip(n: int)
    ensures ParseInt(IntToDecimal(n)) == n
  {
    var r := IntToDecimal(n);
    if n < 0 {
      var d := NatToDecimal(-n);
      assert r == "-" + d;
      assert r[1..] == d;
      forall k | 1 <= k < |r|
        ensures IsDigit(r[k])
      {
        assert r[k] == d[k - 1];
      }
      DecimalRoundTrip(-n);
      assert ParseInt(r) == -(DecimalValue(d) as int);
    } else {
      assert IsDigit(r[0]);
      DecimalRoundTrip(n);
    }
  }
}
