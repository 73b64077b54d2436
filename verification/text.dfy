/** String operations of the JavaScript runtime that the controllers rely on:
    number-to-text conversion, `Array.prototype.join`, `String.prototype.split`
    and `String.prototype.trim`. Strings are sequences of UTF-16-free
    characters; no normalisation is modelled. */
module Text {
  import opened Wrappers

  /** The characters a rendered number may consist of. */
  predicate IsNumeralChar(c: char) {
    ('0' <= c <= '9') || c == '-' || c == '.'
  }

  predicate IsDigit(c: char) {
    '0' <= c <= '9'
  }

  predicate AllDigits(s: string) {
    forall i :: 0 <= i < |s| ==> IsDigit(s[i])
  }

  function DigitChar(d: int): (c: char)
    requires 0 <= d < 10
    ensures IsDigit(c) && (c as int) - ('0' as int) == d
  {
    ('0' as int + d) as char
  }

  /** The decimal numeral of a natural number, without leading zeros. */
  function NatText(n: nat): (s: string)
    ensures |s| >= 1 && AllDigits(s)
    ensures |s| > 1 ==> s[0] != '0'
    decreases n
  {
    if n < 10 then [DigitChar(n)] else NatText(n / 10) + [DigitChar(n % 10)]
  }

  /** The value of a string of decimal digits (leading zeros allowed). */
  function DigitsValue(s: string): nat
    requires AllDigits(s)
    decreases |s|
  {
    if |s| == 0 then 0
    else DigitsValue(s[..|s| - 1]) * 10 + ((s[|s| - 1] as int) - ('0' as int))
  }

  /** Reading back a rendered natural number yields the number itself. */
  lemma {:induction false} DigitsValueOfNatText(n: nat)
    ensures DigitsValue(NatText(n)) == n
    decreases n
  {
    if n >= 10 {
      DigitsValueOfNatText(n / 10);
      var s := NatText(n);
      assert s[..|s| - 1] == NatText(n / 10);
    }
  }

  /** JavaScript's rendering of an integer-valued number. */
  function IntText(i: int): (s: string)
    ensures |s| >= 1
    ensures forall k :: 0 <= k < |s| ==> IsNumeralChar(s[k])
  {
    if i < 0 then "-" + NatText(-i) else NatText(i)
  }

  /** `s` left-padded with zeros to at least `width` characters. */
  function ZeroPad(s: string, width: nat): string {
    if |s| >= width then s else seq(width - |s|, _ => '0') + s
  }

  function Pow10(k: nat): (p: nat)
    ensures p >= 1
  {
    if k == 0 then 1 else 10 * Pow10(k - 1)
  }

  /** A number below `10^k` has at most `k` digits. */
  lemma {:induction false} NatTextWidth(n: nat, k: nat)
    requires 1 <= k && n < Pow10(k)
    ensures |NatText(n)| <= k
    decreases k
  {
    if n >= 10 {
      assert Pow10(1) == 10;
      assert Pow10(k) == 10 * Pow10(k - 1);
      NatTextWidth(n / 10, k - 1);
    }
  }

  predicate IsWhole(r: real) {
    r.Floor as real == r
  }

  /** `r * 10^k` is a whole number. */
  predicate WholeAtScale(r: real, k: nat) {
    IsWhole(r * (Pow10(k) as real))
  }

  /** The number of fraction digits JavaScript prints for `r`: the least `k`
      with `r * 10^k` whole, searched up to 20 digits. */
  function FractionDigits(r: real, k: nat): (d: nat)
    requires k <= 20
    ensures k <= d <= 20
    ensures d < 20 ==> WholeAtScale(r, d)
    decreases 20 - k
  {
    if k == 20 then k
    else if WholeAtScale(r, k) then k
    else FractionDigits(r, k + 1)
  }

  /** JavaScript's `Number.prototype.toString` for a finite number written
      in positional notation. */
  function DecimalText(r: real): (s: string)
    ensures |s| >= 1
    ensures forall k :: 0 <= k < |s| ==> IsNumeralChar(s[k])
  {
    if r < 0.0 then "-" + UnsignedDecimalText(-r) else UnsignedDecimalText(r)
  }

  function UnsignedDecimalText(r: real): (s: string)
    requires r >= 0.0
    ensures |s| >= 1
    ensures forall k :: 0 <= k < |s| ==> IsNumeralChar(s[k])
  {
    var whole := r.Floor;
    var d := FractionDigits(r, 0);
    if d == 0 then NatText(whole)
    else
      var scaled := (r * (Pow10(d) as real)).Floor - whole * Pow10(d);
      var fraction := if scaled < 0 then 0 else scaled;
      NatText(whole) + "." + ZeroPad(NatText(fraction), d)
  }

  /** JavaScript's rendering of a number held in tenths, as in `x / 10`. */
  function TenthsText(t: int): string {
    DecimalText(t as real / 10.0)
  }

  lemma UnsignedWholeText(n: nat)
    ensures UnsignedDecimalText(n as real) == NatText(n)
  {
    assert Pow10(0) == 1;
    assert WholeAtScale(n as real, 0);
    assert FractionDigits(n as real, 0) == 0;
  }

  /** A whole number of tenths is rendered without a fraction part. */
  lemma TenthsTextOfWhole(n: int)
    ensures TenthsText(10 * n) == IntText(n)
  {
    assert (10 * n) as real / 10.0 == n as real;
    if n < 0 {
      assert -(n as real) == (-n) as real;
      UnsignedWholeText(-n);
    } else {
      UnsignedWholeText(n);
    }
  }

  /** `Array.prototype.join` over strings. */
  function Join(xs: seq<string>, sep: string): string
    decreases |xs|
  {
    if |xs| == 0 then ""
    else if |xs| == 1 then xs[0]
    else xs[0] + sep + Join(xs[1..], sep)
  }

  /** `t` occurs in `s` at position `i`. */
  predicate MatchAt(s: string, t: string, i: int) {
    0 <= i && i + |t| <= |s| && s[i..i + |t|] == t
  }

  /** `t` occurs in `s` as a contiguous block. */
  predicate Contains(s: string, t: string) {
    exists i | 0 <= i <= |s| - |t| :: MatchAt(s, t, i)
  }

  lemma ContainsMiddle(a: string, b: string, c: string)
    ensures Contains(a + b + c, b)
  {
    var s := a + b + c;
    assert s[|a|..|a| + |b|] == b;
    assert MatchAt(s, b, |a|);
  }

  lemma ContainsLeft(a: string, b: string)
    ensures Contains(a + b, a)
  {
    assert (a + b)[..|a|] == a;
    assert MatchAt(a + b, a, 0);
  }

  lemma ContainsRight(a: string, b: string)
    ensures Contains(a + b, b)
  {
    assert (a + b)[|a|..] == b;
    assert MatchAt(a + b, b, |a|);
  }

  /** Containment is transitive. */
  lemma ContainsTrans(a: string, b: string, c: string)
    requires Contains(a, b) && Contains(b, c)
    ensures Contains(a, c)
  {
    var i :| 0 <= i <= |a| - |b| && MatchAt(a, b, i);
    var j :| 0 <= j <= |b| - |c| && MatchAt(b, c, j);
    assert b == a[i..i + |b|] && c == b[j..j + |c|];
    assert forall t :: 0 <= t < |c| ==> c[t] == b[j + t] == a[i + j + t];
    assert a[i + j..i + j + |c|] == c;
    assert MatchAt(a, c, i + j);
  }

  /** A joined list contains each of its elements. */
  lemma {:induction false} JoinContains(xs: seq<string>, sep: string, k: nat)
    requires k < |xs|
    ensures Contains(Join(xs, sep), xs[k])
    decreases |xs|
  {
    if |xs| == 1 {
      ContainsMiddle("", xs[0], "");
      assert "" + xs[0] + "" == xs[0];
    } else if k == 0 {
      ContainsMiddle("", xs[0], sep + Join(xs[1..], sep));
      assert "" + xs[0] + (sep + Join(xs[1..], sep)) == Join(xs, sep);
    } else {
      JoinContains(xs[1..], sep, k - 1);
      ContainsMiddle(xs[0] + sep, Join(xs[1..], sep), "");
      assert xs[0] + sep + Join(xs[1..], sep) + "" == Join(xs, sep);
      ContainsTrans(Join(xs, sep), Join(xs[1..], sep), xs[k]);
    }
  }

  /** The position of the first occurrence of `sep` in `s`. */
  function IndexOf(s: string, sep: string): (r: Option<nat>)
    requires |sep| > 0
    ensures r.Some? ==> MatchAt(s, sep, r.value)
    ensures r.Some? ==> forall k :: 0 <= k < r.value ==> !MatchAt(s, sep, k)
    ensures r.None? ==> forall k :: !MatchAt(s, sep, k)
    decreases |s|
  {
    if |s| < |sep| then None
    else if s[..|sep|] == sep then Some(0)
    else
      assert !MatchAt(s, sep, 0);
      match IndexOf(s[1..], sep)
      case None =>
        assert forall k :: 1 <= k ==> MatchAt(s, sep, k) == MatchAt(s[1..], sep, k - 1);
        None
      case Some(i) =>
        assert forall k :: 1 <= k ==> MatchAt(s, sep, k) == MatchAt(s[1..], sep, k - 1);
        Some(i + 1)
  }

  /** `String.prototype.split` with a non-empty separator string. */
  function Split(s: string, sep: string): (parts: seq<string>)
    requires |sep| > 0
    ensures |parts| >= 1
    ensures Join(parts, sep) == s
    decreases |s|
  {
    match IndexOf(s, sep)
    case None => [s]
    case Some(i) =>
      var rest := Split(s[i + |sep|..], sep);
      var parts := [s[..i]] + rest;
      assert parts[1..] == rest;
      assert s == s[..i] + sep + s[i + |sep|..];
      parts
  }

  /** Splitting a joined list gives the list back when the one-character
      separator occurs in none of its elements. */
  lemma {:induction false} SplitJoin(xs: seq<string>, sep: string)
    requires |xs| >= 1 && |sep| == 1
    requires forall k :: 0 <= k < |xs| ==> sep[0] !in xs[k]
    ensures Split(Join(xs, sep), sep) == xs
    decreases |xs|
  {
    var x := xs[0];
    forall k | 0 <= k < |x|
      ensures !MatchAt(x, sep, k)
    {
      assert x[k..k + 1][0] == x[k];
    }
    if |xs| == 1 {
      assert forall k :: !MatchAt(x, sep, k);
      assert IndexOf(x, sep).None?;
    } else {
      var rest := Join(xs[1..], sep);
      var s := x + sep + rest;
      assert Join(xs, sep) == s;
      assert s[|x|..|x| + 1] == sep;
      assert MatchAt(s, sep, |x|);
      forall k | 0 <= k < |x|
        ensures !MatchAt(s, sep, k)
      {
        assert s[k..k + 1] == x[k..k + 1];
        assert !MatchAt(x, sep, k);
      }
      var r := IndexOf(s, sep);
      assert r.Some?;
      assert r.value == |x|;
      assert s[..|x|] == x;
      assert s[|x| + 1..] == rest;
      SplitJoin(xs[1..], sep);
      assert Split(s, sep) == [x] + xs[1..];
    }
  }

  lemma SuffixOfSuffix(s: string, a: nat, r: string)
    requires a <= |s| && |r| <= |s| - a && r == s[a..][|s| - a - |r|..]
    ensures r == s[|s| - |r|..]
  {
  }

  lemma MatchInSuffix(s: string, a: nat, t: string, j: int)
    requires a <= |s| && MatchAt(s[a..], t, j)
    ensures MatchAt(s, t, a + j)
  {
    assert s[a..][j..j + |t|] == s[a + j..a + j + |t|];
  }

  /** The last component of `s[o..].split(sep)`, as `pop()` returns it: the
      search for the separator restarts after each occurrence it finds. The
      component is a suffix of `s`; it follows an occurrence of the
      separator unless it is all of `s[o..]`, and no occurrence starts
      inside it. */
  function LastPartFrom(s: string, sep: string, o: nat): (l: string)
    requires |sep| > 0 && o <= |s|
    ensures |l| <= |s| - o && l == s[|s| - |l|..]
    ensures |l| < |s| - o ==> |l| + |sep| <= |s| - o && MatchAt(s, sep, |s| - |l| - |sep|)
    ensures forall j :: |s| - |l| <= j ==> !MatchAt(s, sep, j)
    decreases |s| - o
  {
    match IndexOf(s[o..], sep)
    case None =>
      NoMatchInSuffix(s, o, sep);
      s[o..]
    case Some(i) =>
      MatchInSuffix(s, o, sep, i);
      LastPartFrom(s, sep, o + i + |sep|)
  }

  lemma NoMatchInSuffix(s: string, o: nat, sep: string)
    requires |sep| > 0 && o <= |s| && IndexOf(s[o..], sep).None?
    ensures forall j :: o <= j ==> !MatchAt(s, sep, j)
  {
    forall j | o <= j ensures !MatchAt(s, sep, j) {
      if j + |sep| <= |s| {
        assert s[o..][j - o..j - o + |sep|] == s[j..j + |sep|];
        assert !MatchAt(s[o..], sep, j - o);
      }
    }
  }

  /** `s.split(sep).pop()`. */
  function LastPart(s: string, sep: string): string
    requires |sep| > 0
  {
    LastPartFrom(s, sep, 0)
  }

  /** The last component is the text after the last occurrence of the
      separator, or the whole string when there is none; it never contains
      the separator. */
  lemma LastPartIsLastComponent(s: string, sep: string)
    requires |sep| > 0
    ensures var l := LastPart(s, sep);
      && |l| <= |s| && l == s[|s| - |l|..]
      && !Contains(l, sep)
      && (Contains(s, sep) ==> |l| + |sep| <= |s| && MatchAt(s, sep, |s| - |l| - |sep|))
      && (!Contains(s, sep) ==> l == s)
  {
    LastPartHasNoSeparator(s, sep);
    if Contains(s, sep) {
      LastPartFollowsSeparator(s, sep);
    } else {
      LastPartWithoutSeparator(s, sep);
    }
  }

  lemma LastPartHasNoSeparator(s: string, sep: string)
    requires |sep| > 0
    ensures !Contains(LastPart(s, sep), sep)
  {
    var l := LastPart(s, sep);
    var a := |s| - |l|;
    forall j | 0 <= j <= |l| - |sep| ensures !MatchAt(l, sep, j) {
      SliceOfSuffix(s, a, j, |sep|);
      assert !MatchAt(s, sep, a + j);
    }
  }

  lemma LastPartFollowsSeparator(s: string, sep: string)
    requires |sep| > 0 && Contains(s, sep)
    ensures var l := LastPart(s, sep);
      |l| + |sep| <= |s| && MatchAt(s, sep, |s| - |l| - |sep|)
  {
    var l := LastPart(s, sep);
    var i :| 0 <= i <= |s| - |sep| && MatchAt(s, sep, i);
    assert i < |s| - |l|;
  }

  lemma LastPartWithoutSeparator(s: string, sep: string)
    requires |sep| > 0 && !Contains(s, sep)
    ensures LastPart(s, sep) == s
  {
    var l := LastPart(s, sep);
    if |l| < |s| {
      assert false;
    }
  }

  lemma SliceOfSuffix(s: string, a: nat, j: nat, n: nat)
    requires a + j + n <= |s|
    ensures s[a..][j..j + n] == s[a + j..a + j + n]
  {
  }

  /** The characters `String.prototype.trim` removes: the ECMAScript
      WhiteSpace and LineTerminator code points. */
  predicate IsJsSpace(c: char) {
    || c == '\t' || c == '\n' || c == '\U{000B}' || c == '\U{000C}' || c == '\r'
    || c == ' ' || c == '\U{00A0}' || c == '\U{1680}'
    || ('\U{2000}' <= c <= '\U{200A}')
    || c == '\U{2028}' || c == '\U{2029}' || c == '\U{202F}' || c == '\U{205F}'
    || c == '\U{3000}' || c == '\U{FEFF}'
  }

  function TrimStart(s: string): (r: string)
    ensures |r| <= |s| && r == s[|s| - |r|..]
    ensures forall k :: 0 <= k < |s| - |r| ==> IsJsSpace(s[k])
    ensures |r| > 0 ==> !IsJsSpace(r[0])
    decreases |s|
  {
    if |s| > 0 && IsJsSpace(s[0]) then
      var r := TrimStart(s[1..]);
      assert forall k :: 1 <= k < |s| - |r| ==> s[k] == s[1..][k - 1];
      r
    else s
  }

  function TrimEnd(s: string): (r: string)
    ensures |r| <= |s| && r == s[..|r|]
    ensures forall k :: |r| <= k < |s| ==> IsJsSpace(s[k])
    ensures |r| > 0 ==> !IsJsSpace(r[|r| - 1])
    decreases |s|
  {
    if |s| > 0 && IsJsSpace(s[|s| - 1]) then TrimEnd(s[..|s| - 1]) else s
  }

  /** `String.prototype.trim`: the longest block of `s` that neither starts
      nor ends with white space, obtained by removing white space only. */
  function Trim(s: string): (r: string)
    ensures Contains(s, r)
    ensures |r| > 0 ==> !IsJsSpace(r[0]) && !IsJsSpace(r[|r| - 1])
  {
    var t := TrimStart(s);
    var r := TrimEnd(t);
    assert s[|s| - |t|..][..|r|] == s[|s| - |t|..|s| - |t| + |r|];
    assert MatchAt(s, r, |s| - |t|);
    r
  }

  lemma TrimIdentity(s: string)
    requires |s| > 0 ==> !IsJsSpace(s[0]) && !IsJsSpace(s[|s| - 1])
    ensures Trim(s) == s
  {
  }
}
