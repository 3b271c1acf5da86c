/** The few Python string built-ins that the upload handler relies on:
    `str.lower()` (on ASCII letters), `str.rsplit('.', 1)`, `str(int)`
    and the f-string `f"{w}x{h}"` used for resolutions. */
module Strings {
  import opened Wrappers

  /** `c.lower()` for one character, restricted to the ASCII letters. */
  function LowerChar(c: char): (r: char)
    ensures 'A' <= c <= 'Z' ==> r as int == c as int - 'A' as int + 'a' as int
    ensures !('A' <= c <= 'Z') ==> r == c
    ensures !('A' <= r <= 'Z')
    ensures 'a' <= c <= 'z' ==> r == c
    ensures r == '.' <==> c == '.'
  {
    if 'A' <= c <= 'Z' then (c as int - 'A' as int + 'a' as int) as char else c
  }

  /** No ASCII upper-case letter occurs in `s`. */
  predicate IsLower(s: string) {
    forall i :: 0 <= i < |s| ==> !('A' <= s[i] <= 'Z')
  }

  /** `s.lower()`, character by character: the result has no upper-case
      letter, and text that is already lower case comes back unchanged. */
  function Lower(s: string): (r: string)
    ensures |r| == |s|
    ensures forall i :: 0 <= i < |s| ==> r[i] == LowerChar(s[i])
    ensures IsLower(r)
    ensures IsLower(s) ==> r == s
  {
    seq(|s|, i requires 0 <= i < |s| => LowerChar(s[i]))
  }

  /** Lower-casing is idempotent. */
  lemma LowerIdempotent(s: string)
    ensures Lower(Lower(s)) == Lower(s)
  {
  }

  /** Lower-casing commutes with taking a suffix. */
  lemma LowerSuffix(s: string, k: nat)
    requires k <= |s|
    ensures Lower(s[k..]) == Lower(s)[k..]
  {
  }

  /** Strings that lower-case alike have their dots at the same positions. */
  lemma LowerKeepsDots(s: string, t: string)
    requires Lower(s) == Lower(t)
    ensures |s| == |t|
    ensures forall j :: 0 <= j < |s| ==> (s[j] == '.' <==> t[j] == '.')
  {
    forall j | 0 <= j < |s| ensures s[j] == '.' <==> t[j] == '.' {
      assert LowerChar(s[j]) == LowerChar(t[j]);
    }
  }

  /** Index of the last '.' in `s`, or -1 when `s` contains none. */
  function LastDot(s: string): (i: int)
    ensures -1 <= i < |s|
    ensures i >= 0 ==> s[i] == '.'
    ensures forall j :: i < j < |s| ==> s[j] != '.'
  {
    if s == [] then -1
    else if s[|s| - 1] == '.' then |s| - 1
    else LastDot(s[..|s| - 1])
  }

  /** The last '.' is the only '.' that has no other '.' after it: two strings
      with their dots at the same positions have their last dot at the same place. */
  lemma LastDotByPositions(s: string, t: string)
    requires |s| == |t|
    requires forall j :: 0 <= j < |s| ==> (s[j] == '.' <==> t[j] == '.')
    ensures LastDot(s) == LastDot(t)
  {
  }

  /** `s.rsplit('.', 1)[1]`: the text after the last '.'. Python only has a
      second component when `s` contains a '.'. */
  function AfterLastDot(s: string): (ext: string)
    requires '.' in s
    ensures '.' !in ext
    ensures |ext| < |s| && s == s[..|s| - |ext| - 1] + "." + ext
  {
    var i := LastDot(s);
    assert s == s[..i] + "." + s[i + 1..];
    s[i + 1..]
  }

  /** Strings that lower-case alike agree on having a '.', and their
      extensions lower-case alike. */
  lemma LowerAfterLastDot(s: string, t: string)
    requires Lower(s) == Lower(t)
    ensures ('.' in s) == ('.' in t)
    ensures '.' in s ==> Lower(AfterLastDot(s)) == Lower(AfterLastDot(t))
  {
    LowerKeepsDots(s, t);
    if '.' in s {
      var j :| 0 <= j < |s| && s[j] == '.';
      assert t[j] == '.';
    }
    if '.' in t {
      var j :| 0 <= j < |t| && t[j] == '.';
      assert s[j] == '.';
    }
    if '.' in s {
      LastDotByPositions(s, t);
      var k := LastDot(s) + 1;
      assert AfterLastDot(s) == s[k..] && AfterLastDot(t) == t[k..];
      LowerSuffix(s, k);
      LowerSuffix(t, k);
    }
  }

  /** Whatever comes before the last '.', the suffix after it is the part
      that contains no '.': `(p + "." + e).rsplit('.', 1)[1] == e`. */
  lemma AfterLastDotOfJoin(p: string, e: string)
    requires '.' !in e
    ensures '.' in p + "." + e
    ensures AfterLastDot(p + "." + e) == e
  {
    var s := p + "." + e;
    assert s[|p|] == '.';
    assert s[|p| + 1..] == e;
  }

  /** The ASCII digit of `d`. */
  function DigitChar(d: nat): (c: char)
    requires d < 10
    ensures '0' <= c <= '9'
    ensures c as int - '0' as int == d
  {
    ('0' as int + d) as char
  }

  predicate IsDigits(s: string) {
    |s| >= 1 && forall i :: 0 <= i < |s| ==> '0' <= s[i] <= '9'
  }

  /** `str(n)` for a natural number: decimal digits without leading zeros. */
  function NatToDecimal(n: nat): (s: string)
    ensures IsDigits(s)
    ensures s[0] == '0' ==> n == 0 && |s| == 1
  {
    if n < 10 then [DigitChar(n)] else NatToDecimal(n / 10) + [DigitChar(n % 10)]
  }

  /** `int(s)` for a string of digits. */
  function DigitsValue(s: string): (n: nat)
    requires IsDigits(s)
  {
    var d := s[|s| - 1] as int - '0' as int;
    if |s| == 1 then d else DigitsValue(s[..|s| - 1]) * 10 + d
  }

  /** `str(i)` for any integer: a '-' before the digits of a negative value. */
  function IntToDecimal(i: int): (s: string)
    ensures IsIntLiteral(s)
    ensures s[0] == '-' <==> i < 0
  {
    if i < 0 then "-" + NatToDecimal(-i) else NatToDecimal(i)
  }

  predicate IsIntLiteral(s: string) {
    IsDigits(s) || (|s| >= 2 && s[0] == '-' && IsDigits(s[1..]))
  }

  /** `int(s)` for an optionally signed decimal literal. */
  function ParseInt(s: string): int
    requires IsIntLiteral(s)
  {
    if s[0] == '-' then -(DigitsValue(s[1..]) as int) else DigitsValue(s)
  }

  lemma {:induction false} NatToDecimalRoundTrip(n: nat)
    ensures DigitsValue(NatToDecimal(n)) == n
  {
    if n >= 10 {
      var s := NatToDecimal(n);
      assert s[..|s| - 1] == NatToDecimal(n / 10);
      NatToDecimalRoundTrip(n / 10);
    }
  }

  /** Reading back what `str(i)` printed gives `i`. */
  lemma IntToDecimalRoundTrip(i: int)
    ensures ParseInt(IntToDecimal(i)) == i
  {
    if i < 0 {
      var d := NatToDecimal(-i);
      var s := IntToDecimal(i);
      assert s == "-" + d && s[0] == '-';
      assert s[1..] == d;
      NatToDecimalRoundTrip(-i);
      assert ParseInt(s) == -(DigitsValue(d) as int);
    } else {
      NatToDecimalRoundTrip(i);
    }
  }

  /** Index of the first occurrence of `c` in `s`, or -1. */
  function IndexOf(s: string, c: char): (i: int)
    ensures -1 <= i < |s|
    ensures i >= 0 ==> s[i] == c
    ensures forall j :: 0 <= j < |s| && (i < 0 || j < i) ==> s[j] != c
  {
    if s == [] then -1
    else if s[0] == c then 0
    else var k := IndexOf(s[1..], c); if k < 0 then -1 else k + 1
  }

  /** Splits a "WxH" text back into its two integers. */
  function ParseResolution(s: string): Option<(int, int)> {
    var k := IndexOf(s, 'x');
    if k < 0 then None
    else if IsIntLiteral(s[..k]) && IsIntLiteral(s[k + 1..]) then
      Some((ParseInt(s[..k]), ParseInt(s[k + 1..])))
    else None
  }

  /** `f"{width}x{height}"`: the resolution text reported in the statistics. */
  function Resolution(width: int, height: int): string {
    IntToDecimal(width) + "x" + IntToDecimal(height)
  }

  /** The resolution text names exactly the width and height it was built from. */
  lemma ResolutionRoundTrip(width: int, height: int)
    ensures ParseResolution(Resolution(width, height)) == Some((width, height))
  {
    var a, b := IntToDecimal(width), IntToDecimal(height);
    var s := a + "x" + b;
    assert s[|a|] == 'x';
    assert s[..|a|] == a;
    assert s[|a| + 1..] == b;
    assert forall j :: 0 <= j < |a| ==> s[j] == a[j] && a[j] != 'x';
    assert IndexOf(s, 'x') == |a|;
    IntToDecimalRoundTrip(width);
    IntToDecimalRoundTrip(height);
  }

  /** Two resolution texts are equal only when both dimensions are. */
  lemma ResolutionInjective(w1: int, h1: int, w2: int, h2: int)
    requires Resolution(w1, h1) == Resolution(w2, h2)
    ensures w1 == w2 && h1 == h2
  {
    ResolutionRoundTrip(w1, h1);
    ResolutionRoundTrip(w2, h2);
  }
}
