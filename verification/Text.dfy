/** ASCII text as character sequences: classes of characters, stripping, upper case, and numerals of a radix. */
module Text {
  import opened Wrappers

  predicate IsDigit(c: char) { '0' <= c <= '9' }

  /** Upper-case hexadecimal digits. */
  predicate IsHex(c: char) { IsDigit(c) || 'A' <= c <= 'F' }

  predicate IsSpace(c: char) { c == ' ' || '\t' <= c <= '\r' || '\U{1c}' <= c <= '\U{1f}' }

  function UpperChar(c: char): char { if 'a' <= c <= 'z' then (c as int - 32) as char else c }

  function Upper(s: string): (u: string)
    ensures |u| == |s| && forall i :: 0 <= i < |s| ==> u[i] == UpperChar(s[i])
  {
    seq(|s|, i requires 0 <= i < |s| => UpperChar(s[i]))
  }

  function LStrip(s: string): (r: string)
    ensures |r| <= |s| && r == s[|s| - |r|..]
  {
    if s != [] && IsSpace(s[0]) then LStrip(s[1..]) else s
  }

  function RStrip(s: string): (r: string)
    ensures |r| <= |s| && r == s[..|r|]
  {
    if s != [] && IsSpace(s[|s| - 1]) then RStrip(s[..|s| - 1]) else s
  }

  function Strip(s: string): string { RStrip(LStrip(s)) }

  /** Text no `strip().upper()` changes. */
  predicate Plain(s: string) { forall i :: 0 <= i < |s| ==> !IsSpace(s[i]) && UpperChar(s[i]) == s[i] }

  lemma PlainIsFixed(s: string)
    requires Plain(s)
    ensures Strip(s) == s && Upper(s) == s
  {
    assert LStrip(s) == s;
    assert RStrip(s) == s;
  }

  /** The part before the first `c`, and the part after it. */
  function SplitFirst(s: string, c: char): (r: Option<(string, string)>)
    ensures c !in s <==> r == None
    ensures r.Some? ==> c !in r.value.0 && s == r.value.0 + [c] + r.value.1
  {
    if s == [] then None
    else if s[0] == c then Some(([], s[1..]))
    else
      match SplitFirst(s[1..], c)
      case None => None
      case Some((a, b)) => Some(([s[0]] + a, b))
  }

  lemma {:induction false} SplitFirstIs(a: string, c: char, b: string)
    requires c !in a
    ensures SplitFirst(a + [c] + b, c) == Some((a, b))
  {
    var s := a + [c] + b;
    if a == [] {
      assert s[1..] == b;
    } else {
      SplitFirstIs(a[1..], c, b);
      assert s[1..] == a[1..] + [c] + b && s[0] == a[0] != c;
      assert [s[0]] + a[1..] == a;
    }
  }

  // ---------------------------------------------------------------- numerals

  type Radix = b: int | b == 10 || b == 16 witness 10

  function DigitChar(d: nat): (c: char)
    requires d < 16
    ensures IsHex(c) && DigitOf(c) == d && (d < 10 <==> IsDigit(c))
  {
    if d < 10 then ('0' as int + d) as char else ('A' as int + d - 10) as char
  }

  function DigitOf(c: char): (d: nat)
    requires IsHex(c)
    ensures d < 16 && (IsDigit(c) <==> d < 10)
  {
    if IsDigit(c) then c as int - '0' as int else c as int - 'A' as int + 10
  }

  predicate Numeral(s: string, base: Radix) {
    forall i :: 0 <= i < |s| ==> IsHex(s[i]) && DigitOf(s[i]) < base
  }

  /** `int(s, base)`, on text made of digits of the base. */
  function ValueOf(s: string, base: Radix): nat
    requires Numeral(s, base)
  {
    if s == [] then 0 else ValueOf(s[..|s| - 1], base) * base + DigitOf(s[|s| - 1])
  }

  /** `str(n)` in decimal, `format(n, "X")` in hexadecimal. */
  function Render(n: nat, base: Radix): (s: string)
    ensures s != [] && Numeral(s, base) && ValueOf(s, base) == n
  {
    if n < base then
      var s := [DigitChar(n)];
      assert s[..|s| - 1] == [];
      s
    else
      var s := Render(n / base, base) + [DigitChar(n % base)];
      assert s[..|s| - 1] == Render(n / base, base);
      s
  }

  lemma ValueSnoc(s: string, c: char, base: Radix)
    requires Numeral(s, base) && IsHex(c) && DigitOf(c) < base
    ensures Numeral(s + [c], base) && ValueOf(s + [c], base) == ValueOf(s, base) * base + DigitOf(c)
  {
    assert (s + [c])[..|s|] == s;
  }

  /** Decimal digits alone, possibly none. */
  predicate AllDigits(s: string) { forall i :: 0 <= i < |s| ==> IsDigit(s[i]) }

  lemma DigitsAreNumeral(s: string)
    ensures AllDigits(s) <==> Numeral(s, 10)
  {
  }

  lemma NumeralIsPlain(s: string, base: Radix)
    requires Numeral(s, base)
    ensures Plain(s)
  {
  }
}
