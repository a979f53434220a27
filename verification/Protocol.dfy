/** Data tokens of a request payload and of a response, and the PLC error codes. */
module Protocol {
  import opened Wrappers
  import opened Text

  /** Data formats; `Bit` is the empty format of direct bit devices. */
  datatype Format = Bit | U | S | D | L | H

  /** A caller's value: Python keeps `bool` apart from `int`. */
  datatype Value = Bool(b: bool) | Int(n: int)

  /** A decoded token. */
  datatype Decoded = Number(n: int) | Text(t: string)

  function Lowest(f: Format): int {
    match f case S => -0x8000 case L => -0x8000_0000 case _ => 0
  }

  function Highest(f: Format): int {
    match f
    case Bit => 1
    case U => 0xFFFF
    case S => 0x7FFF
    case D => 0xFFFF_FFFF
    case L => 0x7FFF_FFFF
    case H => 0xFFFF
  }

  function RenderInt(n: int): string { if n < 0 then "-" + Render(-n, 10) else Render(n, 10) }

  /** `_format_value`; none is the raised range or type error. */
  function FormatValue(v: Value, f: Format): Option<string> {
    match v
    case Bool(b) => if f == Bit then Some(if b then "1" else "0") else None
    case Int(n) =>
      if f == Bit || n < Lowest(f) || n > Highest(f) then None
      else Some(if f == H then Render(n, 16) else RenderInt(n))
  }

  predicate IsDelimiter(c: char) { c == ' ' || c == ',' }

  function TokenLength(s: string): (n: nat)
    ensures n <= |s| && forall i :: 0 <= i < n ==> !IsDelimiter(s[i])
    ensures n < |s| ==> IsDelimiter(s[n])
  {
    if s == [] || IsDelimiter(s[0]) then 0 else 1 + TokenLength(s[1..])
  }

  /** The non-empty tokens between runs of spaces and commas. */
  function SplitTokens(s: string): seq<string>
    decreases |s|
  {
    if s == [] then []
    else if IsDelimiter(s[0]) then SplitTokens(s[1..])
    else [s[..TokenLength(s)]] + SplitTokens(s[TokenLength(s)..])
  }

  /** An unsigned decimal token, or one with an optional sign. */
  function ParseInt(token: string, signed: bool): Option<int> {
    var negative := signed && token != [] && token[0] == '-';
    var digits := if negative || (signed && token != [] && token[0] == '+') then token[1..] else token;
    if digits == [] || !AllDigits(digits) then None
    else
      DigitsAreNumeral(digits);
      var n: int := ValueOf(digits, 10);
      Some(if negative then -n else n)
  }

  /** Four hexadecimal digits. */
  function Hex4(n: nat): string
    requires n < 0x1_0000
  {
    [DigitChar(n / 0x1000), DigitChar(n / 0x100 % 0x10), DigitChar(n / 0x10 % 0x10), DigitChar(n % 0x10)]
  }

  lemma {:induction false} ShortNumeral(s: string, k: nat)
    requires Numeral(s, 16) && |s| <= k <= 4
    ensures ValueOf(s, 16) < [1, 0x10, 0x100, 0x1000, 0x1_0000][k]
  {
    if s != [] {
      ShortNumeral(s[..|s| - 1], k - 1);
    }
  }

  /** `parse_scalar_token`; none is the raised protocol error. */
  function ParseScalar(token: string, f: Format): Option<Decoded> {
    match f
    case H =>
      var t := Upper(token);
      if 1 <= |t| <= 4 && Numeral(t, 16) then
        ShortNumeral(t, 4);
        Some(Text(Hex4(ValueOf(t, 16))))
      else None
    case Bit =>
      var t := Upper(token);
      if t == "1" || t == "ON" then Some(Number(1))
      else if t == "0" || t == "OFF" then Some(Number(0))
      else None
    case _ =>
      match ParseInt(token, f == S || f == L)
      case None => None
      case Some(n) => if Lowest(f) <= n <= Highest(f) then Some(Number(n)) else None
  }

  function ParseTokens(tokens: seq<string>, f: Format): Option<seq<Decoded>> {
    if tokens == [] then Some([])
    else
      match ParseScalar(tokens[0], f)
      case None => None
      case Some(d) =>
        match ParseTokens(tokens[1..], f)
        case None => None
        case Some(rest) => Some([d] + rest)
  }

  /** `ERROR_RE`: the response is a PLC error code. */
  predicate IsErrorCode(text: string) { |text| == 2 && text[0] == 'E' && IsDigit(text[1]) }

  // ---------------------------------------------------------------- a payload reads back as its values

  function FormatAll(values: seq<Value>, f: Format): Option<seq<string>> {
    if values == [] then Some([])
    else
      match FormatValue(values[0], f)
      case None => None
      case Some(t) =>
        match FormatAll(values[1..], f)
        case None => None
        case Some(rest) => Some([t] + rest)
  }

  /** `" ".join(tokens)` */
  function Join(tokens: seq<string>): string {
    if tokens == [] then []
    else if |tokens| == 1 then tokens[0]
    else tokens[0] + " " + Join(tokens[1..])
  }

  /** What a written value is when read back under its own format. */
  function ReadBack(v: Value, f: Format): Decoded
    requires FormatValue(v, f).Some?
  {
    match v
    case Bool(b) => Number(if b then 1 else 0)
    case Int(n) => if f == H then Text(Hex4(n)) else Number(n)
  }

  predicate IsToken(t: string) { t != [] && forall i :: 0 <= i < |t| ==> !IsDelimiter(t[i]) }

  lemma {:induction false} RenderShort(n: nat, k: nat)
    requires 1 <= k <= 4 && n < [1, 0x10, 0x100, 0x1000, 0x1_0000][k]
    ensures |Render(n, 16)| <= k
  {
    if n >= 16 {
      RenderShort(n / 16, k - 1);
    }
  }

  /** What a payload is when read back. */
  function ReadBackAll(values: seq<Value>, f: Format): (ds: seq<Decoded>)
    requires FormatAll(values, f).Some?
    ensures |ds| == |values|
    ensures forall i :: 0 <= i < |values| ==> FormatValue(values[i], f).Some? && ds[i] == ReadBack(values[i], f)
  {
    if values == [] then [] else [ReadBack(values[0], f)] + ReadBackAll(values[1..], f)
  }

  lemma HexIsToken(n: nat)
    requires n < 0x1_0000
    ensures IsToken(Render(n, 16)) && ParseScalar(Render(n, 16), H) == Some(Text(Hex4(n)))
  {
    var t := Render(n, 16);
    NumeralIsPlain(t, 16);
    PlainIsFixed(t);
    RenderShort(n, 4);
  }

  lemma DecimalIsToken(n: int, signed: bool)
    requires n >= 0 || signed
    ensures IsToken(RenderInt(n)) && ParseInt(RenderInt(n), signed) == Some(n)
  {
    var digits := Render(if n < 0 then -n else n, 10);
    DigitsAreNumeral(digits);
    assert n < 0 ==> RenderInt(n)[1..] == digits;
  }

  lemma FormatIsToken(v: Value, f: Format)
    requires FormatValue(v, f).Some?
    ensures IsToken(FormatValue(v, f).value)
    ensures ParseScalar(FormatValue(v, f).value, f) == Some(ReadBack(v, f))
  {
    match v
    case Bool(b) =>
      assert Upper("1") == "1" && Upper("0") == "0";
    case Int(n) =>
      if f == H {
        HexIsToken(n);
      } else {
        DecimalIsToken(n, f == S || f == L);
      }
  }

  lemma {:induction false} SplitToken(t: string, rest: string)
    requires IsToken(t) && (rest == [] || IsDelimiter(rest[0]))
    ensures SplitTokens(t + rest) == [t] + SplitTokens(rest)
  {
    var s := t + rest;
    var n := TokenLength(s);
    assert rest != [] ==> s[|t|] == rest[0];
    assert n == |t|;
    assert s[..n] == t && s[n..] == rest;
  }

  lemma {:induction false} SplitJoin(tokens: seq<string>)
    requires forall i :: 0 <= i < |tokens| ==> IsToken(tokens[i])
    ensures SplitTokens(Join(tokens)) == tokens
  {
    if |tokens| == 1 {
      SplitToken(tokens[0], []);
      assert tokens[0] + [] == tokens[0];
    } else if |tokens| > 1 {
      var rest := " " + Join(tokens[1..]);
      SplitToken(tokens[0], rest);
      assert tokens[0] + " " + Join(tokens[1..]) == tokens[0] + rest;
      assert rest[1..] == Join(tokens[1..]);
      SplitJoin(tokens[1..]);
    }
  }

  lemma {:induction false} FormatAllReads(values: seq<Value>, f: Format)
    requires FormatAll(values, f).Some?
    ensures forall i :: 0 <= i < |FormatAll(values, f).value| ==> IsToken(FormatAll(values, f).value[i])
    ensures ParseTokens(FormatAll(values, f).value, f) == Some(ReadBackAll(values, f))
  {
    if values != [] {
      FormatIsToken(values[0], f);
      FormatAllReads(values[1..], f);
      assert FormatAll(values, f).value[1..] == FormatAll(values[1..], f).value;
    }
  }

  /** A payload of any length, split and parsed under its own format, gives back its values. */
  lemma PayloadReadsBack(values: seq<Value>, f: Format)
    requires FormatAll(values, f).Some?
    ensures ParseTokens(SplitTokens(Join(FormatAll(values, f).value)), f) == Some(ReadBackAll(values, f))
  {
    FormatAllReads(values, f);
    SplitJoin(FormatAll(values, f).value);
  }
}
