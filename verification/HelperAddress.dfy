/** Helper addresses such as `DM100:F` or `DM100.A`: a device token with an explicit data type or a bit index. */
module HelperAddress {
  import opened Wrappers
  import opened Text
  import Protocol
  import Device

  /** `Word` carries one of the formats `U`, `S`, `D`, `L` and `H`. */
  datatype Dtype = Word(format: Protocol.Format) | Float | OneBit | BitInWord | Comment

  /** `HostLinkAddress` */
  datatype HelperAddress = HelperAddress(text: string, base: string, dtype: Dtype, bit: Option<int>)

  datatype AddressError =
    | BadDevice(error: Device.ParseError)
    | NoDtype
    | BadDtype
    | BadIndex
    | UnexpectedIndex
    | WrongFamily

  function DtypeText(d: Dtype): string {
    match d
    case Word(f) =>
      (match f case Bit => "" case U => "U" case S => "S" case D => "D" case L => "L" case H => "H")
    case Float => "F"
    case OneBit => "BIT"
    case BitInWord => "BIT_IN_WORD"
    case Comment => "COMMENT"
  }

  function DropDots(s: string): string {
    if s != [] && s[0] == '.' then DropDots(s[1..]) else s
  }

  function DtypeOf(key: string): (d: Option<Dtype>)
    ensures d != Some(Word(Protocol.Bit))
  {
    if |key| == 1 then
      match key[0]
      case 'F' => Some(Float)
      case 'U' => Some(Word(Protocol.U))
      case 'S' => Some(Word(Protocol.S))
      case 'D' => Some(Word(Protocol.D))
      case 'L' => Some(Word(Protocol.L))
      case 'H' => Some(Word(Protocol.H))
      case _ => None
    else if key == "BIT" then Some(OneBit)
    else if key == "BIT_IN_WORD" then Some(BitInWord)
    else if key == "COMMENT" then Some(Comment)
    else None
  }

  /** `_normalize_helper_dtype` */
  function NormalizeDtype(s: string): (r: Result<Dtype, AddressError>)
    ensures r.Ok? ==> r.value != Word(Protocol.Bit)
  {
    var key := DropDots(Upper(Strip(s)));
    if key == "" then Err(NoDtype)
    else
      match DtypeOf(key)
      case None => Err(BadDtype)
      case Some(d) => Ok(d)
  }

  /** `_parse_address`: the base text, the data type and the bit index. */
  function Interpret(address: string): Result<(string, Dtype, Option<int>), AddressError> {
    match SplitFirst(address, ':')
    case Some((base, dtype)) =>
      (match NormalizeDtype(dtype)
       case Err(e) => Err(e)
       case Ok(d) => Ok((Strip(base), d, None)))
    case None =>
      match SplitFirst(address, '.')
      case Some((base, index)) =>
        var digit := Upper(Strip(index));
        if |digit| == 1 && IsHex(digit[0]) then Ok((Strip(base), BitInWord, Some(DigitOf(digit[0]))))
        else Err(BadIndex)
      case None =>
        match Device.Parse(address)
        case Err(e) => Err(BadDevice(e))
        case Ok(a) =>
          if a.suffix == Protocol.Bit then Err(NoDtype) else Ok((Strip(address), Word(a.suffix), None))
  }

  /** `_validate_address_semantics` */
  predicate Suits(d: Dtype, f: Device.Family) {
    && (d == OneBit ==> Device.DirectBit(f))
    && (d == Float ==> Device.Float32Eligible(f))
    && (d == Comment ==> Device.HasComments(f))
  }

  function IndexText(bit: int): string
    requires 0 <= bit <= 15
  {
    [DigitChar(bit)]
  }

  /** `parse_address` */
  function ParseAddress(address: string): Result<HelperAddress, AddressError> {
    match Interpret(address)
    case Err(e) => Err(e)
    case Ok((raw, dtype, bit)) =>
      match Device.Parse(raw)
      case Err(e) => Err(BadDevice(e))
      case Ok(a) =>
        var base := Device.ToText(a);
        if !Suits(dtype, a.family) then Err(WrongFamily)
        else if dtype == BitInWord then
          if bit == None || !(0 <= bit.value <= 15) then Err(BadIndex)
          else Ok(HelperAddress(base + "." + IndexText(bit.value), base, dtype, bit))
        else Ok(HelperAddress(base + ":" + DtypeText(dtype), base, dtype, bit))
  }

  /** `format_address` on a parsed object, whose data type is given as text. */
  function FormatAddress(text: string, base: string, dtype: string, bit: Option<int>): Result<string, AddressError> {
    match Device.Parse(base)
    case Err(e) => Err(BadDevice(e))
    case Ok(a) =>
      match NormalizeDtype(dtype)
      case Err(e) => Err(e)
      case Ok(d) =>
        if d == BitInWord then
          if bit == None || !(0 <= bit.value <= 15) then Err(BadIndex)
          else TextOf(ParseAddress(Device.ToText(a) + "." + IndexText(bit.value)))
        else if bit != None then Err(UnexpectedIndex)
        else TextOf(ParseAddress(Device.ToText(a) + ":" + DtypeText(d)))
  }

  function TextOf(r: Result<HelperAddress, AddressError>): Result<string, AddressError> {
    match r case Err(e) => Err(e) case Ok(p) => Ok(p.text)
  }

  // ---------------------------------------------------------------- canonical texts read back

  /** A canonical token: plain, without a colon, and with a dot only in a suffix. */
  lemma TokenCharacters(a: Device.Address)
    requires Device.Valid(a)
    ensures var s := Device.ToText(a);
            Plain(s) && ':' !in s && (a.suffix == Protocol.Bit ==> '.' !in s)
  {
    var s := Device.ToText(a);
    forall i | 0 <= i < |s| ensures !IsSpace(s[i]) && UpperChar(s[i]) == s[i] && s[i] != ':' { Device.PlainAt(a, i); }
    if a.suffix == Protocol.Bit {
      Device.NamesHaveNoDigits(a.family);
      Device.NumberTextReads(a.family, a.number);
      assert s == Device.Name(a.family) + Device.NumberText(a.family, a.number);
    }
  }

  lemma DtypeTextFacts(d: Dtype)
    requires d != Word(Protocol.Bit)
    ensures var s := DtypeText(d); s != [] && Plain(s) && s[0] != '.' && DtypeOf(s) == Some(d)
  {
  }

  lemma DtypeReads(d: Dtype)
    requires d != Word(Protocol.Bit)
    ensures NormalizeDtype(DtypeText(d)) == Ok(d)
  {
    hide DtypeText, DtypeOf, Plain, Upper, Strip;
    DtypeTextFacts(d);
    PlainIsFixed(DtypeText(d));
    assert DropDots(DtypeText(d)) == DtypeText(d);
  }

  lemma DtypeOfIs(key: string)
    ensures DtypeOf(key).Some? ==> key == DtypeText(DtypeOf(key).value)
  {
    if |key| == 1 { assert key == [key[0]]; }
  }

  /** The accepted data type texts: its name, in any case, with spaces around it and dots before it. */
  lemma AcceptedDtypes(s: string, d: Dtype)
    ensures NormalizeDtype(s) == Ok(d) <==> d != Word(Protocol.Bit) && DropDots(Upper(Strip(s))) == DtypeText(d)
  {
    hide DtypeText, DtypeOf, Upper, Strip;
    DtypeOfIs(DropDots(Upper(Strip(s))));
    if d != Word(Protocol.Bit) { DtypeTextFacts(d); }
  }

  /** `TOKEN:DTYPE` reads as exactly that token and data type. */
  lemma ColonReads(a: Device.Address, d: Dtype)
    requires Device.Valid(a) && d != Word(Protocol.Bit)
    ensures Interpret(Device.ToText(a) + ":" + DtypeText(d)) == Ok((Device.ToText(a), d, None))
  {
    hide Device.ToText, DtypeText, NormalizeDtype, SplitFirst, Strip, Upper;
    var s := Device.ToText(a);
    TokenCharacters(a);
    SplitFirstIs(s, ':', DtypeText(d));
    PlainIsFixed(s);
    DtypeReads(d);
  }

  /** `TOKEN.X` reads as that bit of that word, when the token has no suffix of its own. */
  lemma DotReads(a: Device.Address, bit: int)
    requires Device.Valid(a) && a.suffix == Protocol.Bit && 0 <= bit <= 15
    ensures Interpret(Device.ToText(a) + "." + IndexText(bit)) == Ok((Device.ToText(a), BitInWord, Some(bit)))
  {
    hide Device.ToText, SplitFirst, Strip, Upper, Device.Parse;
    var s, index := Device.ToText(a), IndexText(bit);
    TokenCharacters(a);
    assert ':' !in s + "." + index;
    SplitFirstIs(s, '.', index);
    PlainIsFixed(s);
    PlainIsFixed(index);
  }

  /** With a suffix of its own, the token cannot carry a bit index. */
  lemma SuffixedDotFails(a: Device.Address, bit: int)
    requires Device.Valid(a) && a.suffix != Protocol.Bit && 0 <= bit <= 15
    ensures Interpret(Device.ToText(a) + "." + IndexText(bit)) == Err(BadIndex)
  {
    hide SplitFirst, Strip, Upper, Device.Parse, Device.Name, Device.NumberText;
    var index := IndexText(bit);
    var bare := Device.Name(a.family) + Device.NumberText(a.family, a.number);
    var rest := [Device.SuffixText(a.suffix)[1]] + "." + index;
    TokenCharacters(a);
    TokenCharacters(Device.Address(a.family, a.number, Protocol.Bit));
    assert Device.ToText(Device.Address(a.family, a.number, Protocol.Bit)) == bare;
    var t := Device.ToText(a) + "." + index;
    assert t == bare + ['.'] + rest;
    hide Device.ToText, Device.SuffixText;
    assert ':' !in t;
    SplitFirstIs(bare, '.', rest);
    assert Plain(rest);
    PlainIsFixed(rest);
  }

  // ---------------------------------------------------------------- round trips

  /** What an accepted address says about its base token. */
  lemma AcceptedBase(address: string)
    requires ParseAddress(address).Ok?
    ensures var p, raw := ParseAddress(address).value, Interpret(address).value.0;
            Device.Parse(raw).Ok? && p.base == Device.ToText(Device.Parse(raw).value)
            && Device.Valid(Device.Parse(raw).value) && p.dtype != Word(Protocol.Bit)
            && Suits(p.dtype, Device.Parse(raw).value.family)
  {
    hide Device.Parse, Device.ToText, SplitFirst;
    var raw := Interpret(address).value.0;
    Device.ParsedIsValid(raw);
  }

  /** A bit address has a base token without a suffix. */
  lemma BitBaseIsBare(address: string)
    requires ParseAddress(address).Ok? && ParseAddress(address).value.dtype == BitInWord
    ensures Device.Parse(Interpret(address).value.0).value.suffix == Protocol.Bit
  {
    hide Device.Parse, Device.ToText, NormalizeDtype, Strip, Upper, Device.Spells;
    NotFromDtype(address);
    var (base, index) := SplitFirst(address, '.').value;
    var raw := Strip(base);
    StripKeeps(base, '.');
    var a := Device.Parse(raw).value;
    Device.ParseIsSpelling(raw, a);
    NoDotNoSuffix(raw, a);
  }

  /** A bit index only comes from the dot notation. */
  lemma NotFromDtype(address: string)
    requires ParseAddress(address).Ok? && ParseAddress(address).value.dtype == BitInWord
    ensures SplitFirst(address, ':') == None && SplitFirst(address, '.').Some?
    ensures Interpret(address).value.0 == Strip(SplitFirst(address, '.').value.0)
  {
    hide Device.Parse, Device.ToText, NormalizeDtype, Strip, Upper, SplitFirst;
  }

  lemma {:induction false} LStripKeeps(s: string, c: char)
    ensures c !in s ==> c !in LStrip(s)
  {
    if s != [] && IsSpace(s[0]) { LStripKeeps(s[1..], c); }
  }

  lemma {:induction false} RStripKeeps(s: string, c: char)
    ensures c !in s ==> c !in RStrip(s)
  {
    if s != [] && IsSpace(s[|s| - 1]) { RStripKeeps(s[..|s| - 1], c); }
  }

  lemma StripKeeps(s: string, c: char)
    ensures c !in s ==> c !in Strip(s)
  {
    LStripKeeps(s, c);
    RStripKeeps(LStrip(s), c);
  }

  lemma NoDotNoSuffix(raw: string, a: Device.Address)
    requires '.' !in raw && Device.Spells(Upper(Strip(raw)), a)
    ensures a.suffix == Protocol.Bit
  {
    hide Device.Denotes, Device.Name;
    StripKeeps(raw, '.');
    var s := Upper(Strip(raw));
    assert '.' !in s;
    var digits :| Device.IsSpelling(s, a, digits);
    assert forall c :: c in Device.SuffixText(a.suffix) ==> c in s;
    hide Device.IsSpelling, Upper, Strip;
  }

  /** An accepted text is the base token with the data type or the index. */
  lemma AcceptedText(address: string)
    requires ParseAddress(address).Ok?
    ensures var p := ParseAddress(address).value;
            if p.dtype == BitInWord then
              p.bit.Some? && 0 <= p.bit.value <= 15 && p.text == p.base + "." + IndexText(p.bit.value)
            else p.text == p.base + ":" + DtypeText(p.dtype)
  {
    hide Interpret, Device.Parse, Device.ToText, DtypeText;
  }

  /** The canonical text of an accepted address parses to the very same address. */
  lemma AddressRoundTrip(address: string)
    requires ParseAddress(address).Ok?
    ensures ParseAddress(ParseAddress(address).value.text) == ParseAddress(address)
  {
    hide Device.Parse, Device.ToText, Device.Valid, Interpret, Suits, DtypeText, IndexText;
    AcceptedBase(address);
    var p, a := ParseAddress(address).value, Device.Parse(Interpret(address).value.0).value;
    Device.TokenRoundTrip(a);
    AcceptedText(address);
    if p.dtype == BitInWord {
      BitBaseIsBare(address);
      DotReads(a, p.bit.value);
    } else {
      ColonReads(a, p.dtype);
      NoIndex(address);
    }
  }

  lemma NoIndex(address: string)
    requires ParseAddress(address).Ok? && ParseAddress(address).value.dtype != BitInWord
    ensures ParseAddress(address).value.bit == None
  {
    hide Device.Parse, Device.ToText, SplitFirst, NormalizeDtype;
  }

  /** Formatting a parsed address gives its text back. */
  lemma FormatParsed(address: string)
    requires ParseAddress(address).Ok?
    ensures var p := ParseAddress(address).value;
            FormatAddress(p.text, p.base, DtypeText(p.dtype), p.bit) == Ok(p.text)
  {
    hide Interpret, Device.Parse, Device.ToText, NormalizeDtype, DtypeText, Device.Valid;
    AcceptedBase(address);
    var p, a := ParseAddress(address).value, Device.Parse(Interpret(address).value.0).value;
    Device.TokenRoundTrip(a);
    DtypeReads(p.dtype);
    AcceptedText(address);
    AddressRoundTrip(address);
    hide ParseAddress;
    if p.dtype != BitInWord { NoIndex(address); }
  }

  /** Whatever formatting accepts reads back as the same device, data type and bit index, and is its own normal form. */
  lemma FormatRoundTrip(text: string, base: string, dtype: string, bit: Option<int>)
    requires FormatAddress(text, base, dtype, bit).Ok?
    ensures Device.Parse(base).Ok? && NormalizeDtype(dtype).Ok?
    ensures var t := FormatAddress(text, base, dtype, bit).value;
            ParseAddress(t)
              == Ok(HelperAddress(t, Device.ToText(Device.Parse(base).value), NormalizeDtype(dtype).value, bit))
  {
    var a, d := Device.Parse(base).value, NormalizeDtype(dtype).value;
    Device.ParsedIsValid(base);
    Device.TokenRoundTrip(a);
    if d == BitInWord {
      if a.suffix == Protocol.Bit { DotReads(a, bit.value); } else { SuffixedDotFails(a, bit.value); }
    } else {
      ColonReads(a, d);
    }
    hide Device.Parse, Device.ToText, Interpret, NormalizeDtype;
  }

  /** A device token without a colon and without a dot never is an address: the data type must be explicit. */
  lemma BareTokenIsRejected(address: string)
    requires ':' !in address && '.' !in address
    ensures ParseAddress(address).Err?
  {
    if Device.Parse(address).Ok? {
      Device.ParseIsSpelling(address, Device.Parse(address).value);
      NoDotNoSuffix(address, Device.Parse(address).value);
    }
    hide Device.Parse, Device.ToText;
  }
}
