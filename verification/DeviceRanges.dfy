/** Bounds of the catalogue's range segments, in the bit-bank and the X/Y notations. */
module DeviceRanges {
  import opened Wrappers
  import opened Text
  import Protocol
  import Device

  datatype BoundsError = MissingSeparator | BadStart | BadEnd | Reversed

  datatype Bounds = Bounds(lower: nat, upper: nat, points: nat)

  /** `_parse_bit_bank_segment_number`: the logical bit number of decimal bank digits and two bit digits. */
  function BitBankNumber(text: string): Option<nat> {
    if text == "" || !AllDigits(text) then None
    else
      DigitsAreNumeral(text);
      var cut := if |text| > 2 then |text| - 2 else 0;
      var bit := ValueOf(text[cut..], 10);
      if bit > 15 then None else Some(ValueOf(text[..cut], 10) * 16 + bit)
  }

  /** `_parse_xym_segment_number`: decimal bank digits and one hexadecimal bit digit of either case. */
  function XymNumber(text: string): Option<nat>
    requires text != ""
  {
    var bank, bit := text[..|text| - 1], UpperChar(text[|text| - 1]);
    if !AllDigits(bank) || !IsHex(bit) then None
    else
      DigitsAreNumeral(bank);
      Some(ValueOf(bank, 10) * 16 + DigitOf(bit))
  }

  /** The catalogue number of the text after the family name. */
  function CatalogueNumber(f: Device.Family, text: string): Option<nat>
    requires text != ""
  {
    if Device.Xym(f) then XymNumber(text) else BitBankNumber(text)
  }

  /** `_parse_segment_number` for the families with a bank notation. */
  function SegmentNumber(text: string, f: Device.Family): Option<nat>
    requires Device.BitBank(f) || Device.Xym(f)
  {
    var name, stripped := Device.Name(f), Strip(text);
    var number := if |name| <= |stripped| && stripped[..|name|] == name then stripped[|name|..] else stripped;
    if number == "" then None else CatalogueNumber(f, number)
  }

  /** `_parse_segment_bounds` */
  function SegmentBounds(segment: string, f: Device.Family): Result<Bounds, BoundsError>
    requires Device.BitBank(f) || Device.Xym(f)
  {
    match SplitFirst(segment, '-')
    case None => Err(MissingSeparator)
    case Some((first, last)) =>
      match SegmentNumber(Strip(first), f)
      case None => Err(BadStart)
      case Some(lower) =>
        match SegmentNumber(Strip(last), f)
        case None => Err(BadEnd)
        case Some(upper) =>
          if upper < lower then Err(Reversed) else Ok(Bounds(lower, upper, upper - lower + 1))
  }

  // ---------------------------------------------------------------- agreement with the device parser

  lemma OneDigit(c: char)
    requires IsDigit(c)
    ensures ValueOf([c], 10) == DigitOf(c) < 10
  {
    assert [c][..0] == [];
  }

  lemma TwoDigitValue(c: char, d: char)
    requires IsDigit(c) && IsDigit(d)
    ensures ValueOf([c, d], 10) == DigitOf(c) * 10 + DigitOf(d) < 100
  {
    assert [c, d][..1] == [c];
    OneDigit(c);
  }

  lemma NoDigits()
    ensures ValueOf([], 10) == 0
  {
  }

  lemma Unrolled(text: string)
    requires text != "" && Numeral(text, 10)
    ensures var n := |text|; ValueOf(text, 10) == ValueOf(text[..n - 1], 10) * 10 + DigitOf(text[n - 1])
  {
  }

  /** The two digits at the end are the number modulo 100. */
  lemma LastTwoDigits(text: string)
    requires text != "" && Numeral(text, 10)
    ensures var cut := if |text| > 2 then |text| - 2 else 0;
            && ValueOf(text, 10) == ValueOf(text[..cut], 10) * 100 + ValueOf(text[cut..], 10)
            && ValueOf(text[cut..], 10) < 100
  {
    hide ValueOf;
    var n := |text|;
    var head := text[..n - 1];
    Unrolled(text);
    if n == 1 {
      assert text[0..] == text == [text[0]];
      OneDigit(text[0]);
      assert text[..0] == head == [];
      NoDigits();
    } else {
      var cut := n - 2;
      assert text[cut..] == [text[cut], text[n - 1]];
      TwoDigitValue(text[cut], text[n - 1]);
      assert head[..cut] == text[..cut];
      Unrolled(head);
    }
  }

  /**
   On decimal digits, the two notations of a bit-bank number agree: `n` as a device number, its logical number here.
   */
  lemma BitBankAgrees(f: Device.Family, text: string)
    requires Device.BitBank(f) && text != "" && Numeral(text, 16)
    ensures match BitBankNumber(text)
            case Some(k) => Device.Denotes(f, text) == Some(Device.FromLogical(k))
            case None =>
              Device.Denotes(f, text).None? || !Device.ValidNumber(f, Device.Denotes(f, text).value)
  {
    hide ValueOf, Device.FromLogical, Device.Logical;
    DigitsAreNumeral(text);
    if Numeral(text, 10) {
      LastTwoDigits(text);
      var cut := if |text| > 2 then |text| - 2 else 0;
      var bank, bit := ValueOf(text[..cut], 10), ValueOf(text[cut..], 10);
      BankAndBit(bank, bit);
    }
  }

  lemma BankAndBit(bank: nat, bit: nat)
    requires bit < 100
    ensures (bank * 100 + bit) % 100 == bit
    ensures bit <= 15 ==> Device.FromLogical(bank * 16 + bit) == bank * 100 + bit
  {
    assert bit <= 15 ==> (bank * 16 + bit) / 16 == bank;
  }

  lemma XymAgrees(f: Device.Family, text: string)
    requires Device.Xym(f) && text != "" && Numeral(text, 16)
    ensures Device.Denotes(f, text) == XymNumber(text)
  {
    assert UpperChar(text[|text| - 1]) == text[|text| - 1];
    DigitsAreNumeral("0");
    assert ValueOf("0", 10) == 0;
    assert ValueOf([], 10) == 0;
    if |text| == 1 { assert text[..0] == []; }
  }

  /** The device number a catalogue number stands for. */
  function NumberOf(f: Device.Family, k: nat): nat { if Device.BitBank(f) then Device.FromLogical(k) else k }

  /**
   A catalogue number is exactly what the device parser reads from the same text after the family name, in either
   case.
   */
  lemma CatalogueAgrees(f: Device.Family, text: string, k: nat)
    requires (Device.BitBank(f) || Device.Xym(f)) && text != "" && !IsSpace(text[|text| - 1])
    ensures CatalogueNumber(f, text) == Some(k) <==>
            Device.Parse(Device.Name(f) + text) == Ok(Device.Address(f, NumberOf(f, k), Protocol.Bit))
  {
    hide Device.Parse, Device.Name, CatalogueNumber, NumberOf;
    CaseIsFree(f, text);
    UpperReads(f, text);
    if Numeral(Upper(text), 16) {
      UpperCatalogueAgrees(f, Upper(text), k);
    } else {
      NotNumbers(f, text, NumberOf(f, k));
    }
  }

  /** Upper case changes no catalogue number. */
  lemma CaseIsFree(f: Device.Family, text: string)
    requires text != ""
    ensures CatalogueNumber(f, Upper(text)) == CatalogueNumber(f, text)
  {
    hide ValueOf;
    var u, n := Upper(text), |text| - 1;
    assert forall i :: 0 <= i < |text| ==>
      (IsDigit(u[i]) <==> IsDigit(text[i])) && (IsDigit(text[i]) ==> u[i] == text[i]);
    if AllDigits(text) { assert u == text; }
    if AllDigits(text[..n]) { assert u[..n] == text[..n]; } else if AllDigits(u[..n]) { assert u[..n] == text[..n]; }
  }

  lemma EndsKeep(s: string)
    requires s != "" && !IsSpace(s[0]) && !IsSpace(s[|s| - 1])
    ensures Strip(s) == s
  {
  }

  lemma UpperConcat(a: string, b: string)
    ensures Upper(a + b) == Upper(a) + Upper(b)
  {
  }

  /** The device parser reads a token as it reads it in upper case. */
  lemma UpperReads(f: Device.Family, text: string)
    requires text != "" && !IsSpace(text[|text| - 1])
    ensures Upper(Strip(Device.Name(f) + text)) == Device.Name(f) + Upper(text)
    ensures Device.Parse(Device.Name(f) + Upper(text)) == Device.Parse(Device.Name(f) + text)
  {
    Device.NamesHaveNoDigits(f);
    hide Device.Name, Strip, Device.NameLength, Device.Tail, Device.FamilyOf, Device.Denotes;
    var name, u := Device.Name(f), Upper(text);
    assert Upper(name) == name && Upper(u) == u;
    EndsKeep(name + text);
    EndsKeep(name + u);
    UpperConcat(name, text);
    UpperConcat(name, u);
  }

  /** Text that is not made of hexadecimal digits is no number in either notation. */
  lemma NotNumbers(f: Device.Family, text: string, n: nat)
    requires (Device.BitBank(f) || Device.Xym(f)) && text != "" && !IsSpace(text[|text| - 1])
    requires !Numeral(Upper(text), 16)
    ensures CatalogueNumber(f, Upper(text)) == None
    ensures Device.Parse(Device.Name(f) + text) != Ok(Device.Address(f, n, Protocol.Bit))
  {
    hide Device.Parse, Device.Name, Device.Denotes, Strip;
    var s, a, u := Device.Name(f) + text, Device.Address(f, n, Protocol.Bit), Upper(text);
    UpperReads(f, text);
    Device.ParseIsSpelling(s, a);
    forall digits | Device.Name(f) + u == Device.Name(f) + digits + Device.SuffixText(Protocol.Bit)
      ensures digits == u
    {
      assert (Device.Name(f) + u)[|Device.Name(f)|..] == u;
      assert digits == (Device.Name(f) + digits + [])[|Device.Name(f)|..];
    }
    assert CatalogueNumber(f, u) == None by { NoCatalogueNumber(f, u); }
  }

  lemma NoCatalogueNumber(f: Device.Family, u: string)
    requires u != "" && !Numeral(u, 16) && u == Upper(u)
    ensures CatalogueNumber(f, u) == None
  {
    hide ValueOf;
    var n := |u| - 1;
    if Device.Xym(f) {
      if AllDigits(u[..n]) && IsHex(UpperChar(u[n])) { assert forall i :: 0 <= i < n ==> u[i] == u[..n][i]; }
    }
  }

  /** The same for upper-case hexadecimal digits. */
  lemma UpperCatalogueAgrees(f: Device.Family, text: string, k: nat)
    requires (Device.BitBank(f) || Device.Xym(f)) && text != "" && Numeral(text, 16)
    ensures CatalogueNumber(f, text) == Some(k) <==>
            Device.Parse(Device.Name(f) + text) == Ok(Device.Address(f, NumberOf(f, k), Protocol.Bit))
  {
    hide Device.Denotes, XymNumber, BitBankNumber, Device.Parse, Device.Name, Device.FromLogical, Device.Logical;
    if Device.Xym(f) { XymAgrees(f, text); } else { BitBankAgrees(f, text); }
    Device.LogicalIsBijection(0, k);
    if Device.Denotes(f, text).None? || !Device.ValidNumber(f, Device.Denotes(f, text).value) {
      NoReading(f, text, NumberOf(f, k));
    } else {
      var n := Device.Denotes(f, text).value;
      TokenReads(f, text, n);
      if Device.BitBank(f) {
        Device.LogicalIsBijection(n, BitBankNumber(text).value);
      }
    }
  }

  lemma TokenIsPlain(f: Device.Family, text: string)
    requires Numeral(text, 16)
    ensures Upper(Strip(Device.Name(f) + text)) == Device.Name(f) + text
  {
    Device.NamesHaveNoDigits(f);
    hide Device.Name, Upper, Strip;
    var s := Device.Name(f) + text;
    NumeralIsPlain(text, 16);
    assert Plain(s);
    PlainIsFixed(s);
  }

  lemma TokenReads(f: Device.Family, text: string, n: nat)
    requires text != "" && Numeral(text, 16) && Device.Denotes(f, text) == Some(n) && Device.ValidNumber(f, n)
    ensures Device.Parse(Device.Name(f) + text) == Ok(Device.Address(f, n, Protocol.Bit))
  {
    hide Device.Denotes, Device.Name, Device.Parse, Upper, Strip;
    var s, a := Device.Name(f) + text, Device.Address(f, n, Protocol.Bit);
    TokenIsPlain(f, text);
    assert s == Device.Name(f) + text + Device.SuffixText(Protocol.Bit);
    assert Device.IsSpelling(s, a, text);
    Device.ParseIsSpelling(s, a);
  }

  lemma NoReading(f: Device.Family, text: string, n: nat)
    requires text != "" && Numeral(text, 16)
    requires Device.Denotes(f, text).None? || !Device.ValidNumber(f, Device.Denotes(f, text).value)
    ensures Device.Parse(Device.Name(f) + text) != Ok(Device.Address(f, n, Protocol.Bit))
  {
    hide Device.Denotes, Device.Name, Device.Parse, Upper, Strip;
    var s, a := Device.Name(f) + text, Device.Address(f, n, Protocol.Bit);
    TokenIsPlain(f, text);
    Device.ParseIsSpelling(s, a);
    forall digits | s == Device.Name(f) + digits + Device.SuffixText(Protocol.Bit) ensures digits == text {
      assert s[|Device.Name(f)|..] == text;
      assert digits == (Device.Name(f) + digits + [])[|Device.Name(f)|..];
    }
  }

  // ---------------------------------------------------------------- point counts

  /** The device parser accepts the number `n` of the family. */
  ghost predicate Accepts(f: Device.Family, n: nat) {
    exists text :: Device.Parse(text) == Ok(Device.Address(f, n, Protocol.Bit))
  }

  lemma AcceptsValid(f: Device.Family, n: nat)
    ensures Accepts(f, n) <==> Device.ValidNumber(f, n)
  {
    var a := Device.Address(f, n, Protocol.Bit);
    if Device.ValidNumber(f, n) {
      Device.TokenRoundTrip(a);
    }
    if Accepts(f, n) {
      var text :| Device.Parse(text) == Ok(a);
      hide Device.Parse;
      Device.ParseIsSpelling(text, a);
    }
  }

  /** The numbers the device parser accepts between two ends. */
  ghost function Between(f: Device.Family, a: nat, b: nat): set<nat> {
    set n: nat | a <= n <= b && Accepts(f, n)
  }

  /** Catalogue numbers and device numbers have the same order. */
  lemma NumbersInOrder(f: Device.Family, j: nat, k: nat)
    ensures j < k <==> NumberOf(f, j) < NumberOf(f, k)
    ensures Device.ValidNumber(f, NumberOf(f, k))
  {
    hide Device.FromLogical, Device.Logical;
    Device.LogicalIsBijection(0, j);
    Device.LogicalIsBijection(0, k);
    if Device.BitBank(f) { Device.LogicalKeepsOrder(Device.FromLogical(j), Device.FromLogical(k)); }
  }

  /** Every number the device parser accepts has a catalogue number. */
  lemma NumbersOnto(f: Device.Family, n: nat)
    requires Device.ValidNumber(f, n)
    ensures exists k: nat :: NumberOf(f, k) == n
  {
    hide Device.FromLogical, Device.Logical;
    if Device.BitBank(f) {
      Device.LogicalIsBijection(n, 0);
      assert NumberOf(f, Device.Logical(n)) == n;
    } else {
      assert NumberOf(f, n) == n;
    }
  }

  /** An accepted number between two neighbours is one of them. */
  lemma NothingBetween(f: Device.Family, k: nat, n: nat)
    requires Accepts(f, n) && NumberOf(f, k) < n
    ensures NumberOf(f, k + 1) <= n
  {
    AcceptsValid(f, n);
    hide Accepts, NumberOf;
    NumbersOnto(f, n);
    var m: nat :| NumberOf(f, m) == n;
    NumbersInOrder(f, k, m);
    NumbersInOrder(f, m, k + 1);
  }

  lemma OnlyOneBetween(f: Device.Family, k: nat)
    ensures Between(f, NumberOf(f, k), NumberOf(f, k)) == {NumberOf(f, k)}
  {
    hide Accepts, NumberOf, Device.ValidNumber;
    NumbersInOrder(f, k, k);
    AcceptsValid(f, NumberOf(f, k));
  }

  lemma OneMoreBetween(f: Device.Family, lower: nat, k: nat)
    requires lower <= k
    ensures var a, c, b := NumberOf(f, lower), NumberOf(f, k), NumberOf(f, k + 1);
            Between(f, a, b) == Between(f, a, c) + {b} && b !in Between(f, a, c)
  {
    hide Accepts, NumberOf, Device.ValidNumber;
    NumbersInOrder(f, k, k + 1);
    NumbersInOrder(f, k, lower);
    AcceptsValid(f, NumberOf(f, k + 1));
    var a, c, b := NumberOf(f, lower), NumberOf(f, k), NumberOf(f, k + 1);
    forall n: nat | Accepts(f, n) && c < n ensures b <= n { NothingBetween(f, k, n); }
  }

  lemma {:induction false} CountBetween(f: Device.Family, lower: nat, upper: nat)
    requires lower <= upper
    ensures |Between(f, NumberOf(f, lower), NumberOf(f, upper))| == upper - lower + 1
  {
    hide Between, NumberOf;
    if lower == upper {
      OnlyOneBetween(f, lower);
    } else {
      CountBetween(f, lower, upper - 1);
      OneMoreBetween(f, lower, upper - 1);
    }
  }

  /** A segment's point count is the number of addresses the device parser accepts between its ends. */
  lemma PointsAreAddresses(segment: string, f: Device.Family)
    requires (Device.BitBank(f) || Device.Xym(f)) && SegmentBounds(segment, f).Ok?
    ensures var b := SegmentBounds(segment, f).value;
            && b.lower <= b.upper
            && Accepts(f, NumberOf(f, b.lower)) && Accepts(f, NumberOf(f, b.upper))
            && b.points == |Between(f, NumberOf(f, b.lower), NumberOf(f, b.upper))|
  {
    hide SegmentBounds, Accepts, NumberOf, Device.ValidNumber;
    var b := SegmentBounds(segment, f).value;
    assert b.lower <= b.upper && b.points == b.upper - b.lower + 1 by { BoundsShape(segment, f); }
    NumbersInOrder(f, b.lower, b.lower);
    NumbersInOrder(f, b.upper, b.upper);
    AcceptsValid(f, NumberOf(f, b.lower));
    AcceptsValid(f, NumberOf(f, b.upper));
    CountBetween(f, b.lower, b.upper);
  }

  lemma BoundsShape(segment: string, f: Device.Family)
    requires (Device.BitBank(f) || Device.Xym(f)) && SegmentBounds(segment, f).Ok?
    ensures var b := SegmentBounds(segment, f).value; b.lower <= b.upper && b.points == b.upper - b.lower + 1
  {
    hide SegmentNumber, SplitFirst, Strip;
  }
}
