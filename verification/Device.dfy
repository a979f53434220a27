/** Device tokens: families, their number notations and suffixes, parsing, printing and count limits. */
module Device {
  import opened Wrappers
  import opened Text
  import opened Protocol

  datatype Family =
    | R | B | MR | LR | CR | VB | DM | EM | FM | ZF | W | TM | Z | T | TC | TS | C | CC | CS | CTH | CTC
    | AT | CM | VM | X | Y | M | L | D | E | F

  function Name(f: Family): (s: string)
    ensures 1 <= |s| <= 3
  {
    match f
    case R => "R" case B => "B" case MR => "MR" case LR => "LR" case CR => "CR" case VB => "VB"
    case DM => "DM" case EM => "EM" case FM => "FM" case ZF => "ZF" case W => "W" case TM => "TM" case Z => "Z"
    case T => "T" case TC => "TC" case TS => "TS" case C => "C" case CC => "CC" case CS => "CS"
    case CTH => "CTH" case CTC => "CTC" case AT => "AT" case CM => "CM" case VM => "VM"
    case X => "X" case Y => "Y" case M => "M" case L => "L" case D => "D" case E => "E" case F => "F"
  }

  function OneLetter(c: char): (f: Option<Family>)
    ensures f.Some? ==> Name(f.value) == [c]
  {
    match c
    case 'R' => Some(R) case 'B' => Some(B) case 'W' => Some(W) case 'Z' => Some(Z) case 'T' => Some(T)
    case 'C' => Some(C) case 'X' => Some(X) case 'Y' => Some(Y) case 'M' => Some(M)
    case 'L' => Some(Family.L) case 'D' => Some(Family.D) case 'E' => Some(E) case 'F' => Some(F)
    case _ => None
  }

  function TwoLetters(c: char, d: char): (f: Option<Family>)
    ensures f.Some? ==> Name(f.value) == [c, d]
  {
    match d
    case 'R' => (match c case 'M' => Some(MR) case 'L' => Some(LR) case 'C' => Some(CR) case _ => None)
    case 'M' => (match c case 'D' => Some(DM) case 'E' => Some(EM) case 'F' => Some(FM) case 'T' => Some(TM)
                         case 'C' => Some(CM) case 'V' => Some(VM) case _ => None)
    case 'C' => (match c case 'T' => Some(TC) case 'C' => Some(CC) case _ => None)
    case 'S' => (match c case 'T' => Some(TS) case 'C' => Some(CS) case _ => None)
    case 'B' => if c == 'V' then Some(VB) else None
    case 'F' => if c == 'Z' then Some(ZF) else None
    case 'T' => if c == 'A' then Some(AT) else None
    case _ => None
  }

  function FamilyOf(s: string): (f: Option<Family>)
    ensures f.Some? ==> Name(f.value) == s
  {
    if |s| == 1 then OneLetter(s[0])
    else if |s| == 2 then TwoLetters(s[0], s[1])
    else if s == "CTH" then Some(CTH)
    else if s == "CTC" then Some(CTC)
    else None
  }

  predicate BitBank(f: Family) { f == R || f == MR || f == LR || f == CR }

  predicate Xym(f: Family) { f == X || f == Y }

  predicate DirectBit(f: Family) {
    f == R || f == B || f == MR || f == LR || f == CR || f == VB || f == X || f == Y || f == M || f == Family.L
  }

  predicate Native32(f: Family) {
    f == T || f == TC || f == TS || f == C || f == CC || f == CS || f == CTH || f == CTC || f == Z || f == AT
  }

  /** Families whose default format is `.U`. */
  predicate OrdinaryWord(f: Family) {
    || f == DM || f == EM || f == FM || f == ZF || f == W || f == TM || f == Z || f == CM || f == VM
    || f == Family.D || f == E || f == F
  }

  predicate Float32Eligible(f: Family) { OrdinaryWord(f) && !Native32(f) }

  predicate HasComments(f: Family) {
    !(f == VB || f == VM || f == TC || f == TS || f == CC || f == CS || f == AT)
  }

  function Base(f: Family): Radix { if f == B || f == VB || f == W then 16 else 10 }

  /**
   The three kinds of families are disjoint and cover all; every family that is not a bit or an ordinary word is
   native.
   */
  lemma Kinds(f: Family)
    ensures !(DirectBit(f) && OrdinaryWord(f)) && !(DirectBit(f) && Native32(f))
    ensures DirectBit(f) || OrdinaryWord(f) || Native32(f)
    ensures BitBank(f) || Xym(f) ==> DirectBit(f) && Base(f) == 10
  {
  }

  // ---------------------------------------------------------------- addresses as values

  /** `suffix` is `Bit` for the empty suffix. */
  datatype Address = Address(family: Family, number: nat, suffix: Format)

  predicate ValidNumber(f: Family, n: nat) { BitBank(f) ==> n % 100 <= 15 }

  predicate Valid(a: Address) { ValidNumber(a.family, a.number) }

  function SuffixText(f: Format): string {
    match f case Bit => "" case U => ".U" case S => ".S" case D => ".D" case L => ".L" case H => ".H"
  }

  function TwoDigits(n: nat): string
    requires n < 100
  {
    [DigitChar(n / 10), DigitChar(n % 10)]
  }

  /** The number part of the canonical token. */
  function NumberText(f: Family, n: nat): string {
    if BitBank(f) then Render(n / 100, 10) + TwoDigits(n % 100)
    else if Xym(f) then Render(n / 16, 10) + [DigitChar(n % 16)]
    else Render(n, Base(f))
  }

  /** `to_text` */
  function ToText(a: Address): string { Name(a.family) + NumberText(a.family, a.number) + SuffixText(a.suffix) }

  // ---------------------------------------------------------------- parsing

  datatype ParseError = BadSyntax | NoFamily | BadNumber | BadBankBit

  function HexPrefix(s: string): (n: nat)
    ensures n <= |s| && forall i :: 0 <= i < n ==> IsHex(s[i])
    ensures n < |s| ==> !IsHex(s[n])
  {
    if s == [] || !IsHex(s[0]) then 0 else 1 + HexPrefix(s[1..])
  }

  function SuffixOf(s: string): (f: Option<Format>)
    ensures f.Some? <==> s == "" || s == ".U" || s == ".S" || s == ".D" || s == ".L" || s == ".H"
    ensures f.Some? ==> SuffixText(f.value) == s
  {
    if s == "" then Some(Bit)
    else if s == ".U" then Some(Format.U)
    else if s == ".S" then Some(S)
    else if s == ".D" then Some(Format.D)
    else if s == ".L" then Some(Format.L)
    else if s == ".H" then Some(H)
    else None
  }

  /** The rest of a token: at least one hexadecimal digit and an optional suffix. */
  function Tail(s: string): (r: Option<(string, Format)>)
    ensures r.Some? ==> r.value.0 != [] && Numeral(r.value.0, 16) && s == r.value.0 + SuffixText(r.value.1)
  {
    var n := HexPrefix(s);
    if n == 0 || SuffixOf(s[n..]).None? then None else Some((s[..n], SuffixOf(s[n..]).value))
  }

  predicate Opens(s: string, k: nat) { k <= |s| && FamilyOf(s[..k]).Some? && Tail(s[k..]).Some? }

  /** The match of the token pattern: the longest family name that leaves a well-formed rest. */
  function NameLength(s: string): nat {
    if Opens(s, 3) then 3 else if Opens(s, 2) then 2 else if Opens(s, 1) then 1 else 0
  }

  /** The number a well-formed number part denotes, by the notation of the family. */
  function Denotes(f: Family, digits: string): (n: Option<nat>)
    requires digits != [] && Numeral(digits, 16)
  {
    if Xym(f) then
      var bank := if |digits| == 1 then "0" else digits[..|digits| - 1];
      if !AllDigits(bank) then None
      else
        DigitsAreNumeral(bank);
        Some(ValueOf(bank, 10) * 16 + DigitOf(digits[|digits| - 1]))
    else if Numeral(digits, Base(f)) then Some(ValueOf(digits, Base(f)))
    else None
  }

  /** `parse_device` */
  function Parse(text: string): Result<Address, ParseError> {
    var raw := Upper(Strip(text));
    var k := NameLength(raw);
    if k == 0 then (if Tail(raw).Some? then Err(NoFamily) else Err(BadSyntax))
    else
      var f := FamilyOf(raw[..k]).value;
      var (digits, suffix) := Tail(raw[k..]).value;
      match Denotes(f, digits)
      case None => Err(BadNumber)
      case Some(n) => if ValidNumber(f, n) then Ok(Address(f, n, suffix)) else Err(BadBankBit)
  }

  // ---------------------------------------------------------------- the language of tokens

  /** A spelling of `a`: its family name, some number part that denotes its number, and its suffix. */
  ghost predicate Spells(s: string, a: Address) {
    exists digits :: IsSpelling(s, a, digits)
  }

  predicate IsSpelling(s: string, a: Address, digits: string) {
    && digits != [] && Numeral(digits, 16)
    && s == Name(a.family) + digits + SuffixText(a.suffix)
    && Denotes(a.family, digits) == Some(a.number)
    && Valid(a)
  }

  lemma {:induction false} HexPrefixIs(digits: string, rest: string)
    requires Numeral(digits, 16) && (rest != [] ==> !IsHex(rest[0]))
    ensures HexPrefix(digits + rest) == |digits|
  {
    var s := digits + rest;
    if digits != [] {
      assert s[1..] == digits[1..] + rest;
      HexPrefixIs(digits[1..], rest);
    }
  }

  lemma TailOf(digits: string, suffix: Format)
    requires digits != [] && Numeral(digits, 16)
    ensures Tail(digits + SuffixText(suffix)) == Some((digits, suffix))
  {
    var s := digits + SuffixText(suffix);
    HexPrefixIs(digits, SuffixText(suffix));
    assert s[..|digits|] == digits && s[|digits|..] == SuffixText(suffix);
  }

  lemma NameIsFound(f: Family)
    ensures FamilyOf(Name(f)) == Some(f)
  {
  }

  lemma NamesHaveNoDigits(f: Family)
    ensures forall i :: 0 <= i < |Name(f)| ==> !IsDigit(Name(f)[i]) && 'A' <= Name(f)[i] <= 'Z'
  {
  }

  /** No family name extends the name of a family whose number part may start with a letter. */
  lemma NoNameExtends(f: Family, g: Family)
    requires Base(f) == 16 || Xym(f)
    ensures |Name(f)| < |Name(g)| ==> exists i :: 0 <= i < |Name(f)| && Name(g)[i] != Name(f)[i]
  {
    if |Name(f)| < |Name(g)| {
      var i := if |Name(f)| == 1 || Name(g)[0] != Name(f)[0] then 0 else 1;
      assert Name(g)[i] != Name(f)[i];
    }
  }

  /** A number part the family can read starts with a digit, unless the family is hexadecimal. */
  lemma FirstDigit(f: Family, digits: string)
    requires digits != [] && Numeral(digits, 16) && Denotes(f, digits).Some? && Base(f) == 10 && !Xym(f)
    ensures IsDigit(digits[0])
  {
  }

  /** No longer family name is a prefix of a spelling. */
  lemma NothingLonger(a: Address, digits: string, s: string, k: nat)
    requires IsSpelling(s, a, digits) && |Name(a.family)| < k <= |s|
    ensures FamilyOf(s[..k]).None?
  {
    var name := Name(a.family);
    if FamilyOf(s[..k]).Some? {
      var g := FamilyOf(s[..k]).value;
      assert Name(g)[..|name|] == name && Name(g)[|name|] == digits[0];
      if Base(a.family) == 16 || Xym(a.family) {
        NoNameExtends(a.family, g);
      } else {
        FirstDigit(a.family, digits);
        NamesHaveNoDigits(g);
      }
    }
  }

  lemma SpellingOpens(s: string, a: Address, digits: string)
    requires IsSpelling(s, a, digits)
    ensures NameLength(s) == |Name(a.family)|
    ensures FamilyOf(s[..|Name(a.family)|]) == Some(a.family) && Tail(s[|Name(a.family)|..]) == Some((digits, a.suffix))
  {
    hide Name, FamilyOf, Tail, Denotes, HexPrefix, SuffixOf, SuffixText, Valid;
    var n := |Name(a.family)|;
    assert s[..n] == Name(a.family) && s[n..] == digits + SuffixText(a.suffix);
    NameIsFound(a.family);
    TailOf(digits, a.suffix);
    if n < 3 <= |s| { NothingLonger(a, digits, s, 3); }
    if n < 2 <= |s| { NothingLonger(a, digits, s, 2); }
  }

  /** The parser accepts exactly the spellings, and a spelling has one reading. */
  lemma ParseIsSpelling(text: string, a: Address)
    ensures Parse(text) == Ok(a) <==> Spells(Upper(Strip(text)), a)
  {
    hide Name, FamilyOf, Tail, Denotes, NameLength, IsSpelling;
    var raw := Upper(Strip(text));
    if Spells(raw, a) {
      var digits :| IsSpelling(raw, a, digits);
      SpellingParses(text, a, digits);
    }
    if Parse(text) == Ok(a) {
      ParsedSpells(text, a);
    }
  }

  lemma SpellingParses(text: string, a: Address, digits: string)
    requires IsSpelling(Upper(Strip(text)), a, digits)
    ensures Parse(text) == Ok(a)
  {
    hide Name, FamilyOf, Tail, Denotes, NameLength;
    SpellingOpens(Upper(Strip(text)), a, digits);
  }

  lemma ParsedSpells(text: string, a: Address)
    requires Parse(text) == Ok(a)
    ensures Spells(Upper(Strip(text)), a)
  {
    hide Name, FamilyOf, Tail, Denotes, NameLength, Opens, Upper, Strip, SuffixText, Valid, IsSpelling;
    var raw := Upper(Strip(text));
    NameOpens(raw);
    var k := NameLength(raw);
    var digits := Tail(raw[k..]).value.0;
    assert raw == raw[..k] + raw[k..];
    assert Name(a.family) == raw[..k];
    assert raw == Name(a.family) + digits + SuffixText(a.suffix);
    assert IsSpelling(raw, a, digits) by { SpellingOf(raw, a, digits); }
  }

  lemma NameOpens(s: string)
    ensures var k := NameLength(s); k > 0 ==> k <= |s| && FamilyOf(s[..k]).Some? && Tail(s[k..]).Some?
  {
    hide FamilyOf, Tail;
  }

  lemma SpellingOf(s: string, a: Address, digits: string)
    requires digits != [] && Numeral(digits, 16) && s == Name(a.family) + digits + SuffixText(a.suffix)
    requires Denotes(a.family, digits) == Some(a.number) && ValidNumber(a.family, a.number)
    ensures IsSpelling(s, a, digits)
  {
    hide Name, Denotes, SuffixText, ValidNumber;
  }

  // ---------------------------------------------------------------- printing

  lemma BankTextReads(n: nat)
    requires n % 100 <= 15
    ensures var t := Render(n / 100, 10) + TwoDigits(n % 100);
            Numeral(t, 10) && ValueOf(t, 10) == n
  {
    var bank, bit := Render(n / 100, 10), n % 100;
    var first := bank + [DigitChar(bit / 10)];
    ValueSnoc(bank, DigitChar(bit / 10), 10);
    ValueSnoc(first, DigitChar(bit % 10), 10);
    assert bank + TwoDigits(bit) == first + [DigitChar(bit % 10)];
  }

  lemma WiderNumeral(s: string)
    requires Numeral(s, 10)
    ensures Numeral(s, 16)
  {
  }

  lemma XymTextReads(f: Family, n: nat)
    requires Xym(f)
    ensures var t := Render(n / 16, 10) + [DigitChar(n % 16)];
            Numeral(t, 16) && Denotes(f, t) == Some(n)
  {
    var bank := Render(n / 16, 10);
    var t := bank + [DigitChar(n % 16)];
    DigitsAreNumeral(bank);
    assert t[..|t| - 1] == bank && t[|t| - 1] == DigitChar(n % 16);
  }

  /** The printed number part denotes the number. */
  lemma NumberTextReads(f: Family, n: nat)
    requires ValidNumber(f, n)
    ensures var t := NumberText(f, n); t != [] && Numeral(t, 16) && Denotes(f, t) == Some(n)
  {
    if BitBank(f) {
      BankTextReads(n);
      WiderNumeral(NumberText(f, n));
    } else if Xym(f) {
      XymTextReads(f, n);
    }
  }

  /** What the client prints it reads back, for every valid device, unbounded number and suffix. */
  lemma TokenRoundTrip(a: Address)
    requires Valid(a)
    ensures Parse(ToText(a)) == Ok(a)
  {
    var digits := NumberText(a.family, a.number);
    NumberTextReads(a.family, a.number);
    var s := ToText(a);
    NamesHaveNoDigits(a.family);
    assert Plain(s) by {
      forall i | 0 <= i < |s| ensures !IsSpace(s[i]) && UpperChar(s[i]) == s[i] {
        PlainAt(a, i);
      }
    }
    PlainIsFixed(s);
    assert IsSpelling(s, a, digits);
    ParseIsSpelling(s, a);
  }

  lemma SuffixLetters(f: Format)
    ensures forall i :: 0 <= i < |SuffixText(f)| ==> 'A' <= SuffixText(f)[i] <= 'Z' || SuffixText(f)[i] == '.'
  {
  }

  lemma PlainAt(a: Address, i: nat)
    requires Valid(a) && i < |ToText(a)|
    ensures var c := ToText(a)[i]; 'A' <= c <= 'Z' || IsDigit(c) || c == '.'
  {
    hide Name, NumberText, Denotes, SuffixText, ValidNumber;
    var name, digits, suffix := Name(a.family), NumberText(a.family, a.number), SuffixText(a.suffix);
    NumberTextReads(a.family, a.number);
    NamesHaveNoDigits(a.family);
    SuffixLetters(a.suffix);
    if i < |name| {
      assert ToText(a)[i] == name[i];
    } else if i < |name| + |digits| {
      assert ToText(a)[i] == digits[i - |name|];
    } else {
      assert ToText(a)[i] == suffix[i - |name| - |digits|];
    }
  }

  lemma ParsedIsValid(text: string)
    ensures Parse(text).Ok? ==> Valid(Parse(text).value)
  {
    hide NameLength, Denotes, Tail, FamilyOf;
  }

  /** `parse_device_text` is idempotent: normalised text is its own normal form. */
  lemma NormalFormIsFixed(text: string)
    ensures Parse(text).Ok? ==> Parse(ToText(Parse(text).value)) == Parse(text)
  {
    if Parse(text).Ok? {
      ParsedIsValid(text);
      hide Parse, ToText, Valid;
      TokenRoundTrip(Parse(text).value);
    }
  }

  // ---------------------------------------------------------------- logical bit numbers

  /** `bit_bank_logical_number` */
  function Logical(n: nat): nat { n / 100 * 16 + n % 100 }

  /** `bit_bank_number_from_logical` */
  function FromLogical(k: nat): nat { k / 16 * 100 + k % 16 }

  /** Valid bit-bank numbers and logical bit numbers correspond one to one. */
  lemma LogicalIsBijection(n: nat, k: nat)
    ensures n % 100 <= 15 ==> FromLogical(Logical(n)) == n
    ensures FromLogical(k) % 100 <= 15 && Logical(FromLogical(k)) == k
  {
    assert FromLogical(k) / 100 == k / 16 && FromLogical(k) % 100 == k % 16;
    if n % 100 <= 15 {
      assert Logical(n) / 16 == n / 100 && Logical(n) % 16 == n % 100;
    }
  }

  /** The correspondence keeps the order. */
  lemma LogicalKeepsOrder(m: nat, n: nat)
    requires m % 100 <= 15 && n % 100 <= 15
    ensures m < n <==> Logical(m) < Logical(n)
  {
  }

  // ---------------------------------------------------------------- counts

  predicate Is32(f: Format) { f.D? || f.L? }

  /** The most points one consecutive command may name. */
  function MaxCount(f: Family, format: Format): nat {
    if f == TM then (if Is32(format) then 256 else 512)
    else if f == Z then 12
    else if f == AT then 8
    else if f == T || f == TC || f == TS || f == C || f == CC || f == CS || f == CTH || f == CTC then 120
    else if Is32(format) then 500
    else 1000
  }

  /** `validate_device_count` */
  predicate CountAllowed(f: Family, format: Format, count: int) { 1 <= count <= MaxCount(f, format) }

  /** `resolve_effective_format`: the suffix, or the default of the family. */
  function Effective(f: Family, suffix: Format): Format {
    if suffix != Bit then suffix
    else if DirectBit(f) then Bit
    else if OrdinaryWord(f) then Format.U
    else Format.D
  }
}
