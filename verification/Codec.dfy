/**
 Text formats written by one tool and read by another: memory sizes in the internal
 configuration, and the MAC of that configuration.
 */
module Codec {
  import opened Util

  // ---- Numbers as text

  const USIZE_LIMIT: nat := 0x1_0000_0000_0000_0000

  type Byte = x: int | 0 <= x < 256

  /** 36 stands for "not a digit in any radix". */
  function DigitValue(c: char): nat {
    if '0' <= c <= '9' then c as int - '0' as int
    else if 'a' <= c <= 'z' then c as int - 'a' as int + 10
    else if 'A' <= c <= 'Z' then c as int - 'A' as int + 10
    else 36
  }

  predicate AllDigits(s: string, radix: nat) {
    forall i :: 0 <= i < |s| ==> DigitValue(s[i]) < radix
  }

  function Value(s: string, radix: nat): nat {
    if s == [] then 0 else Value(s[..|s| - 1], radix) * radix + DigitValue(s[|s| - 1])
  }

  /** Rust's unsigned `from_str_radix`: an optional plus sign, then digits, below `limit`. */
  function FromStrRadix(s: string, radix: nat, limit: nat): Option<nat> {
    var digits := if |s| > 1 && s[0] == '+' then s[1..] else s;
    if digits != [] && AllDigits(digits, radix) && Value(digits, radix) < limit
    then Some(Value(digits, radix))
    else None
  }

  function DigitChar(n: nat): char
    requires n < 16
  {
    if n < 10 then ('0' as int + n) as char else ('a' as int + n - 10) as char
  }

  function Decimal(n: nat): string {
    if n < 10 then [DigitChar(n)] else Decimal(n / 10) + [DigitChar(n % 10)]
  }

  lemma {:induction false} DecimalValue(n: nat)
    ensures Decimal(n) != [] && AllDigits(Decimal(n), 10) && Value(Decimal(n), 10) == n
  {
    if n < 10 {
      assert Decimal(n)[..0] == [];
    } else {
      DecimalValue(n / 10);
      assert Decimal(n)[..|Decimal(n)| - 1] == Decimal(n / 10);
    }
  }

  // ---- Trimming

  /** The characters with the Unicode property White_Space. */
  predicate IsWhite(c: char) {
    || '\t' <= c <= '\r' || c == ' ' || c == '\U{85}' || c == '\U{A0}' || c == '\U{1680}'
    || '\U{2000}' <= c <= '\U{200A}' || '\U{2028}' <= c <= '\U{2029}'
    || c == '\U{202F}' || c == '\U{205F}' || c == '\U{3000}'
  }

  predicate Blank(s: string) {
    forall i :: 0 <= i < |s| ==> IsWhite(s[i])
  }

  /** No white space at either end. */
  predicate Trimmed(s: string) {
    s == [] || (!IsWhite(s[0]) && !IsWhite(s[|s| - 1]))
  }

  function TrimStart(s: string): string {
    if s != [] && IsWhite(s[0]) then TrimStart(s[1..]) else s
  }

  function TrimEnd(s: string): string {
    if s != [] && IsWhite(s[|s| - 1]) then TrimEnd(s[..|s| - 1]) else s
  }

  function Trim(s: string): string {
    TrimEnd(TrimStart(s))
  }

  lemma {:induction false} TrimStartSplits(s: string) returns (a: string)
    ensures Blank(a) && s == a + TrimStart(s)
    ensures TrimStart(s) == [] || !IsWhite(TrimStart(s)[0])
  {
    if s != [] && IsWhite(s[0]) {
      var b := TrimStartSplits(s[1..]);
      a := [s[0]] + b;
    } else {
      a := [];
    }
  }

  lemma {:induction false} TrimEndSplits(s: string) returns (b: string)
    ensures Blank(b) && s == TrimEnd(s) + b
    ensures TrimEnd(s) == [] || !IsWhite(TrimEnd(s)[|TrimEnd(s)| - 1])
  {
    if s != [] && IsWhite(s[|s| - 1]) {
      var a := TrimEndSplits(s[..|s| - 1]);
      b := a + [s[|s| - 1]];
    } else {
      b := [];
    }
  }

  /** Trimming removes white space only, and all of it at both ends. */
  lemma TrimSplits(s: string) returns (a: string, b: string)
    ensures Blank(a) && Blank(b) && s == a + Trim(s) + b && Trimmed(Trim(s))
  {
    a := TrimStartSplits(s);
    b := TrimEndSplits(TrimStart(s));
    assert Trim(s) != [] ==> Trim(s)[0] == TrimStart(s)[0];
  }

  lemma {:induction false} TrimStartPadding(a: string, s: string)
    requires Blank(a) && (s == [] || !IsWhite(s[0]))
    ensures TrimStart(a + s) == s
  {
    if a == [] {
      assert a + s == s;
    } else {
      assert (a + s)[1..] == a[1..] + s;
      TrimStartPadding(a[1..], s);
    }
  }

  lemma {:induction false} TrimEndPadding(s: string, b: string)
    requires Blank(b) && (s == [] || !IsWhite(s[|s| - 1]))
    ensures TrimEnd(s + b) == s
  {
    if b == [] {
      assert s + b == s;
    } else {
      assert (s + b)[..|s + b| - 1] == s + b[..|b| - 1];
      TrimEndPadding(s, b[..|b| - 1]);
    }
  }

  lemma TrimPadding(a: string, s: string, b: string)
    requires Blank(a) && Blank(b) && Trimmed(s) && s != []
    ensures Trim(a + s + b) == s
  {
    assert a + s + b == a + (s + b);
    TrimStartPadding(a, s + b);
    TrimEndPadding(s, b);
  }

  // ---- Memory sizes

  datatype Unit = KB | MB | GB | TB | B {
    function Suffix(): string {
      match this
      case KB => "KB"
      case MB => "MB"
      case GB => "GB"
      case TB => "TB"
      case B => "B"
    }

    function Rank(): nat {
      match this
      case B => 0
      case KB => 1
      case MB => 2
      case GB => 3
      case TB => 4
    }

    function Factor(): nat {
      match this
      case KB => 0x400
      case MB => 0x10_0000
      case GB => 0x4000_0000
      case TB => 0x100_0000_0000
      case B => 1
    }
  }

  /** 1024 to the `k`. */
  function Kilo(k: nat): nat {
    if k == 0 then 1 else 1024 * Kilo(k - 1)
  }

  /** The units are the powers of 1024. */
  lemma UnitsAreKilos(u: Unit)
    ensures u.Factor() == Kilo(u.Rank())
  {
    assert Kilo(2) == 1024 * Kilo(1) && Kilo(4) == 1024 * Kilo(3);
  }

  predicate EndsWith(s: string, suffix: string) {
    |suffix| <= |s| && forall i :: 0 <= i < |suffix| ==> s[|s| - |suffix| + i] == suffix[i]
  }

  /** `KB` to `TB` are tried before `B`. */
  function FindUnit(s: string): (unit: Option<Unit>)
    ensures unit.Some? ==> EndsWith(s, unit.value.Suffix())
  {
    if EndsWith(s, "KB") then Some(KB)
    else if EndsWith(s, "MB") then Some(MB)
    else if EndsWith(s, "GB") then Some(GB)
    else if EndsWith(s, "TB") then Some(TB)
    else if EndsWith(s, "B") then Some(B)
    else None
  }

  /** `Panic` is a product past the width of `usize` in a build that checks overflow. */
  datatype Size = Bytes(value: nat) | NoUnit | NoNumber | Panic

  /** The final product; a build that does not check overflow wraps around. */
  function Scaled(number: nat, unit: Unit, checked: bool): Size {
    var n := number * unit.Factor();
    if n < USIZE_LIMIT then Bytes(n) else if checked then Panic else Bytes(n % USIZE_LIMIT)
  }

  function ParseNumber(stem: string): Option<nat> {
    FromStrRadix(Trim(stem), 10, USIZE_LIMIT)
  }

  function ParseMemorySize(text: string, checked: bool): Size {
    var s := Trim(text);
    match FindUnit(s)
    case None => NoUnit
    case Some(unit) =>
      match ParseNumber(s[..|s| - |unit.Suffix()|])
      case None => NoNumber
      case Some(number) => Scaled(number, unit, checked)
  }

  function PrintSize(n: nat): string {
    Decimal(n) + "B"
  }

  /** One way of writing a size: blanks, perhaps a plus sign, digits, blanks, a unit, blanks. */
  datatype Written = Written(before: string, plus: bool, digits: string, gap: string, unit: Unit, after: string) {
    ghost predicate Valid() {
      Blank(before) && Blank(gap) && Blank(after) && digits != [] && AllDigits(digits, 10)
    }

    function Number(): string {
      (if plus then "+" else "") + digits
    }

    function Stem(): string {
      Number() + gap
    }

    function Core(): string {
      Stem() + unit.Suffix()
    }

    function Text(): string {
      before + Core() + after
    }
  }

  lemma WrittenNumber(w: Written)
    requires w.Valid()
    ensures ParseNumber(w.Stem()) ==
      if Value(w.digits, 10) < USIZE_LIMIT then Some(Value(w.digits, 10)) else None
  {
    assert [] + w.Number() + w.gap == w.Stem();
    NumberParses(w.plus, w.digits);
    TrimPadding([], w.Number(), w.gap);
  }

  lemma NumberParses(plus: bool, digits: string)
    requires digits != [] && AllDigits(digits, 10)
    ensures var number := (if plus then "+" else "") + digits;
      && Trimmed(number)
      && FromStrRadix(number, 10, USIZE_LIMIT) ==
        if Value(digits, 10) < USIZE_LIMIT then Some(Value(digits, 10)) else None
  {
    var number := (if plus then "+" else "") + digits;
    assert DigitValue(digits[0]) < 10 && number[|number| - 1] == digits[|digits| - 1];
    assert plus ==> number[1..] == digits;
    assert !plus ==> number == digits;
  }

  lemma WrittenUnit(w: Written)
    requires w.Valid()
    ensures FindUnit(w.Core()) == Some(w.unit)
  {
    var stem := w.Stem();
    var c := stem[|stem| - 1];
    assert IsWhite(c) || DigitValue(c) < 10 by {
      assert c == if w.gap == [] then w.digits[|w.digits| - 1] else w.gap[|w.gap| - 1];
    }
    UnitFound(stem, w.unit);
  }

  lemma UnitFound(stem: string, unit: Unit)
    requires stem != [] && stem[|stem| - 1] !in "KMGT"
    ensures FindUnit(stem + unit.Suffix()) == Some(unit)
  {
    var s := stem + unit.Suffix();
    LastTwo(s, "KB");
    LastTwo(s, "MB");
    LastTwo(s, "GB");
    LastTwo(s, "TB");
    assert s[|s| - 1] == 'B';
    assert s[|s| - 2] == if unit.B? then stem[|stem| - 1] else unit.Suffix()[0];
  }

  lemma LastTwo(s: string, suffix: string)
    requires |s| >= 2 && |suffix| == 2
    ensures EndsWith(s, suffix) <==> s[|s| - 2] == suffix[0] && s[|s| - 1] == suffix[1]
  {
  }

  /** Every written size is understood, unless the number alone is too wide. */
  lemma WrittenParses(w: Written, checked: bool)
    requires w.Valid()
    ensures var number, bytes := Value(w.digits, 10), Value(w.digits, 10) * Kilo(w.unit.Rank());
      ParseMemorySize(w.Text(), checked) ==
        if number >= 0x1_0000_0000_0000_0000 then NoNumber
        else if bytes < 0x1_0000_0000_0000_0000 then Bytes(bytes)
        else if checked then Panic
        else Bytes(bytes % 0x1_0000_0000_0000_0000)
  {
    UnitsAreKilos(w.unit);
    CoreTrimmed(w);
    TrimPadding(w.before, w.Core(), w.after);
    WrittenUnit(w);
    assert w.Core()[..|w.Core()| - |w.unit.Suffix()|] == w.Stem();
    WrittenNumber(w);
  }

  lemma CoreTrimmed(w: Written)
    requires w.Valid()
    ensures Trimmed(w.Core()) && w.Core() != []
  {
    NumberParses(w.plus, w.digits);
    assert w.Core()[0] == w.Number()[0] && w.Core()[|w.Core()| - 1] == 'B';
  }

  /** Nothing else is understood: a text with a number and a unit is a written size. */
  lemma ParsedIsWritten(text: string, checked: bool) returns (w: Written)
    requires var r := ParseMemorySize(text, checked); r.Bytes? || r.Panic?
    ensures w.Valid() && w.Text() == text && Value(w.digits, 10) < USIZE_LIMIT
  {
    var s, unit := ParsedParts(text, checked);
    var before, after := TrimSplits(text);
    var plus, digits, gap := StemIsWritten(s, s[..|s| - |unit.Suffix()|]);
    w := Written(before, plus, digits, gap, unit, after);
    WrittenText(w, s, text);
  }

  lemma ParsedParts(text: string, checked: bool) returns (s: string, unit: Unit)
    requires var r := ParseMemorySize(text, checked); r.Bytes? || r.Panic?
    ensures s == Trim(text) && EndsWith(s, unit.Suffix()) && ParseNumber(s[..|s| - |unit.Suffix()|]).Some?
  {
    s := Trim(text);
    unit := FindUnit(s).value;
  }

  lemma WrittenText(w: Written, s: string, text: string)
    requires text == w.before + s + w.after
    requires EndsWith(s, w.unit.Suffix()) && s[..|s| - |w.unit.Suffix()|] == w.Stem()
    ensures w.Text() == text
  {
    assert s == s[..|s| - |w.unit.Suffix()|] + w.unit.Suffix();
  }

  /** The stem is the front of a trimmed text, so no blank precedes its number. */
  lemma StemIsWritten(s: string, stem: string) returns (plus: bool, digits: string, gap: string)
    requires stem <= s && Trimmed(s) && ParseNumber(stem).Some?
    ensures stem == (if plus then "+" else "") + digits + gap
    ensures Blank(gap) && digits != [] && AllDigits(digits, 10) && Value(digits, 10) < USIZE_LIMIT
  {
    var lead, rest := TrimSplits(stem);
    var number := Trim(stem);
    plus, gap := |number| > 1 && number[0] == '+', rest;
    digits := if plus then number[1..] else number;
    assert (lead + number + rest)[0] == s[0];
    assert lead == [];
  }

  lemma PrintedIsWritten(n: nat)
    ensures Written([], false, Decimal(n), [], B, []).Text() == PrintSize(n)
  {
  }

  /** What the generator prints, the LibOS reads back. */
  lemma SizeRoundTrip(n: nat, checked: bool)
    ensures ParseMemorySize(PrintSize(n), checked) == if n < USIZE_LIMIT then Bytes(n) else NoNumber
  {
    DecimalValue(n);
    PrintedIsWritten(n);
    assert Kilo(0) == 1;
    WrittenParses(Written([], false, Decimal(n), [], B, []), checked);
  }

  /**
   A size that the generator accepts from the user's configuration, printed and read
   again by the LibOS, is the same size, whatever overflow checks either was built with.
   */
  lemma SizesAcrossTools(text: string, generator: bool, libos: bool)
    requires ParseMemorySize(text, generator).Bytes?
    ensures var size := ParseMemorySize(text, generator);
      ParseMemorySize(PrintSize(size.value), libos) == size
  {
    var size := ParseMemorySize(text, generator);
    assert size.value < USIZE_LIMIT;
    SizeRoundTrip(size.value, libos);
  }

  // ---- MAC text

  const MAC_SIZE: nat := 16

  /** The C format `%02x`. */
  function HexByte(b: Byte): string {
    [DigitChar(b / 16), DigitChar(b % 16)]
  }

  function MacText(mac: seq<Byte>): string {
    if mac == [] then []
    else if |mac| == 1 then HexByte(mac[0])
    else MacText(mac[..|mac| - 1]) + ['-'] + HexByte(mac[|mac| - 1])
  }

  method PrintMac(mac: array<Byte>) returns (text: string)
    requires mac.Length == MAC_SIZE
    ensures text == MacText(mac[..]) + "\n"
  {
    text := "";
    var bi := 0;
    while bi < mac.Length
      invariant 0 <= bi <= mac.Length
      invariant text == MacText(mac[..bi])
    {
      if bi != 0 {
        text := text + ['-'];
      }
      text := text + HexByte(mac[bi]);
      assert mac[..bi + 1][..bi] == mac[..bi];
      bi := bi + 1;
    }
    assert mac[..bi] == mac[..];
    text := text + "\n";
  }

  /** The parts between separators; an empty text has one empty part. */
  function Split(s: string, separator: char): (parts: seq<string>)
    ensures parts != []
  {
    if s == [] then [[]]
    else
      var rest := Split(s[1..], separator);
      if s[0] == separator then [[]] + rest else [[s[0]] + rest[0]] + rest[1..]
  }

  datatype MacResult = Mac(bytes: seq<Byte>) | BadFormat | BadByte

  function ParseByte(part: string): Option<nat> {
    FromStrRadix(part, 16, 256)
  }

  /** The parts are these bytes, in order. */
  ghost predicate AllParse(parts: seq<string>, mac: seq<Byte>) {
    |parts| == |mac| && forall i :: 0 <= i < |mac| ==> ParseByte(parts[i]) == Some(mac[i])
  }

  /** `text` has sixteen parts, and they are these bytes in hexadecimal. */
  ghost predicate Denotes(text: string, mac: seq<Byte>) {
    |mac| == MAC_SIZE && AllParse(Split(text, '-'), mac)
  }

  /** The loop that fills the array, up to the first part that is not a byte. */
  method ParseParts(parts: seq<string>) returns (r: MacResult)
    requires |parts| == MAC_SIZE
    ensures r.Mac? ==> AllParse(parts, r.bytes)
    ensures !r.Mac? ==> r == BadByte && exists i :: 0 <= i < |parts| && ParseByte(parts[i]).None?
  {
    var mac := new Byte[MAC_SIZE](_ => 0);
    var i := 0;
    while i < |parts|
      invariant 0 <= i <= |parts|
      invariant forall j :: 0 <= j < i ==> ParseByte(parts[j]) == Some(mac[j])
    {
      var b := ParseByte(parts[i]);
      if b.None? {
        return BadByte;
      }
      mac[i] := b.value;
      i := i + 1;
    }
    return Mac(mac[..]);
  }

  method ParseMac(text: string) returns (r: MacResult)
    ensures r.Mac? ==> Denotes(text, r.bytes)
    ensures r.BadFormat? <==> |Split(text, '-')| != MAC_SIZE
    ensures r.BadByte? ==> forall mac :: !Denotes(text, mac)
  {
    var parts := Split(text, '-');
    if |parts| != MAC_SIZE {
      return BadFormat;
    }
    r := ParseParts(parts);
  }

  lemma {:induction false} SplitSnoc(a: string, b: string, separator: char)
    requires separator !in b
    ensures Split(a + [separator] + b, separator) == Split(a, separator) + [b]
  {
    var s := a + [separator] + b;
    if a == [] {
      assert s[1..] == b;
      SplitWhole(b, separator);
    } else {
      assert s[1..] == a[1..] + [separator] + b;
      SplitSnoc(a[1..], b, separator);
    }
  }

  lemma {:induction false} SplitWhole(b: string, separator: char)
    requires separator !in b
    ensures Split(b, separator) == [b]
  {
    if b != [] {
      SplitWhole(b[1..], separator);
      assert [b[0]] + b[1..] == b;
    }
  }

  lemma HexByteParses(b: Byte)
    ensures ParseByte(HexByte(b)) == Some(b) && '-' !in HexByte(b)
  {
    var s := HexByte(b);
    assert Value([], 16) == 0;
    assert s[..1][..0] == [] && Value(s[..1], 16) == b / 16;
    assert s[..|s| - 1] == s[..1] && Value(s, 16) == b;
  }

  lemma MacTextSnoc(front: seq<Byte>, b: Byte)
    requires front != []
    ensures MacText(front + [b]) == MacText(front) + ['-'] + HexByte(b)
  {
    assert (front + [b])[..|front|] == front;
  }

  /** Every byte after the first takes three characters, and the parts are the bytes. */
  ghost predicate SplitsBack(mac: seq<Byte>) {
    |MacText(mac)| == 3 * |mac| - 1 && AllParse(Split(MacText(mac), '-'), mac)
  }

  lemma SplitsBackOne(b: Byte)
    ensures SplitsBack([b])
  {
    HexByteParses(b);
    SplitWhole(HexByte(b), '-');
  }

  lemma SplitsBackSnoc(front: seq<Byte>, b: Byte)
    requires front != [] && SplitsBack(front)
    ensures SplitsBack(front + [b])
  {
    MacTextSnoc(front, b);
    HexByteParses(b);
    SplitSnoc(MacText(front), HexByte(b), '-');
    AllParseSnoc(Split(MacText(front), '-'), front, HexByte(b), b);
  }

  lemma {:induction false} MacTextParts(mac: seq<Byte>)
    requires mac != []
    ensures SplitsBack(mac)
  {
    var front, last := mac[..|mac| - 1], mac[|mac| - 1];
    assert mac == front + [last];
    if front == [] {
      SplitsBackOne(last);
      assert mac == [last];
    } else {
      MacTextParts(front);
      SplitsBackSnoc(front, last);
    }
  }

  lemma AllParseSnoc(parts: seq<string>, mac: seq<Byte>, part: string, b: Byte)
    requires AllParse(parts, mac) && ParseByte(part) == Some(b)
    ensures AllParse(parts + [part], mac + [b])
  {
  }

  /** A printed MAC, without its newline, has 47 characters and is read back as the same bytes and no others. */
  lemma MacRoundTrip(mac: seq<Byte>, other: seq<Byte>)
    requires |mac| == MAC_SIZE
    ensures |MacText(mac)| == 47
    ensures Denotes(MacText(mac), other) <==> other == mac
  {
    MacTextParts(mac);
  }

  // ---- What the printed texts look like

  /** A printed size has no leading zero. */
  lemma {:induction false} DecimalPlain(n: nat)
    ensures n > 0 ==> Decimal(n)[0] != '0'
    ensures n == 0 ==> Decimal(n) == "0"
  {
    if n >= 10 {
      DecimalPlain(n / 10);
    }
  }

  /** A printed MAC is made of lower-case hexadecimal digits and dashes. */
  lemma {:induction false} MacTextPlain(mac: seq<Byte>, c: char)
    requires c in MacText(mac)
    ensures c in "0123456789abcdef-"
  {
    if |mac| > 1 && c in MacText(mac[..|mac| - 1]) {
      MacTextPlain(mac[..|mac| - 1], c);
    }
  }

  function Upper(c: char): char {
    if 'a' <= c <= 'f' then (c as int - 'a' as int + 'A' as int) as char else c
  }

  /** A byte is read the same in upper case. */
  lemma UpperCaseParses(b: Byte)
    ensures var s := HexByte(b); ParseByte([Upper(s[0]), Upper(s[1])]) == Some(b)
  {
    var s := HexByte(b);
    var u := [Upper(s[0]), Upper(s[1])];
    assert u[..1][..0] == [] && Value(u[..1], 16) == b / 16;
    assert u[..|u| - 1] == u[..1] && Value(u, 16) == b;
  }

  /** A size as one would write it. */
  lemma SpacedSizeParses(checked: bool)
    ensures ParseMemorySize(" 3 MB\n", checked) == Bytes(3145728)
  {
    var w := Written(" ", false, "3", " ", MB, "\n");
    assert w.Text() == " 3 MB\n";
    assert "3"[..0] == [] && Value("3", 10) == 3;
    assert Kilo(2) == 1024 * Kilo(1);
    WrittenParses(w, checked);
  }
}
