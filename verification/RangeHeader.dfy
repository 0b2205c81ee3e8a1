/** Parsing an HTTP Range header and declaring the length of the answer (src/telegram/handler.rs:284-337 and 407-445).
    */
module RangeHeader {
  import opened Bytes
  import opened RangeStream

  type uint64 = x: int | 0 <= x < 0x1_0000_0000_0000_0000

  // ----- Numbers -----

  predicate IsDigit(c: char) {
    '0' <= c <= '9'
  }

  function DigitValue(c: char): nat
    requires IsDigit(c)
  {
    c as int - '0' as int
  }

  predicate AllDigits(s: string) {
    forall c <- s :: IsDigit(c)
  }

  function Value(s: string): nat
    requires AllDigits(s)
  {
    if s == [] then 0 else 10 * Value(s[..|s| - 1]) + DigitValue(s[|s| - 1])
  }

  /** Reading an unsigned 64-bit number: digits, perhaps behind a plus sign, and no overflow. */
  function ParseU64(s: string): Option<uint64> {
    var digits := if s != [] && s[0] == '+' then s[1..] else s;
    if digits == [] || !AllDigits(digits) || Value(digits) >= 0x1_0000_0000_0000_0000 then None else Some(Value(digits))
  }

  function Digit(n: nat): char
    requires n < 10
  {
    ['0', '1', '2', '3', '4', '5', '6', '7', '8', '9'][n]
  }

  function Decimal(n: nat): (s: string)
    ensures s != [] && AllDigits(s)
  {
    if n < 10 then [Digit(n)] else Decimal(n / 10) + [Digit(n % 10)]
  }

  lemma {:induction false} DecimalValue(n: nat)
    ensures Value(Decimal(n)) == n
  {
    if n >= 10 {
      DecimalValue(n / 10);
      assert Decimal(n)[..|Decimal(n)| - 1] == Decimal(n / 10);
    }
  }

  lemma ParseDecimal(n: uint64)
    ensures ParseU64(Decimal(n)) == Some(n)
  {
    DecimalValue(n);
    assert IsDigit(Decimal(n)[0]);
  }

  // ----- The header -----

  const PREFIX := "bytes="

  /** The text behind the prefix, or all of it. */
  function BytesPart(header: string): string {
    if PREFIX <= header then header[|PREFIX|..] else header
  }

  /** The texts before and behind the first dash. */
  function SplitDash(s: string): Option<(string, string)> {
    if s == [] then None
    else if s[0] == '-' then Some(("", s[1..]))
    else
      match SplitDash(s[1..])
      case None => None
      case Some((a, b)) => Some(([s[0]] + a, b))
  }

  function LastByte(fileSize: uint64): uint64 {
    if fileSize > 0 then fileSize - 1 else 0
  }

  function OrElse(o: Option<uint64>, default: uint64): uint64 {
    if o.Some? then o.value else default
  }

  /** The first and last byte to send. */
  function ParseRange(header: Option<string>, fileSize: uint64): (r: (uint64, uint64)) {
    if header == None then (0, LastByte(fileSize))
    else
      match SplitDash(BytesPart(header.value))
      case None => (0, LastByte(fileSize))
      case Some((startText, endText)) =>
        if startText == [] then
          var suffix := Min(OrElse(ParseU64(endText), 0), fileSize);
          (fileSize - suffix, LastByte(fileSize))
        else
          var start := OrElse(ParseU64(startText), 0);
          var end := if endText == [] then LastByte(fileSize)
                     else Min(OrElse(ParseU64(endText), LastByte(fileSize)), LastByte(fileSize));
          if start > end then (0, LastByte(fileSize)) else (start, end)
  }

  /** The header asks for the last zero bytes, or for a number of last bytes that cannot be read. */
  predicate EmptySuffix(header: Option<string>) {
    header.Some? &&
    match SplitDash(BytesPart(header.value))
    case None => false
    case Some((startText, endText)) => startText == [] && OrElse(ParseU64(endText), 0) == 0
  }

  /** What is declared as the length of the answer. The program subtracts in 64 bits and wraps. */
  function ContentLength(start: uint64, end: uint64): uint64 {
    (end - start + 1) % 0x1_0000_0000_0000_0000
  }

  // ----- What the parsed range guarantees -----

  /** The range is within the file and not inverted, except for an empty suffix of a non-empty file. */
  lemma RangeShape(header: Option<string>, fileSize: uint64)
    ensures var (start, end) := ParseRange(header, fileSize);
            && end <= LastByte(fileSize)
            && (start <= end <==> fileSize == 0 || !EmptySuffix(header))
            && (start > end ==> start == fileSize && end == fileSize - 1)
  {
  }

  /** Without a header, or without a dash in it, the whole file is asked for. */
  lemma WholeFile(header: Option<string>, fileSize: uint64)
    requires header.Some? ==> '-' !in header.value
    ensures ParseRange(header, fileSize) == (0, if fileSize > 0 then fileSize - 1 else 0)
  {
    if header.Some? {
      NoDash(BytesPart(header.value));
    }
  }

  lemma {:induction false} NoDash(s: string)
    requires '-' !in s
    ensures SplitDash(s) == None
  {
    if s != [] {
      NoDash(s[1..]);
    }
  }

  /** What every other header asks for, with or without the prefix: the texts around the first dash, read as numbers. An
      unreadable first byte is byte 0, an unreadable last one the last of the file. */
  lemma AnyRange(prefixed: bool, a: string, b: string, fileSize: uint64)
    requires '-' !in a && (!prefixed ==> !(PREFIX <= a + "-" + b))
    ensures var range := ParseRange(Some((if prefixed then "bytes=" else "") + (a + "-" + b)), fileSize);
            var last := if fileSize > 0 then fileSize - 1 else 0;
            if a == "" then
              range == (if ParseU64(b) == None then fileSize
                        else if ParseU64(b).value > fileSize then 0 else fileSize - ParseU64(b).value, last)
            else
              var start := if ParseU64(a) == None then 0 else ParseU64(a).value;
              var end := if ParseU64(b) == None || ParseU64(b).value > last then last else ParseU64(b).value;
              range == if start > end then (0, last) else (start, end)
  {
    hide ParseU64;
    var text := a + "-" + b;
    var header := (if prefixed then "bytes=" else "") + text;
    assert prefixed ==> PREFIX <= header && header[|PREFIX|..] == text;
    assert !prefixed ==> header == text;
    SplitAtDash(a, b);
    EmptyText();
  }

  lemma EmptyText()
    ensures ParseU64("") == None
  {
  }

  /** Numbers that are read: decimal digits, perhaps behind zeros or a plus sign, below 2^64. */
  lemma NumbersRead(n: nat, zeros: string)
    requires forall i :: 0 <= i < |zeros| ==> zeros[i] == '0'
    ensures ParseU64(zeros + Decimal(n)) == (if n < 0x1_0000_0000_0000_0000 then Some(n) else None)
    ensures ParseU64("+" + (zeros + Decimal(n))) == ParseU64(zeros + Decimal(n))
  {
    var digits := zeros + Decimal(n);
    DecimalValue(n);
    ZerosAhead(zeros, Decimal(n));
    assert ("+" + digits)[1..] == digits;
    assert IsDigit(digits[0]);
  }

  lemma {:induction false} ZerosAhead(zeros: string, s: string)
    requires AllDigits(s) && forall i :: 0 <= i < |zeros| ==> zeros[i] == '0'
    ensures AllDigits(zeros + s) && Value(zeros + s) == Value(s)
    decreases |s|
  {
    if s == [] {
      OnlyZeros(zeros);
      assert zeros + s == zeros;
    } else {
      ZerosAhead(zeros, s[..|s| - 1]);
      assert (zeros + s)[..|zeros + s| - 1] == zeros + s[..|s| - 1];
    }
  }

  lemma {:induction false} OnlyZeros(zeros: string)
    requires forall i :: 0 <= i < |zeros| ==> zeros[i] == '0'
    ensures AllDigits(zeros) && Value(zeros) == 0
  {
    if zeros != [] {
      OnlyZeros(zeros[..|zeros| - 1]);
    }
  }

  /** A first and a last byte written in decimal are read back; a last byte behind the end of the file is cut, and a
      range that is inverted then is taken as the whole file. */
  lemma ExplicitRange(a: uint64, b: uint64, fileSize: uint64)
    ensures ParseRange(Some(PREFIX + Decimal(a) + "-" + Decimal(b)), fileSize)
            == if a > Min(b, LastByte(fileSize)) then (0, LastByte(fileSize)) else (a, Min(b, LastByte(fileSize)))
  {
    HeaderText(Decimal(a), Decimal(b));
    ParseDecimal(a);
    ParseDecimal(b);
  }

  lemma OpenRange(a: uint64, fileSize: uint64)
    ensures ParseRange(Some(PREFIX + Decimal(a) + "-" + ""), fileSize)
            == if a > LastByte(fileSize) then (0, LastByte(fileSize)) else (a, LastByte(fileSize))
  {
    HeaderText(Decimal(a), "");
    ParseDecimal(a);
  }

  lemma SuffixRange(n: uint64, fileSize: uint64)
    ensures ParseRange(Some(PREFIX + "" + "-" + Decimal(n)), fileSize)
            == (if n > fileSize then 0 else fileSize - n, LastByte(fileSize))
  {
    HeaderText("", Decimal(n));
    ParseDecimal(n);
  }

  lemma HeaderText(a: string, b: string)
    requires AllDigits(a)
    ensures SplitDash(BytesPart(PREFIX + a + "-" + b)) == Some((a, b))
  {
    var header := PREFIX + a + "-" + b;
    assert header == PREFIX + (a + "-" + b);
    assert header[|PREFIX|..] == a + "-" + b;
    assert PREFIX <= header;
    SplitAtDash(a, b);
  }

  lemma {:induction false} SplitAtDash(a: string, b: string)
    requires '-' !in a
    ensures SplitDash(a + "-" + b) == Some((a, b))
  {
    var s := a + "-" + b;
    if a == [] {
      assert s == "-" + b;
      assert s[1..] == b;
    } else {
      assert s[0] == a[0] && a[0] in a;
      assert s[1..] == a[1..] + "-" + b;
      SplitAtDash(a[1..], b);
      assert [a[0]] + a[1..] == a;
    }
  }

  /** Whatever the header, a stream that ends without an error has sent exactly the declared number of bytes
      if and only if the file is not empty. (For an empty file one byte is declared.) */
  lemma DeclaredLength(header: Option<string>, file: seq<byte>)
    requires |file| < 0x1_0000_0000_0000_0000
    ensures var (start, end) := ParseRange(header, |file|);
            |Slice(file, start, end)| == ContentLength(start, end) <==> file != []
  {
    hide ParseRange, EmptySuffix, Slice, ContentLength;
    RangeShape(header, |file|);
    var (start, end) := ParseRange(header, |file|);
    LengthOfShape(file, start, end);
  }

  lemma LengthOfShape(file: seq<byte>, start: uint64, end: uint64)
    requires |file| < 0x1_0000_0000_0000_0000 && end <= LastByte(|file|)
    requires start <= end || (start == |file| && end == |file| - 1)
    ensures |Slice(file, start, end)| == ContentLength(start, end) <==> file != []
  {
    if start <= end {
      ModUnique(end - start + 1, 0x1_0000_0000_0000_0000, 0, end - start + 1);
    }
  }

  /** An empty suffix makes the subtraction wrap: the declared length is zero, and nothing is sent. */
  lemma EmptySuffixLength(header: Option<string>, fileSize: uint64)
    requires fileSize > 0
    ensures var (start, end) := ParseRange(header, fileSize);
            ContentLength(start, end) == 0 <==> EmptySuffix(header)
  {
    RangeShape(header, fileSize);
  }

  /** The handler: parse, declare, stream. */
  method Serve(header: Option<string>, file: seq<byte>, net: Network)
    returns (contentLength: uint64, emitted: seq<seq<byte>>, failed: bool)
    requires |file| < 0x1_0000_0000_0000_0000
    ensures var (start, end) := ParseRange(header, |file|);
            && Joined(emitted) <= Slice(file, start, end)
            && (!failed ==> Joined(emitted) == Slice(file, start, end))
            && (!failed ==> (|Joined(emitted)| == contentLength <==> file != []))
    ensures header == None && !failed ==> Joined(emitted) == file
  {
    if header == None {
      WholeFile(header, |file|);
      assert file != [] ==> file[0..|file|] == file;
    }
    var (start, end) := ParseRange(header, |file|);
    RangeShape(header, |file|);
    DeclaredLength(header, file);
    contentLength := ContentLength(start, end);
    emitted, failed := StreamDocumentRange(file, net, start, end);
  }
}
