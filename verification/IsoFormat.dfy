/** `datetime.isoformat()` and the part of `datetime.fromisoformat()` that reads such text back:
    RFC 3339 section 5.6 date-times, with the fraction and the offset optional. */
module IsoFormat {
  import opened Options
  import opened Calendar
  import opened DateTimes

  function DigitChar(d: nat): char
    requires d < 10
  {
    ('0' as int + d) as char
  }

  predicate IsDigit(c: char) {
    '0' <= c <= '9'
  }

  function DigitValue(c: char): nat
    requires IsDigit(c)
  {
    c as int - '0' as int
  }

  /** `n` in decimal, padded with zeros to `width` places. */
  function Pad(n: nat, width: nat): (s: string)
    ensures |s| == width
    ensures forall k :: 0 <= k < |s| ==> IsDigit(s[k])
    decreases width
  {
    if width == 0 then "" else Pad(n / 10, width - 1) + [DigitChar(n % 10)]
  }

  predicate AllDigits(s: string) {
    forall k :: 0 <= k < |s| ==> IsDigit(s[k])
  }

  function Number(s: string): nat
    requires AllDigits(s)
  {
    if s == "" then 0 else 10 * Number(s[..|s| - 1]) + DigitValue(s[|s| - 1])
  }

  function Power10(w: nat): nat {
    if w == 0 then 1 else 10 * Power10(w - 1)
  }

  lemma {:induction false} NumberOfPad(n: nat, width: nat)
    requires n < Power10(width)
    ensures Number(Pad(n, width)) == n
    decreases width
  {
    if width > 0 {
      NumberOfPad(n / 10, width - 1);
      assert Pad(n, width)[..width - 1] == Pad(n / 10, width - 1);
    }
  }

  lemma {:induction false} PadOfNumber(s: string)
    requires AllDigits(s)
    ensures Pad(Number(s), |s|) == s
    ensures Number(s) < Power10(|s|)
  {
    if s != "" {
      PadOfNumber(s[..|s| - 1]);
      assert s == s[..|s| - 1] + [s[|s| - 1]];
    }
  }

  // ---------------------------------------------------------------- the printer

  function PrintDate(d: Date): (s: string)
    requires ValidDate(d)
    ensures |s| == 10
  {
    Pad(d.year, 4) + "-" + Pad(d.month, 2) + "-" + Pad(d.day, 2)
  }

  function PrintClock(t: DateTime): (s: string)
    requires Valid(t)
    ensures |s| == 8
  {
    Pad(t.hour, 2) + ":" + Pad(t.minute, 2) + ":" + Pad(t.second, 2)
  }

  function PrintFraction(micro: int): string
    requires 0 <= micro < 1000000
  {
    if micro == 0 then "" else "." + Pad(micro, 6)
  }

  function OffsetText(sign: char, h: nat, m: nat): (s: string)
    ensures |s| == 6
  {
    [sign] + (Pad(h, 2) + (":" + Pad(m, 2)))
  }

  function PrintOffset(o: Option<int>): string
    requires ValidOffset(o)
  {
    match o
    case None => ""
    case Some(m) =>
      if m < 0 then OffsetText('-', (-m) / 60, (-m) % 60) else OffsetText('+', m / 60, m % 60)
  }

  function Print(t: DateTime): string
    requires Valid(t)
  {
    PrintDate(FromOrdinal(t.day)) + ("T" + (PrintClock(t) + (PrintFraction(t.micro) + PrintOffset(t.offset))))
  }

  predicate IsIsoChar(c: char) {
    IsDigit(c) || c == '-' || c == ':' || c == '.' || c == '+' || c == 'T'
  }

  predicate OnlyIsoChars(s: string) {
    forall k :: 0 <= k < |s| ==> IsIsoChar(s[k])
  }

  lemma PrintedDateChars(d: Date)
    requires ValidDate(d)
    ensures OnlyIsoChars(PrintDate(d)) && IsDigit(PrintDate(d)[0]) && PrintDate(d)[4] == '-'
  {}

  lemma PrintedTailChars(t: DateTime)
    requires Valid(t)
    ensures OnlyIsoChars(PrintFraction(t.micro) + PrintOffset(t.offset))
  {
    assert OnlyIsoChars(PrintOffset(t.offset));
    assert OnlyIsoChars(PrintFraction(t.micro));
  }

  /** What the printer writes: digits and a few separators, a digit first, '-' after the year. */
  lemma PrintedChars(t: DateTime)
    requires Valid(t)
    ensures OnlyIsoChars(Print(t)) && |Print(t)| >= 19 && IsDigit(Print(t)[0]) && Print(t)[4] == '-'
  {
    PrintedDateChars(FromOrdinal(t.day));
    PrintedTailChars(t);
    assert OnlyIsoChars(PrintClock(t));
  }

  // ---------------------------------------------------------------- the parser

  function ParseDate(s: string): (r: Option<Date>)
    ensures r.Some? ==> ValidDate(r.value)
  {
    if |s| == 10 && s[4] == '-' && s[7] == '-'
       && AllDigits(s[..4]) && AllDigits(s[5..7]) && AllDigits(s[8..])
    then
      var d := Date(Number(s[..4]), Number(s[5..7]), Number(s[8..]));
      if ValidDate(d) then Some(d) else None
    else None
  }

  datatype Clock = Clock(hour: int, minute: int, second: int)

  function ParseClock(s: string): (r: Option<Clock>)
    ensures r.Some? ==> 0 <= r.value.hour < 24 && 0 <= r.value.minute < 60 && 0 <= r.value.second < 60
  {
    if |s| == 8 && s[2] == ':' && s[5] == ':'
       && AllDigits(s[..2]) && AllDigits(s[3..5]) && AllDigits(s[6..])
    then
      var c := Clock(Number(s[..2]), Number(s[3..5]), Number(s[6..]));
      if c.hour < 24 && c.minute < 60 && c.second < 60 then Some(c) else None
    else None
  }

  /** An absent fraction is zero; a present one has six digits. */
  predicate HasFraction(s: string) {
    |s| >= 7 && s[0] == '.' && AllDigits(s[1..7])
  }

  function ParseOffset(s: string): (r: Option<Option<int>>)
    ensures r.Some? ==> ValidOffset(r.value)
  {
    if s == "" then Some(None)
    else if s == "Z" then Some(Some(0))
    else if |s| == 6 && (s[0] == '+' || s[0] == '-') && s[3] == ':'
            && AllDigits(s[1..3]) && AllDigits(s[4..]) then
      var h, m := Number(s[1..3]), Number(s[4..]);
      if h < 24 && m < 60 then Some(Some(if s[0] == '-' then -(60 * h + m) else 60 * h + m)) else None
    else None
  }

  function ParseTail(d: Date, c: Clock, s: string): Option<DateTime>
    requires ValidDate(d)
  {
    var micro := if HasFraction(s) then Number(s[1..7]) else 0;
    match ParseOffset(if HasFraction(s) then s[7..] else s)
    case None => None
    case Some(o) => Some(DateTime(Ordinal(d), c.hour, c.minute, c.second, micro, o))
  }

  /** Any one character may separate the date from the time. */
  function Parse(s: string): (r: Option<DateTime>)
    ensures r.Some? ==> Valid(r.value)
  {
    if |s| < 19 then None
    else
      match (ParseDate(s[..10]), ParseClock(s[11..19]))
      case (Some(d), Some(c)) =>
        FromOrdinalInverse(d);
        if HasFraction(s[19..]) then
          PadOfNumber(s[19..][1..7]);
          assert Power10(6) == 1000000;
          ParseTail(d, c, s[19..])
        else ParseTail(d, c, s[19..])
      case _ => None
  }

  // ---------------------------------------------------------------- printing, then parsing

  lemma Powers()
    ensures Power10(2) == 100 && Power10(4) == 10000 && Power10(6) == 1000000
  {
    assert Power10(3) == 1000 && Power10(5) == 100000;
  }

  lemma ParsePrintedDate(d: Date)
    requires ValidDate(d)
    ensures ParseDate(PrintDate(d)) == Some(d)
  {
    var s := PrintDate(d);
    Powers();
    NumberOfPad(d.year, 4);
    NumberOfPad(d.month, 2);
    NumberOfPad(d.day, 2);
    assert s[..4] == Pad(d.year, 4) && s[5..7] == Pad(d.month, 2) && s[8..] == Pad(d.day, 2);
  }

  lemma ParsePrintedClock(t: DateTime)
    requires Valid(t)
    ensures ParseClock(PrintClock(t)) == Some(Clock(t.hour, t.minute, t.second))
  {
    var s := PrintClock(t);
    Powers();
    NumberOfPad(t.hour, 2);
    NumberOfPad(t.minute, 2);
    NumberOfPad(t.second, 2);
    assert s[..2] == Pad(t.hour, 2) && s[3..5] == Pad(t.minute, 2) && s[6..] == Pad(t.second, 2);
  }

  lemma ParsePrintedOffset(o: Option<int>)
    requires ValidOffset(o)
    ensures ParseOffset(PrintOffset(o)) == Some(o)
    ensures !HasFraction(PrintOffset(o))
  {
    if o.Some? {
      var s := PrintOffset(o);
      var a := if o.value < 0 then -o.value else o.value;
      Powers();
      NumberOfPad(a / 60, 2);
      NumberOfPad(a % 60, 2);
      assert s[1..3] == Pad(a / 60, 2) && s[4..] == Pad(a % 60, 2);
    }
  }

  lemma ParsePrintedTail(t: DateTime)
    requires Valid(t)
    ensures ParseTail(FromOrdinal(t.day), Clock(t.hour, t.minute, t.second),
                      PrintFraction(t.micro) + PrintOffset(t.offset)) == Some(t)
  {
    ParsePrintedOffset(t.offset);
    var f, o := PrintFraction(t.micro), PrintOffset(t.offset);
    var s := f + o;
    if t.micro == 0 {
      assert s == o;
    } else {
      Powers();
      NumberOfPad(t.micro, 6);
      assert s[1..7] == Pad(t.micro, 6) && s[7..] == o;
    }
  }

  lemma Parts(a: string, x: char, b: string, c: string)
    requires |a| == 10 && |b| == 8
    ensures var s := a + ([x] + (b + c));
            |s| >= 19 && s[..10] == a && s[10] == x && s[11..19] == b && s[19..] == c
  {
    var s := a + ([x] + (b + c));
    assert s[10..] == [x] + (b + c);
    assert s[11..] == b + c;
    assert s[11..19] == s[11..][..8];
    assert s[19..] == s[11..][8..];
  }

  lemma PrintedParts(t: DateTime)
    requires Valid(t)
    ensures var s := Print(t);
            |s| >= 19 && s[..10] == PrintDate(FromOrdinal(t.day)) && s[10] == 'T' && s[11..19] == PrintClock(t)
            && s[19..] == PrintFraction(t.micro) + PrintOffset(t.offset)
  {
    Parts(PrintDate(FromOrdinal(t.day)), 'T', PrintClock(t), PrintFraction(t.micro) + PrintOffset(t.offset));
  }

  lemma DigitsAre(d: nat)
    requires d < 10
    ensures DigitChar(d) == "0123456789"[d] && DigitValue("0123456789"[d]) == d
  {}

  /** Where everything stands in the text: YYYY-MM-DDTHH:MM:SS, the fraction if there is one, the offset if
      there is one. */
  lemma PrintedLayout(t: DateTime)
    requires Valid(t)
    ensures var s, d := Print(t), FromOrdinal(t.day);
            && |s| >= 19 && s[4] == s[7] == '-' && s[10] == 'T' && s[13] == s[16] == ':'
            && s[..4] == Pad(d.year, 4) && s[5..7] == Pad(d.month, 2) && s[8..10] == Pad(d.day, 2)
            && s[11..13] == Pad(t.hour, 2) && s[14..16] == Pad(t.minute, 2) && s[17..19] == Pad(t.second, 2)
            && s[19..] == (if t.micro == 0 then "" else "." + Pad(t.micro, 6)) + ZoneText(t.offset)
  {
    PrintedParts(t);
    var s, d := Print(t), FromOrdinal(t.day);
    hide Print, Pad;
    DateLayout(d, s[..10]);
    ClockLayout(t, s[11..19]);
    assert s[..10][..4] == s[..4] && s[..10][5..7] == s[5..7] && s[..10][8..10] == s[8..10];
    assert s[11..19][..2] == s[11..13] && s[11..19][3..5] == s[14..16] && s[11..19][6..8] == s[17..19];
    hide PrintDate, PrintClock;
    OffsetIsZoneText(t.offset);
  }

  lemma DateLayout(d: Date, s: string)
    requires ValidDate(d) && s == PrintDate(d)
    ensures s[4] == s[7] == '-' && s[..4] == Pad(d.year, 4) && s[5..7] == Pad(d.month, 2) && s[8..10] == Pad(d.day, 2)
  {}

  lemma ClockLayout(t: DateTime, s: string)
    requires Valid(t) && s == PrintClock(t)
    ensures s[2] == s[5] == ':' && s[..2] == Pad(t.hour, 2) && s[3..5] == Pad(t.minute, 2)
    ensures s[6..8] == Pad(t.second, 2)
  {}

  /** "+05:30" for an offset of 330 minutes. */
  function ZoneText(offset: Option<int>): string
    requires ValidOffset(offset)
  {
    if offset.None? then ""
    else if offset.value >= 0 then "+" + Pad(offset.value / 60, 2) + ":" + Pad(offset.value % 60, 2)
    else "-" + Pad(-offset.value / 60, 2) + ":" + Pad(-offset.value % 60, 2)
  }

  lemma OffsetIsZoneText(offset: Option<int>)
    requires ValidOffset(offset)
    ensures PrintOffset(offset) == ZoneText(offset)
  {}

  /** `fromisoformat` undoes `isoformat`, for naive and for aware values. */
  lemma ParsePrint(t: DateTime)
    requires Valid(t)
    ensures Parse(Print(t)) == Some(t)
  {
    PrintedParts(t);
    ParsePrintedDate(FromOrdinal(t.day));
    ParsePrintedClock(t);
    ParsePrintedTail(t);
  }

  // ---------------------------------------------------------------- parsing, then printing

  /** The spellings `isoformat` never writes: another separator, an all-zero fraction, "Z", "-00:00". */
  predicate Canonical(s: string)
    requires |s| >= 19
  {
    && s[10] == 'T'
    && (HasFraction(s[19..]) ==> s[19..26] != ".000000")
    && (|s| > 19 ==> s[|s| - 1] != 'Z')
    && s[|s| - 6..] != "-00:00"
  }

  lemma PrintParsedDate(s: string)
    requires ParseDate(s).Some?
    ensures PrintDate(ParseDate(s).value) == s
  {
    PadOfNumber(s[..4]);
    PadOfNumber(s[5..7]);
    PadOfNumber(s[8..]);
    assert s == s[..4] + "-" + s[5..7] + "-" + s[8..];
  }

  lemma PrintParsedClock(s: string, t: DateTime)
    requires Valid(t) && ParseClock(s) == Some(Clock(t.hour, t.minute, t.second))
    ensures PrintClock(t) == s
  {
    PadOfNumber(s[..2]);
    PadOfNumber(s[3..5]);
    PadOfNumber(s[6..]);
    assert s == s[..2] + ":" + s[3..5] + ":" + s[6..];
  }

  lemma ZeroPair(s: string)
    requires AllDigits(s) && |s| == 2
    ensures Number(s) == 0 ==> s == "00"
  {
    PadOfNumber(s);
    assert Pad(0, 1) == "0" && Pad(0, 2) == "00";
  }

  lemma HoursAndMinutes(h: nat, m: nat)
    requires m < 60
    ensures (60 * h + m) / 60 == h && (60 * h + m) % 60 == m
  {}

  lemma PrintParsedSigned(s: string)
    requires ParseOffset(s).Some? && s != "" && s != "Z" && s != "-00:00"
    ensures PrintOffset(ParseOffset(s).value) == s
  {
    var hh, mm := s[1..3], s[4..];
    ZeroPair(hh);
    ZeroPair(mm);
    assert s == [s[0]] + (hh + (":" + mm));
    HoursAndMinutes(Number(hh), Number(mm));
    assert PrintOffset(ParseOffset(s).value) == OffsetText(s[0], Number(hh), Number(mm));
    PadOfNumber(hh);
    PadOfNumber(mm);
  }

  lemma PrintParsedOffset(s: string)
    requires ParseOffset(s).Some?
    ensures PrintOffset(ParseOffset(s).value) == s <==> s != "Z" && s != "-00:00"
  {
    if s == "-00:00" {
      assert s[1..3] == "00" && s[4..] == "00";
      assert "0"[..0] == "" && "00"[..1] == "0" && Number("0") == 0 && Number("00") == 0;
      assert PrintOffset(Some(0))[0] == '+';
    } else if s != "" && s != "Z" {
      PrintParsedSigned(s);
    }
  }

  lemma ZeroFraction(s: string)
    requires AllDigits(s) && |s| == 6
    ensures Number(s) == 0 <==> s == "000000"
  {
    PadOfNumber(s);
    Powers();
    assert Pad(0, 1) == "0" && Pad(0, 2) == "00" && Pad(0, 3) == "000";
    assert Pad(0, 4) == "0000" && Pad(0, 5) == "00000" && Pad(0, 6) == "000000";
    NumberOfPad(0, 6);
  }

  lemma PrintParsedTail(s: string, t: DateTime)
    requires Valid(t) && ParseTail(FromOrdinal(t.day), Clock(t.hour, t.minute, t.second), s) == Some(t)
    ensures PrintFraction(t.micro) + PrintOffset(t.offset) == s <==>
            (HasFraction(s) ==> s[..7] != ".000000") &&
            var o := if HasFraction(s) then s[7..] else s; o != "Z" && o != "-00:00"
  {
    var f, o := PrintFraction(t.micro), PrintOffset(t.offset);
    if HasFraction(s) {
      PrintParsedOffset(s[7..]);
      PadOfNumber(s[1..7]);
      ZeroFraction(s[1..7]);
      assert s[..7] == "." + s[1..7];
      assert s == s[..7] + s[7..];
      if t.micro == 0 {
        assert s[..7] == ".000000";
        assert f + o == o;
        if o == s { ParsePrintedOffset(t.offset); }
      } else {
        assert (f + o)[7..] == o;
      }
    } else {
      PrintParsedOffset(s);
      assert f + o == o;
    }
  }

  lemma Reassemble(s: string)
    requires |s| >= 19
    ensures s == s[..10] + ([s[10]] + (s[11..19] + s[19..]))
  {}

  lemma PrintsAs(t: DateTime, s: string)
    requires Valid(t) && |s| >= 19
    ensures Print(t) == s <==>
            PrintDate(FromOrdinal(t.day)) == s[..10] && s[10] == 'T' && PrintClock(t) == s[11..19]
            && PrintFraction(t.micro) + PrintOffset(t.offset) == s[19..]
  {
    PrintedParts(t);
    Reassemble(s);
  }

  /** `isoformat` undoes `fromisoformat` exactly on the canonical spellings. */
  lemma PrintParse(s: string)
    requires Parse(s).Some?
    ensures Print(Parse(s).value) == s <==> Canonical(s)
  {
    var t := Parse(s).value;
    FromOrdinalInverse(ParseDate(s[..10]).value);
    PrintParsedDate(s[..10]);
    PrintParsedClock(s[11..19], t);
    PrintParsedTail(s[19..], t);
    PrintsAs(t, s);
    TailSpelling(s);
  }

  lemma TailSpelling(s: string)
    requires Parse(s).Some?
    ensures Canonical(s) <==>
      s[10] == 'T' && (HasFraction(s[19..]) ==> s[19..][..7] != ".000000") &&
      var o := if HasFraction(s[19..]) then s[19..][7..] else s[19..]; o != "Z" && o != "-00:00"
  {
    var tail := s[19..];
    var o := if HasFraction(tail) then tail[7..] else tail;
    assert HasFraction(tail) ==> s[19..26] == tail[..7];
    assert o == s[|s| - |o|..];
    if o == "" {
      assert |s| == 19 ==> s[13] == s[11..19][2] && s[18] == s[11..19][7];
      assert |s| == 26 ==> s[20] == tail[1..7][0] && s[25] == tail[1..7][5];
      assert s[|s| - 6..][0] != '-';
    }
  }

  // ---------------------------------------------------------------- every spelling

  /** The offset as `isoformat` writes it; UTC also as "Z" and "-00:00". */
  predicate SpellsOffset(z: string, offset: Option<int>)
    requires ValidOffset(offset)
  {
    z == ZoneText(offset) || (offset == Some(0) && (z == "Z" || z == "-00:00"))
  }

  /** The fraction in six digits; zero also as nothing. */
  predicate SpellsFraction(f: string, micro: int)
    requires 0 <= micro < 1000000
  {
    f == "." + Pad(micro, 6) || (f == "" && micro == 0)
  }

  ghost predicate Spells(s: string, t: DateTime)
    requires Valid(t)
  {
    && |s| >= 19 && s[..10] == PrintDate(FromOrdinal(t.day)) && s[11..19] == PrintClock(t)
    && exists f, z :: s[19..] == f + z && SpellsFraction(f, t.micro) && SpellsOffset(z, t.offset)
  }

  lemma OffsetReadsIff(z: string, offset: Option<int>)
    requires ValidOffset(offset)
    ensures ParseOffset(z) == Some(offset) <==> SpellsOffset(z, offset)
    ensures SpellsOffset(z, offset) ==> !HasFraction(z)
  {
    hide ZoneText, PrintOffset, ParseOffset, HasFraction;
    OffsetIsZoneText(offset);
    ParsePrintedOffset(offset);
    UtcReads();
    if ParseOffset(z).Some? { PrintParsedOffset(z); }
  }

  lemma UtcReads()
    ensures ParseOffset("Z") == ParseOffset("-00:00") == Some(Some(0))
    ensures !HasFraction("Z") && !HasFraction("-00:00")
  {
    assert "-00:00"[1..3] == "00" && "-00:00"[4..] == "00";
    assert "0"[..0] == "" && "00"[..1] == "0" && Number("0") == 0 && Number("00") == 0;
  }

  lemma TailReads(d: Date, c: Clock, s: string, t: DateTime)
    requires ValidDate(d) && Valid(t) && ParseTail(d, c, s) == Some(t)
    ensures exists f, z :: s == f + z && SpellsFraction(f, t.micro) && SpellsOffset(z, t.offset)
  {
    var f, z := if HasFraction(s) then s[..7] else "", if HasFraction(s) then s[7..] else s;
    OffsetReadsIff(z, t.offset);
    if HasFraction(s) {
      PadOfNumber(s[1..7]);
      assert f == "." + s[1..7];
    }
    assert s == f + z;
  }

  lemma TailOf(d: Date, c: Clock, s: string, f: string, z: string, t: DateTime)
    requires ValidDate(d) && Valid(t) && t.day == Ordinal(d) && c == Clock(t.hour, t.minute, t.second)
    requires s == f + z && SpellsFraction(f, t.micro) && SpellsOffset(z, t.offset)
    ensures ParseTail(d, c, s) == Some(t)
  {
    OffsetReadsIff(z, t.offset);
    if f == "" {
      assert s == z;
    } else {
      Powers();
      NumberOfPad(t.micro, 6);
      assert s[1..7] == Pad(t.micro, 6) && s[7..] == z;
    }
  }

  /** Exactly the spellings of a date-time, with any character between date and time, are read as it. */
  lemma ReadsIff(s: string, t: DateTime)
    requires Valid(t)
    ensures Parse(s) == Some(t) <==> Spells(s, t)
  {
    hide ParseTail, ParseDate, ParseClock, PrintClock, PrintDate, SpellsFraction, SpellsOffset, Pad, ZoneText;
    var d, c := FromOrdinal(t.day), Clock(t.hour, t.minute, t.second);
    if Parse(s) == Some(t) {
      var d' := ParseDate(s[..10]).value;
      TailFields(d', ParseClock(s[11..19]).value, s[19..], t);
      FromOrdinalInverse(d');
      PrintParsedDate(s[..10]);
      PrintParsedClock(s[11..19], t);
      TailReads(d, c, s[19..], t);
    }
    if Spells(s, t) {
      ParsePrintedDate(d);
      ParsePrintedClock(t);
      var f, z :| s[19..] == f + z && SpellsFraction(f, t.micro) && SpellsOffset(z, t.offset);
      TailOf(d, c, s[19..], f, z, t);
    }
  }

  lemma TailFields(d: Date, c: Clock, s: string, t: DateTime)
    requires ValidDate(d) && ParseTail(d, c, s) == Some(t)
    ensures t.day == Ordinal(d) && c == Clock(t.hour, t.minute, t.second)
  {}
}
