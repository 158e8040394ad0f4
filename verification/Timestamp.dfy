/**
  RFC 3339 timestamps (grammar in section 5.6, ordering in section 5.1) as the
  SDK reads them, and the nanosecond count they stand for.
 */
module Timestamp {
  import opened Basics

  // ------------------------------------------------------------ the calendar

  predicate IsLeap(y: int) {
    y % 4 == 0 && (y % 100 != 0 || y % 400 == 0)
  }

  function MonthDays(y: nat, m: nat): nat {
    if m == 2 then (if IsLeap(y) then 29 else 28)
    else if m == 4 || m == 6 || m == 9 || m == 11 then 30
    else 31
  }

  function DaysBeforeMonth(y: nat, m: nat): nat {
    if m <= 1 then 0 else DaysBeforeMonth(y, m - 1) + MonthDays(y, m - 1)
  }

  function YearDays(y: nat): nat {
    if IsLeap(y) then 366 else 365
  }

  /** Days from 0000-01-01 to the first day of year `y`, counted year by year. */
  function DaysBeforeYear(y: nat): nat {
    if y == 0 then 0 else DaysBeforeYear(y - 1) + YearDays(y - 1)
  }

  const EPOCH := 719528

  /** Days from 1970-01-01: what `std::chrono::sys_days` counts. */
  function EpochDays(y: nat, m: nat, d: nat): int {
    DaysBeforeYear(y) + DaysBeforeMonth(y, m) + d - 1 - EPOCH
  }

  // ------------------------------------------------- timestamps as fields

  datatype Zone = Unmarked | Zulu(letter: char) | Offset(sign: char, hours: nat, colon: bool, minutes: nat)

  datatype Timestamp = Timestamp(year: nat, month: nat, day: nat, separator: char,
                                 hour: nat, minute: nat, second: nat, fraction: string, zone: Zone)

  predicate AllDigits(s: string) {
    forall i | 0 <= i < |s| :: IsDigit(s[i])
  }

  function DigitValue(c: char): (v: nat)
    requires IsDigit(c)
    ensures v < 10
  {
    (c - '0') as nat
  }

  function Digit(v: nat): (c: char)
    requires v < 10
    ensures IsDigit(c) && DigitValue(c) == v
  {
    '0' + v as char
  }

  function Decimal(s: string): nat
    requires AllDigits(s)
  {
    if |s| == 0 then 0 else Decimal(s[..|s| - 1]) * 10 + DigitValue(s[|s| - 1])
  }

  function Pow10(n: nat): nat {
    if n == 0 then 1 else 10 * Pow10(n - 1)
  }

  /** The first nine digits of the fraction, brought to nanoseconds. */
  function Nanoseconds(fraction: string): nat
    requires AllDigits(fraction)
  {
    if |fraction| > 9 then Decimal(fraction[..9]) else Decimal(fraction) * Pow10(9 - |fraction|)
  }

  function OffsetMinutes(zone: Zone): int {
    if !zone.Offset? then 0
    else if zone.sign == '-' then -(zone.hours * 60 + zone.minutes)
    else zone.hours * 60 + zone.minutes
  }

  /** The fields the grammar can hold; it does not bound hours, minutes or seconds. */
  predicate WellFormed(t: Timestamp) {
    && t.year < 10000 && t.month < 100 && t.day < 100 && t.hour < 100 && t.minute < 100 && t.second < 100
    && (t.separator == 'T' || t.separator == 't' || t.separator == ' ')
    && AllDigits(t.fraction)
    && (t.zone.Zulu? ==> t.zone.letter == 'Z' || t.zone.letter == 'z')
    && (t.zone.Offset? ==> (t.zone.sign == '+' || t.zone.sign == '-') && t.zone.hours < 100 && t.zone.minutes < 100)
  }

  /** `year_month_day::ok()` */
  predicate ValidDate(t: Timestamp) {
    1 <= t.month <= 12 && 1 <= t.day <= MonthDays(t.year, t.month)
  }

  const SECOND := 1_000_000_000

  function Clock(days: int, hour: int, minute: int, second: int, nanoseconds: int): int {
    (((days * 24 + hour) * 60 + minute) * 60 + second) * SECOND + nanoseconds
  }

  /** Nanoseconds from the epoch to the written local time. */
  function LocalNanos(t: Timestamp): int
    requires AllDigits(t.fraction)
  {
    Clock(EpochDays(t.year, t.month, t.day), t.hour, t.minute, t.second, Nanoseconds(t.fraction))
  }

  function Instant(t: Timestamp): int
    requires AllDigits(t.fraction)
  {
    LocalNanos(t) - OffsetMinutes(t.zone) * 60 * SECOND
  }

  // -------------------------------------------------- timestamps as text

  /** `n` in exactly `width` digits. */
  function Pad(n: nat, width: nat): (s: string)
    ensures |s| == width && AllDigits(s)
  {
    if width == 0 then "" else Pad(n / 10, width - 1) + [Digit(n % 10)]
  }

  function DateText(t: Timestamp): string
    requires WellFormed(t)
  {
    Pad(t.year, 4) + ("-" + (Pad(t.month, 2) + ("-" + Pad(t.day, 2))))
  }

  function TimeText(t: Timestamp): string
    requires WellFormed(t)
  {
    Pad(t.hour, 2) + (":" + (Pad(t.minute, 2) + (":" + Pad(t.second, 2))))
  }

  function ZoneText(z: Zone): string
    requires z.Offset? ==> z.hours < 100 && z.minutes < 100
  {
    match z
    case Unmarked => ""
    case Zulu(letter) => [letter]
    case Offset(sign, hours, colon, minutes) =>
      [sign] + (Pad(hours, 2) + ((if colon then ":" else "") + Pad(minutes, 2)))
  }

  function FractionText(f: string): string {
    if f == "" then "" else "." + f
  }

  function Format(t: Timestamp): string
    requires WellFormed(t)
  {
    DateText(t) + ([t.separator] + (TimeText(t) + (FractionText(t.fraction) + ZoneText(t.zone))))
  }

  // ---------------------------------------------- reading text into fields

  predicate DigitsAt(s: string, pos: nat, len: nat) {
    pos + len <= |s| && AllDigits(s[pos..pos + len])
  }

  function Number(s: string, pos: nat, len: nat): nat
    requires DigitsAt(s, pos, len)
  {
    Decimal(s[pos..pos + len])
  }

  /** Where the digits from `pos` on end. */
  function DigitsEnd(s: string, pos: nat): (end: nat)
    requires pos <= |s|
    ensures pos <= end <= |s| && AllDigits(s[pos..end]) && (end < |s| ==> !IsDigit(s[end]))
    decreases |s| - pos
  {
    if pos < |s| && IsDigit(s[pos]) then
      var end := DigitsEnd(s, pos + 1);
      assert s[pos..end] == [s[pos]] + s[pos + 1..end];
      end
    else pos
  }

  predicate HeadMatches(s: string) {
    && |s| >= 19
    && DigitsAt(s, 0, 4) && s[4] == '-' && DigitsAt(s, 5, 2) && s[7] == '-' && DigitsAt(s, 8, 2)
    && (s[10] == 'T' || s[10] == 't' || s[10] == ' ')
    && DigitsAt(s, 11, 2) && s[13] == ':' && DigitsAt(s, 14, 2) && s[16] == ':' && DigitsAt(s, 17, 2)
  }

  function ReadZone(s: string, pos: nat): Option<Zone>
    requires pos <= |s|
  {
    if pos == |s| then Some(Unmarked)
    else if s[pos] == 'Z' || s[pos] == 'z' then
      if pos + 1 == |s| then Some(Zulu(s[pos])) else None
    else if s[pos] == '+' || s[pos] == '-' then
      if !DigitsAt(s, pos + 1, 2) then None
      else
        var colon := pos + 3 < |s| && s[pos + 3] == ':';
        var next := if colon then pos + 4 else pos + 3;
        if DigitsAt(s, next, 2) && next + 2 == |s| then
          Some(Offset(s[pos], Number(s, pos + 1, 2), colon, Number(s, next, 2)))
        else None
    else None
  }

  /** The digits of a fraction at `pos`, if there is a dot, and where the zone begins. */
  function ReadFraction(s: string, pos: nat): (r: Option<(string, nat)>)
    requires pos <= |s|
    ensures r.Some? ==> r.value.1 <= |s| && AllDigits(r.value.0)
  {
    if pos < |s| && s[pos] == '.' then
      var end := DigitsEnd(s, pos + 1);
      if end == pos + 1 then None else Some((s[pos + 1..end], end))
    else Some(("", pos))
  }

  function Fields(s: string, fraction: string, zone: Zone): Timestamp
    requires HeadMatches(s)
  {
    Timestamp(Number(s, 0, 4), Number(s, 5, 2), Number(s, 8, 2), s[10],
              Number(s, 11, 2), Number(s, 14, 2), Number(s, 17, 2), fraction, zone)
  }

  function Read(s: string): Option<Timestamp> {
    if !HeadMatches(s) then None
    else
      var fraction := ReadFraction(s, 19);
      if fraction.None? then None
      else
        var zone := ReadZone(s, fraction.value.1);
        if zone.None? then None else Some(Fields(s, fraction.value.0, zone.value))
  }

  // ---------------------------------------------------------------- the code

  method ParseFixedDecimal(s: string, pos: nat, len: nat) returns (ok: bool, value: nat)
    ensures ok <==> DigitsAt(s, pos, len)
    ensures ok ==> value == Number(s, pos, len) < Pow10(len)
  {
    ok, value := false, 0;
    if pos + len > |s| {
      return;
    }
    var v := 0;
    ghost var text := s[pos..pos + len];
    for i := 0 to len
      invariant AllDigits(text[..i]) && v == Decimal(text[..i]) < Pow10(i)
    {
      var c := s[pos + i];
      if c < '0' || c > '9' {
        assert text[i] == c;
        return;
      }
      assert text[..i + 1][..i] == text[..i];
      v := v * 10 + (c - '0') as nat;
    }
    assert text[..len] == text;
    return true, v;
  }

  method ParseZone(s: string, from: nat) returns (zone: Option<int>)
    requires from <= |s|
    ensures zone == match ReadZone(s, from) { case None => None case Some(z) => Some(OffsetMinutes(z)) }
  {
    var pos := from;
    var minutes: int := 0;
    if pos >= |s| {
    } else if s[pos] == 'Z' || s[pos] == 'z' {
      pos := pos + 1;
    } else if s[pos] == '+' || s[pos] == '-' {
      var sign: int := if s[pos] == '-' then -1 else 1;
      pos := pos + 1;
      var ok, tzh := ParseFixedDecimal(s, pos, 2);
      if !ok {
        return None;
      }
      pos := pos + 2;
      if pos < |s| && s[pos] == ':' {
        pos := pos + 1;
      }
      var tzm;
      ok, tzm := ParseFixedDecimal(s, pos, 2);
      if !ok {
        return None;
      }
      pos := pos + 2;
      minutes := sign * (tzh * 60 + tzm);
    } else {
      return None;
    }
    return if pos != |s| then None else Some(minutes);
  }

  method SkipDigits(s: string, from: nat) returns (pos: nat)
    requires from <= |s|
    ensures pos == DigitsEnd(s, from)
  {
    pos := from;
    while pos < |s| && '0' <= s[pos] <= '9'
      invariant from <= pos <= |s| && DigitsEnd(s, pos) == DigitsEnd(s, from)
    {
      pos := pos + 1;
    }
  }

  /** Of the digits up to `pos`, those that count have the fraction's value. */
  lemma FractionValue(s: string, start: nat, pos: nat, digits: nat)
    requires start < pos <= |s| && AllDigits(s[start..pos]) && digits == if pos - start > 9 then 9 else pos - start
    ensures DigitsAt(s, start, digits)
    ensures Nanoseconds(s[start..pos]) == Number(s, start, digits) * Pow10(9 - digits)
  {
    var text := s[start..pos];
    assert text[..digits] == s[start..start + digits];
    assert Pow10(0) == 1;
    if |text| <= 9 {
      assert text[..digits] == text;
    }
  }

  /** The fraction, in nanoseconds, and where it ends. */
  method ParseFraction(s: string, from: nat) returns (nanoseconds: Option<nat>, pos: nat)
    requires from <= |s|
    ensures nanoseconds.None? <==> ReadFraction(s, from).None?
    ensures nanoseconds.Some? ==>
              pos == ReadFraction(s, from).value.1 && nanoseconds.value == Nanoseconds(ReadFraction(s, from).value.0)
  {
    hide Nanoseconds, Number, Decimal;
    pos := from;
    if pos >= |s| || s[pos] != '.' {
      EmptyFraction();
      return Some(0), pos;
    }
    pos := pos + 1;
    var start := pos;
    pos := SkipDigits(s, start);
    var digits := pos - start;
    if digits == 0 {
      return None, pos;
    }
    if digits > 9 {
      digits := 9;
    }
    FractionValue(s, start, pos, digits);
    var ok, frac := ParseFixedDecimal(s, start, digits);
    var scale := 1;
    for i := digits to 9
      invariant scale == Pow10(i - digits)
    {
      scale := scale * 10;
    }
    nanoseconds := Some(frac * scale);
  }

  /** The instant a timestamp stands for, or nothing when it is malformed or no calendar day. */
  function Value(s: string): Option<int> {
    match Read(s)
    case None => None
    case Some(t) => if ValidDate(t) then Some(Instant(t)) else None
  }

  datatype Head = Head(year: nat, month: nat, day: nat, hour: nat, minute: nat, second: nat)

  /** The nineteen characters every timestamp starts with. */
  method ParseHead(s: string) returns (h: Option<Head>)
    ensures h.Some? <==> HeadMatches(s)
    ensures h.Some? ==>
              h.value == Head(Number(s, 0, 4), Number(s, 5, 2), Number(s, 8, 2),
                              Number(s, 11, 2), Number(s, 14, 2), Number(s, 17, 2))
  {
    if |s| < 19 {
      return None;
    }
    var ok, year, month, day, hour, minute, second;
    ok, year := ParseFixedDecimal(s, 0, 4);
    if !ok || s[4] != '-' {
      return None;
    }
    ok, month := ParseFixedDecimal(s, 5, 2);
    if !ok || s[7] != '-' {
      return None;
    }
    ok, day := ParseFixedDecimal(s, 8, 2);
    var t := s[10];
    if !ok || (t != 'T' && t != 't' && t != ' ') {
      return None;
    }
    ok, hour := ParseFixedDecimal(s, 11, 2);
    if !ok || s[13] != ':' {
      return None;
    }
    ok, minute := ParseFixedDecimal(s, 14, 2);
    if !ok || s[16] != ':' {
      return None;
    }
    ok, second := ParseFixedDecimal(s, 17, 2);
    if !ok {
      return None;
    }
    return Some(Head(year, month, day, hour, minute, second));
  }

  const INT64_MAX := 0x7fff_ffff_ffff_ffff

  predicate FitsInt64(n: int) {
    -INT64_MAX - 1 <= n <= INT64_MAX
  }

  /** The nanosecond count before the fraction is added. */
  function WholeSeconds(t: Timestamp): int {
    Clock(EpochDays(t.year, t.month, t.day), t.hour, t.minute, t.second, 0)
  }

  /** No step of the 64-bit computation overflows: whole seconds, then the fraction, then the offset. */
  predicate Exact(t: Timestamp)
    requires AllDigits(t.fraction)
  {
    FitsInt64(WholeSeconds(t)) && FitsInt64(LocalNanos(t)) && FitsInt64(Instant(t))
  }

  /** `exact` says that no 64-bit step overflowed; one that does is undefined behaviour in the source. */
  method ParseTimestamp(s: string) returns (r: Option<int>, ghost exact: bool)
    ensures r == Value(s)
    ensures r.Some? ==> Read(s).Some? && (exact <==> Exact(Read(s).value))
  {
    exact := true;
    var head := ParseHead(s);
    if head.None? {
      return None, exact;
    }
    var h := head.value;
    var nanoseconds, pos := ParseFraction(s, 19);
    if nanoseconds.None? {
      return None, exact;
    }
    var offset := ParseZone(s, pos);
    if offset.None? || !(1 <= h.month <= 12 && 1 <= h.day <= MonthDays(h.year, h.month)) {
      return None, exact;
    }
    var tp := Clock(EpochDays(h.year, h.month, h.day), h.hour, h.minute, h.second, 0);
    exact := FitsInt64(tp);
    tp := tp + nanoseconds.value;
    exact := exact && FitsInt64(tp);
    tp := tp - offset.value * 60 * SECOND;
    exact := exact && FitsInt64(tp);
    return Some(tp), exact;
  }

  // ------------------------------------------------- text and fields agree

  lemma {:induction false} PadReads(n: nat, width: nat)
    requires n < Pow10(width)
    ensures Decimal(Pad(n, width)) == n
  {
    if width > 0 {
      PadReads(n / 10, width - 1);
      assert Pad(n, width)[..width - 1] == Pad(n / 10, width - 1);
    }
  }

  lemma {:induction false} ReadPads(s: string)
    requires AllDigits(s)
    ensures Decimal(s) < Pow10(|s|) && Pad(Decimal(s), |s|) == s
  {
    if |s| > 0 {
      var front, last := s[..|s| - 1], s[|s| - 1];
      ReadPads(front);
      assert Digit(DigitValue(last)) == last && s == front + [last];
      assert Decimal(s) / 10 == Decimal(front) && Decimal(s) % 10 == DigitValue(last);
    }
  }

  lemma Powers()
    ensures Pow10(2) == 100 && Pow10(4) == 10000 && Pow10(9) == SECOND
  {
  }

  lemma {:induction false} DigitsEndAt(s: string, pos: nat, end: nat)
    requires pos <= end <= |s| && (forall i | pos <= i < end :: IsDigit(s[i])) && (end < |s| ==> !IsDigit(s[end]))
    ensures DigitsEnd(s, pos) == end
    decreases end - pos
  {
    if pos < end {
      DigitsEndAt(s, pos + 1, end);
    }
  }

  /** `s` holds the given text from `pos` on. */
  predicate Holds(s: string, pos: nat, text: string) {
    pos + |text| <= |s| && s[pos..pos + |text|] == text
  }

  lemma HoldsBlocks(s: string, pos: nat, a: string, b: string)
    ensures Holds(s, pos, a + b) <==> Holds(s, pos, a) && Holds(s, pos + |a|, b)
  {
    if pos + |a| + |b| <= |s| {
      var text := s[pos..pos + |a| + |b|];
      assert text[..|a|] == s[pos..pos + |a|] && text[|a|..] == s[pos + |a|..pos + |a| + |b|];
      assert text == a + b <==> text[..|a|] == a && text[|a|..] == b;
    }
  }

  lemma CharHeld(s: string, pos: nat, c: char)
    ensures Holds(s, pos, [c]) <==> pos < |s| && s[pos] == c
  {
  }

  /** Holding the date and time text is holding its numbers and its separators. */
  lemma DateHeld(s: string, t: Timestamp)
    requires WellFormed(t)
    ensures Holds(s, 0, DateText(t)) <==>
            Holds(s, 0, Pad(t.year, 4)) && Holds(s, 4, "-") && Holds(s, 5, Pad(t.month, 2)) && Holds(s, 7, "-") &&
            Holds(s, 8, Pad(t.day, 2))
  {
    HoldsBlocks(s, 0, Pad(t.year, 4), "-" + (Pad(t.month, 2) + ("-" + Pad(t.day, 2))));
    HoldsBlocks(s, 4, "-", Pad(t.month, 2) + ("-" + Pad(t.day, 2)));
    HoldsBlocks(s, 5, Pad(t.month, 2), "-" + Pad(t.day, 2));
    HoldsBlocks(s, 7, "-", Pad(t.day, 2));
  }

  lemma TimeHeld(s: string, t: Timestamp)
    requires WellFormed(t)
    ensures Holds(s, 11, TimeText(t)) <==>
            Holds(s, 11, Pad(t.hour, 2)) && Holds(s, 13, ":") && Holds(s, 14, Pad(t.minute, 2)) &&
            Holds(s, 16, ":") && Holds(s, 17, Pad(t.second, 2))
  {
    HoldsBlocks(s, 11, Pad(t.hour, 2), ":" + (Pad(t.minute, 2) + (":" + Pad(t.second, 2))));
    HoldsBlocks(s, 13, ":", Pad(t.minute, 2) + (":" + Pad(t.second, 2)));
    HoldsBlocks(s, 14, Pad(t.minute, 2), ":" + Pad(t.second, 2));
    HoldsBlocks(s, 16, ":", Pad(t.second, 2));
  }

  ghost predicate HeadHeld(s: string, t: Timestamp)
    requires WellFormed(t)
  {
    Holds(s, 0, DateText(t)) && Holds(s, 10, [t.separator]) && Holds(s, 11, TimeText(t))
  }

  lemma TextLengths(t: Timestamp)
    requires WellFormed(t)
    ensures |DateText(t)| == 10 && |TimeText(t)| == 8
  {
  }

  lemma WholeHeld(s: string, text: string)
    ensures s == text <==> Holds(s, 0, text) && |s| == |text|
  {
    assert s[0..|s|] == s;
  }

  lemma FormatHeld(s: string, t: Timestamp)
    requires WellFormed(t)
    ensures s == Format(t) <==>
            && HeadHeld(s, t) && Holds(s, 19, FractionText(t.fraction))
            && Holds(s, 19 + |FractionText(t.fraction)|, ZoneText(t.zone))
            && |s| == 19 + |FractionText(t.fraction)| + |ZoneText(t.zone)|
  {
    hide DateText, TimeText, ZoneText, FractionText, Pad, Holds;
    TextLengths(t);
    var fraction, zone := FractionText(t.fraction), ZoneText(t.zone);
    var time := TimeText(t) + (fraction + zone);
    HoldsBlocks(s, 0, DateText(t), [t.separator] + time);
    HoldsBlocks(s, 10, [t.separator], time);
    HoldsBlocks(s, 11, TimeText(t), fraction + zone);
    HoldsBlocks(s, 19, fraction, zone);
    WholeHeld(s, Format(t));
  }

  lemma DigitsHeld(s: string, pos: nat, n: nat, width: nat)
    requires n < Pow10(width)
    ensures Holds(s, pos, Pad(n, width)) <==> DigitsAt(s, pos, width) && Number(s, pos, width) == n
  {
    if Holds(s, pos, Pad(n, width)) {
      PadReads(n, width);
    } else if DigitsAt(s, pos, width) {
      ReadPads(s[pos..pos + width]);
    }
  }

  lemma HeadIsRead(s: string, t: Timestamp)
    requires WellFormed(t)
    ensures HeadHeld(s, t) <==> HeadMatches(s) && t == Fields(s, t.fraction, t.zone)
  {
    Powers();
    DateHeld(s, t);
    TimeHeld(s, t);
    CharHeld(s, 4, '-');
    CharHeld(s, 7, '-');
    CharHeld(s, 10, t.separator);
    CharHeld(s, 13, ':');
    CharHeld(s, 16, ':');
    DigitsHeld(s, 0, t.year, 4);
    DigitsHeld(s, 5, t.month, 2);
    DigitsHeld(s, 8, t.day, 2);
    DigitsHeld(s, 11, t.hour, 2);
    DigitsHeld(s, 14, t.minute, 2);
    DigitsHeld(s, 17, t.second, 2);
  }

  ghost predicate ZoneFormed(z: Zone) {
    && (z.Zulu? ==> z.letter == 'Z' || z.letter == 'z')
    && (z.Offset? ==> (z.sign == '+' || z.sign == '-') && z.hours < 100 && z.minutes < 100)
  }

  lemma OffsetHeld(s: string, pos: nat, z: Zone)
    requires ZoneFormed(z) && z.Offset?
    ensures var next := pos + (if z.colon then 4 else 3);
            Holds(s, pos, ZoneText(z)) <==>
            && Holds(s, pos, [z.sign]) && Holds(s, pos + 1, Pad(z.hours, 2))
            && (z.colon ==> Holds(s, pos + 3, ":")) && Holds(s, next, Pad(z.minutes, 2))
  {
    var minutes := Pad(z.minutes, 2);
    if z.colon {
      HoldsBlocks(s, pos, [z.sign], Pad(z.hours, 2) + (":" + minutes));
      HoldsBlocks(s, pos + 1, Pad(z.hours, 2), ":" + minutes);
      HoldsBlocks(s, pos + 3, ":", minutes);
    } else {
      Unit(minutes);
      HoldsBlocks(s, pos, [z.sign], Pad(z.hours, 2) + ("" + minutes));
      HoldsBlocks(s, pos + 1, Pad(z.hours, 2), minutes);
    }
  }

  lemma OffsetIsRead(s: string, pos: nat, z: Zone)
    requires pos <= |s| && ZoneFormed(z) && z.Offset?
    ensures Holds(s, pos, ZoneText(z)) && |s| == pos + |ZoneText(z)| <==> ReadZone(s, pos) == Some(z)
  {
    hide Decimal, Pad, ZoneText, Holds, Pow10;
    assert Pow10(2) == 100 && |ZoneText(z)| == (if z.colon then 6 else 5) by { OffsetLength(z); }
    var next := pos + (if z.colon then 4 else 3);
    OffsetHeld(s, pos, z);
    CharHeld(s, pos, z.sign);
    CharHeld(s, pos + 3, ':');
    DigitsHeld(s, pos + 1, z.hours, 2);
    DigitsHeld(s, next, z.minutes, 2);
    DigitsStart(s, next);
  }

  lemma OffsetLength(z: Zone)
    requires ZoneFormed(z) && z.Offset?
    ensures Pow10(2) == 100 && |ZoneText(z)| == if z.colon then 6 else 5
  {
    Powers();
  }

  lemma DigitsStart(s: string, pos: nat)
    ensures DigitsAt(s, pos, 2) ==> pos < |s| && IsDigit(s[pos])
  {
    if DigitsAt(s, pos, 2) {
      assert s[pos..pos + 2][0] == s[pos];
    }
  }

  lemma ZoneIsRead(s: string, pos: nat, z: Zone)
    requires pos <= |s| && ZoneFormed(z)
    ensures Holds(s, pos, ZoneText(z)) && |s| == pos + |ZoneText(z)| <==> ReadZone(s, pos) == Some(z)
  {
    if z.Offset? {
      OffsetIsRead(s, pos, z);
    } else if z.Zulu? {
      CharHeld(s, pos, z.letter);
    }
  }

  lemma NumberIsSmall(s: string, pos: nat)
    ensures DigitsAt(s, pos, 2) ==> Number(s, pos, 2) < 100
  {
    if DigitsAt(s, pos, 2) {
      ReadPads(s[pos..pos + 2]);
      Powers();
    }
  }

  lemma ZoneReadFormed(s: string, pos: nat)
    requires pos <= |s|
    ensures ReadZone(s, pos).Some? ==> ZoneFormed(ReadZone(s, pos).value)
  {
    NumberIsSmall(s, pos + 1);
    NumberIsSmall(s, pos + 3);
    NumberIsSmall(s, pos + 4);
  }

  /** A zone never starts with a dot or a digit, so the fraction ends where it should. */
  lemma FractionIsRead(s: string, f: string, end: nat)
    requires 19 <= |s| && AllDigits(f)
    requires end < |s| ==> s[end] != '.' && !IsDigit(s[end])
    ensures Holds(s, 19, FractionText(f)) && end == 19 + |FractionText(f)| <==>
            ReadFraction(s, 19) == Some((f, end))
  {
    if f != "" {
      HoldsBlocks(s, 19, ".", f);
      CharHeld(s, 19, '.');
      if Holds(s, 20, f) && end == 20 + |f| {
        assert forall i | 20 <= i < end :: s[i] == s[20..end][i - 20];
        DigitsEndAt(s, 20, end);
      }
    }
  }

  lemma ZoneStart(s: string, pos: nat, z: Zone)
    requires pos <= |s| && ZoneFormed(z) && ReadZone(s, pos) == Some(z)
    ensures pos < |s| ==> s[pos] != '.' && !IsDigit(s[pos])
  {
  }

  /** Grammar: a text reads as these fields exactly when it is these fields printed. */
  lemma Grammar(s: string, t: Timestamp)
    ensures Read(s) == Some(t) <==> WellFormed(t) && s == Format(t)
  {
    if Read(s) == Some(t) {
      ReadIsFormed(s, t);
    }
    if WellFormed(t) {
      FormatHeld(s, t);
      HeadIsRead(s, t);
      var end := 19 + |FractionText(t.fraction)|;
      if Read(s) == Some(t) {
        var at := ReadFraction(s, 19).value.1;
        ZoneStart(s, at, t.zone);
        FractionIsRead(s, t.fraction, at);
        ZoneIsRead(s, at, t.zone);
      } else if s == Format(t) {
        ZoneIsRead(s, end, t.zone);
        ZoneStart(s, end, t.zone);
        FractionIsRead(s, t.fraction, end);
      }
    }
  }

  lemma ReadIsFormed(s: string, t: Timestamp)
    requires Read(s) == Some(t)
    ensures WellFormed(t)
  {
    Powers();
    ReadPads(s[0..4]);
    ReadPads(s[5..7]);
    ReadPads(s[8..10]);
    ReadPads(s[11..13]);
    ReadPads(s[14..16]);
    ReadPads(s[17..19]);
    ZoneReadFormed(s, ReadFraction(s, 19).value.1);
  }

  /** A printed timestamp is accepted exactly when its date exists, and stands for its instant. */
  lemma ParsePrinted(t: Timestamp)
    requires WellFormed(t)
    ensures Value(Format(t)) == if ValidDate(t) then Some(Instant(t)) else None
  {
    Grammar(Format(t), t);
  }

  /** Nothing else is accepted. */
  lemma AcceptedIsPrinted(s: string) returns (t: Timestamp)
    requires Value(s).Some?
    ensures WellFormed(t) && ValidDate(t) && s == Format(t) && Value(s) == Some(Instant(t))
  {
    t := Read(s).value;
    Grammar(s, t);
  }

  /** Digits past the ninth are accepted and change nothing. */
  lemma ExtraDigitsIgnored(s: string, shorter: string, t: Timestamp)
    requires Read(s) == Some(t) && |t.fraction| > 9 && AllDigits(t.fraction)
    requires Read(shorter) == Some(t.(fraction := t.fraction[..9]))
    ensures Value(s) == Value(shorter)
  {
    NineDigitsCount(t.fraction);
  }

  lemma NineDigitsCount(f: string)
    requires AllDigits(f) && |f| > 9
    ensures Nanoseconds(f) == Nanoseconds(f[..9])
  {
    assert Pow10(0) == 1;
  }

  /** Moving the written offset by d minutes moves the instant by -d minutes. */
  lemma OffsetMoves(s: string, moved: string, t: Timestamp, zone: Zone, d: int)
    requires Read(s) == Some(t) && Read(moved) == Some(t.(zone := zone)) && AllDigits(t.fraction)
    requires OffsetMinutes(zone) == OffsetMinutes(t.zone) + d
    ensures Value(s).None? <==> Value(moved).None?
    ensures Value(s).Some? ==> Value(moved) == Some(Value(s).value - d * 60 * SECOND)
  {
    ZoneShifts(t, zone, d);
  }

  lemma ZoneShifts(t: Timestamp, zone: Zone, d: int)
    requires AllDigits(t.fraction) && OffsetMinutes(zone) == OffsetMinutes(t.zone) + d
    ensures Instant(t.(zone := zone)) == Instant(t) - d * 60 * SECOND
  {
  }

  function Plus(v: Option<int>, d: int): Option<int> {
    if v.None? then None else Some(v.value + d)
  }

  /** A time written ahead of UTC is that much earlier, one written behind it that much later. */
  lemma OffsetsShift(t: Timestamp, h: nat, colon: bool, m: nat)
    requires WellFormed(t) && h < 100 && m < 100
    ensures var utc := Value(Format(t.(zone := Zulu('Z'))));
            && Value(Format(t.(zone := Offset('+', h, colon, m)))) == Plus(utc, -((h * 60 + m) * 60 * SECOND))
            && Value(Format(t.(zone := Offset('-', h, colon, m)))) == Plus(utc, (h * 60 + m) * 60 * SECOND)
            && Value(Format(t.(zone := Zulu('z')))) == utc && Value(Format(t.(zone := Unmarked))) == utc
  {
    hide Format, Value, LocalNanos;
    ParsePrinted(t.(zone := Zulu('Z')));
    ParsePrinted(t.(zone := Zulu('z')));
    ParsePrinted(t.(zone := Unmarked));
    ParsePrinted(t.(zone := Offset('+', h, colon, m)));
    ParsePrinted(t.(zone := Offset('-', h, colon, m)));
    LocalIgnoresZone(t, Zulu('Z'), Zulu('z'));
    LocalIgnoresZone(t, Zulu('Z'), Unmarked);
    LocalIgnoresZone(t, Zulu('Z'), Offset('+', h, colon, m));
    LocalIgnoresZone(t, Zulu('Z'), Offset('-', h, colon, m));
  }

  lemma LocalIgnoresZone(t: Timestamp, a: Zone, b: Zone)
    requires AllDigits(t.fraction)
    ensures LocalNanos(t.(zone := a)) == LocalNanos(t.(zone := b))
  {
  }

  /** The letters do not matter: T, t or a blank between date and time, and Z or z, or nothing, at the end. */
  lemma LettersDoNotMatter(t: Timestamp, separator: char)
    requires WellFormed(t) && separator in "Tt "
    ensures WellFormed(t.(separator := separator))
    ensures Value(Format(t.(separator := separator))) == Value(Format(t))
  {
    hide Format, Value, LocalNanos;
    ParsePrinted(t);
    SeparatorFits(t, separator);
    ParsePrinted(t.(separator := separator));
  }

  lemma SeparatorFits(t: Timestamp, separator: char)
    requires WellFormed(t) && separator in "Tt "
    ensures WellFormed(t.(separator := separator)) && Instant(t.(separator := separator)) == Instant(t)
  {
    assert "Tt "[0] == 'T' && "Tt "[1] == 't' && "Tt "[2] == ' ';
  }

  /** What is accepted has digits, dashes and colons in their places. */
  lemma AcceptedShape(s: string)
    requires Value(s).Some?
    ensures |s| >= 19 && s[4] == '-' && s[7] == '-' && s[10] in "Tt " && s[13] == ':' && s[16] == ':'
    ensures forall i | i in {0, 1, 2, 3, 5, 6, 8, 9, 11, 12, 14, 15, 17, 18} :: '0' <= s[i] <= '9'
    ensures |s| > 19 ==> s[19] in ".Zz+-"
  {
    var all := "Tt ";
    assert all[0] == 'T' && all[1] == 't' && all[2] == ' ';
    var after := ".Zz+-";
    assert after[0] == '.' && after[1] == 'Z' && after[2] == 'z' && after[3] == '+' && after[4] == '-';
    HeadDigits(s);
  }

  lemma HeadDigits(s: string)
    requires HeadMatches(s)
    ensures forall i | i in {0, 1, 2, 3, 5, 6, 8, 9, 11, 12, 14, 15, 17, 18} :: '0' <= s[i] <= '9'
  {
    DigitsInPlace(s, 0, 4);
    DigitsInPlace(s, 5, 2);
    DigitsInPlace(s, 8, 2);
    DigitsInPlace(s, 11, 2);
    DigitsInPlace(s, 14, 2);
    DigitsInPlace(s, 17, 2);
  }

  lemma DigitsInPlace(s: string, pos: nat, len: nat)
    requires DigitsAt(s, pos, len)
    ensures forall i | pos <= i < pos + len :: '0' <= s[i] <= '9'
  {
    assert forall i | pos <= i < pos + len :: s[i] == s[pos..pos + len][i - pos];
  }

  /** A fraction adds its first nine digits as nanoseconds. */
  lemma FractionAdds(t: Timestamp, f: string)
    requires WellFormed(t) && AllDigits(f)
    ensures AllDigits(Nine(f))
    ensures Value(Format(t.(fraction := f))) == Plus(Value(Format(t.(fraction := ""))), Decimal(Nine(f)))
  {
    hide Format, Value, EpochDays, Decimal, Nine;
    NineIsSame(f);
    NineCounts(f);
    EmptyFraction();
    ParsePrinted(t.(fraction := f));
    ParsePrinted(t.(fraction := ""));
    assert t.(fraction := f).(fraction := "") == t.(fraction := "");
  }

  lemma NineCounts(f: string)
    requires AllDigits(f) && AllDigits(Nine(f)) && |Nine(f)| == 9
    ensures Nanoseconds(Nine(f)) == Decimal(Nine(f))
  {
    assert Pow10(0) == 1;
  }

  // ---------------------------------------------- the calendar is the calendar

  /** Leap years counted all at once. */
  lemma {:induction false} YearsClosedForm(y: nat)
    ensures DaysBeforeYear(y) == 365 * y + (y + 3) / 4 - (y + 99) / 100 + (y + 399) / 400
  {
    if y > 0 {
      YearsClosedForm(y - 1);
      LeapCount(y - 1);
    }
  }

  lemma LeapCount(y: nat)
    ensures (y + 4) / 4 - (y + 3) / 4 == if y % 4 == 0 then 1 else 0
    ensures (y + 100) / 100 - (y + 99) / 100 == if y % 100 == 0 then 1 else 0
    ensures (y + 400) / 400 - (y + 399) / 400 == if y % 400 == 0 then 1 else 0
    ensures (y % 400 == 0 ==> y % 100 == 0) && (y % 100 == 0 ==> y % 4 == 0)
  {
    CenturiesAreFours(y);
    CarryAt(y, 4);
    CarryAt(y, 100);
    CarryAt(y, 400);
  }

  lemma CenturiesAreFours(y: nat)
    ensures (y % 400 == 0 ==> y % 100 == 0) && (y % 100 == 0 ==> y % 4 == 0)
  {
    if y % 100 == 0 {
      FourfoldIsFour(25 * (y / 100));
    }
    if y % 400 == 0 {
      HundredfoldIsHundred(4 * (y / 400));
    }
  }

  lemma FourfoldIsFour(k: nat)
    ensures (4 * k) % 4 == 0
  {
  }

  lemma HundredfoldIsHundred(k: nat)
    ensures (100 * k) % 100 == 0
  {
  }

  lemma CarryAt(y: nat, k: nat)
    requires k == 4 || k == 100 || k == 400
    ensures (y + k) / k - (y + (k - 1)) / k == if y % k == 0 then 1 else 0
  {
    var q, r := y / k, y % k;
    assert y == k * q + r;
    if k == 4 {
      assert (y + 4) / 4 == q + 1;
    } else if k == 100 {
      assert (y + 100) / 100 == q + 1;
    } else {
      assert (y + 400) / 400 == q + 1;
    }
  }

  lemma MonthsFillYear(y: nat)
    ensures DaysBeforeMonth(y, 12) + 31 == YearDays(y)
  {
    var spring := 31 + MonthDays(y, 2) + 31;
    assert DaysBeforeMonth(y, 2) == 31 && DaysBeforeMonth(y, 3) == 31 + MonthDays(y, 2);
    assert DaysBeforeMonth(y, 4) == spring && DaysBeforeMonth(y, 5) == spring + 30;
    assert DaysBeforeMonth(y, 6) == spring + 61 && DaysBeforeMonth(y, 7) == spring + 91;
    assert DaysBeforeMonth(y, 8) == spring + 122 && DaysBeforeMonth(y, 9) == spring + 153;
    assert DaysBeforeMonth(y, 10) == spring + 183 && DaysBeforeMonth(y, 11) == spring + 214;
  }

  function NextDay(y: nat, m: nat, d: nat): (nat, nat, nat) {
    if d < MonthDays(y, m) then (y, m, d + 1)
    else if m < 12 then (y, m + 1, 1)
    else (y + 1, 1, 1)
  }

  /** The day count starts at 1970-01-01 and each calendar day adds one. */
  lemma DaysCountDays(y: nat, m: nat, d: nat)
    requires 1 <= m <= 12 && 1 <= d <= MonthDays(y, m)
    ensures var n := NextDay(y, m, d); EpochDays(n.0, n.1, n.2) == EpochDays(y, m, d) + 1
    ensures EpochDays(1970, 1, 1) == 0
  {
    YearsClosedForm(1970);
    if m == 12 {
      MonthsFillYear(y);
    }
  }

  /** The lengths of the months, and so the days that exist. */
  const MONTHS := [31, 28, 31, 30, 31, 30, 31, 31, 30, 31, 30, 31]

  lemma DaysThatExist(t: Timestamp)
    ensures ValidDate(t) <==>
            && 1 <= t.month <= 12 && t.day >= 1
            && (t.day <= MONTHS[t.month - 1]
                || (t.month == 2 && t.day == 29 && t.year % 4 == 0 && (t.year % 100 != 0 || t.year % 400 == 0)))
  {
  }

  /** The second after this one, with every carry. */
  function NextSecond(t: Timestamp): Timestamp {
    if t.second < 59 then t.(second := t.second + 1)
    else if t.minute < 59 then t.(second := 0, minute := t.minute + 1)
    else if t.hour < 23 then t.(second := 0, minute := 0, hour := t.hour + 1)
    else
      var day := NextDay(t.year, t.month, t.day);
      t.(second := 0, minute := 0, hour := 0, year := day.0, month := day.1, day := day.2)
  }

  /** The clock of the texts runs at one second per second, across minutes, hours, days, months and years. */
  lemma SecondsCount(t: Timestamp)
    requires OnTheClock(t) && WellFormed(NextSecond(t))
    ensures OnTheClock(NextSecond(t))
    ensures Value(Format(NextSecond(t))) == Plus(Value(Format(t)), SECOND)
  {
    hide Format, Value, EpochDays, Nanoseconds, MonthDays, IsLeap;
    DaysCountDays(t.year, t.month, t.day);
    NextDayExists(t.year, t.month, t.day);
    ParsePrinted(t);
    ParsePrinted(NextSecond(t));
  }

  lemma NextDayExists(y: nat, m: nat, d: nat)
    requires 1 <= m <= 12 && 1 <= d <= MonthDays(y, m)
    ensures var n := NextDay(y, m, d); 1 <= n.1 <= 12 && 1 <= n.2 <= MonthDays(n.0, n.1)
  {
  }

  // ---------------------------------------------------- machine arithmetic

  const INT32_MAX := 0x7fff_ffff

  lemma {:induction false} MonthsWithinYear(y: nat, m: nat)
    requires m <= 12
    ensures DaysBeforeMonth(y, m) + 28 <= 366
  {
    MonthsFillYear(y);
    var k := m;
    while k < 12
      invariant m <= k <= 12 && DaysBeforeMonth(y, m) <= DaysBeforeMonth(y, k)
    {
      k := k + 1;
    }
  }

  lemma {:induction false} YearsGrow(x: nat, y: nat)
    requires x <= y
    ensures DaysBeforeYear(y) >= DaysBeforeYear(x) + 365 * (y - x)
  {
    if x < y {
      YearsGrow(x, y - 1);
    }
  }

  /** The fraction is read into 32 bits and scaled below one second. */
  lemma {:induction false} FractionFits(f: string)
    requires AllDigits(f)
    ensures var first := if |f| > 9 then f[..9] else f;
            Decimal(first) < INT32_MAX && Pow10(9 - |first|) < INT32_MAX
    ensures Nanoseconds(f) < SECOND
  {
    var first := if |f| > 9 then f[..9] else f;
    ReadPads(first);
    PowersSplit(|first|, 9 - |first|);
    PowersAtMost(|first|, 9);
    PowersAtMost(9 - |first|, 9);
    assert Pow10(9) == SECOND;
    PowersAtMost(0, 9 - |first|);
    ScaledLess(Decimal(first), Pow10(|first|), Pow10(9 - |first|));
    assert Pow10(0) == 1;
  }

  lemma ScaledLess(a: nat, b: nat, scale: nat)
    requires a < b && scale > 0
    ensures a * scale < b * scale
  {
  }

  lemma {:induction false} PowersSplit(a: nat, b: nat)
    ensures Pow10(a) * Pow10(b) == Pow10(a + b)
  {
    if a > 0 {
      PowersSplit(a - 1, b);
      assert Pow10(a) * Pow10(b) == 10 * (Pow10(a - 1) * Pow10(b));
    }
  }

  lemma {:induction false} PowersAtMost(a: nat, b: nat)
    requires a <= b
    ensures Pow10(a) <= Pow10(b)
  {
    if a < b {
      PowersAtMost(a, b - 1);
    }
  }

  lemma DaysWithin(t: Timestamp)
    requires ValidDate(t) && 1678 <= t.year <= 2261
    ensures -106_700 < EpochDays(t.year, t.month, t.day) < 106_700
  {
    YearsClosedForm(1678);
    YearsClosedForm(2262);
    YearsGrow(1678, t.year);
    YearsGrow(t.year + 1, 2262);
    MonthsWithinYear(t.year, t.month);
  }

  /** Exact value: for the years 1678 to 2261 nothing overflows on the way to the instant. */
  lemma YearsFit(t: Timestamp)
    requires WellFormed(t) && ValidDate(t) && 1678 <= t.year <= 2261
    ensures Exact(t)
  {
    hide EpochDays, Nanoseconds, ValidDate, AllDigits;
    DaysWithin(t);
    FractionFits(t.fraction);
  }

  lemma DaysOutside(t: Timestamp)
    requires ValidDate(t) && (t.year < 1677 || t.year > 2262)
    ensures EpochDays(t.year, t.month, t.day) < -106_900 || EpochDays(t.year, t.month, t.day) > 106_900
  {
    YearsClosedForm(1677);
    YearsClosedForm(2263);
    if t.year < 1677 {
      MonthsWithinYear(t.year, t.month);
      YearsGrow(t.year + 1, 1677);
    } else {
      YearsGrow(2263, t.year);
    }
  }

  /** Far outside those years the local time itself does not fit. */
  lemma OtherYearsOverflow(t: Timestamp)
    requires WellFormed(t) && ValidDate(t) && (t.year < 1677 || t.year > 2262)
    ensures !FitsInt64(LocalNanos(t))
  {
    hide EpochDays, Nanoseconds, ValidDate, AllDigits;
    DaysOutside(t);
    FractionFits(t.fraction);
  }

  // ------------------------------------------------ text order is time order

  lemma {:induction false} DigitsOrder(a: string, b: string)
    requires |a| == |b| && AllDigits(a) && AllDigits(b)
    ensures LexLess(a, b) <==> Decimal(a) < Decimal(b)
    ensures a == b <==> Decimal(a) == Decimal(b)
  {
    if |a| > 0 {
      var x, y, c, d := a[..|a| - 1], b[..|b| - 1], a[|a| - 1], b[|b| - 1];
      DigitsOrder(x, y);
      LexBlocks(x, [c], y, [d]);
      assert a == x + [c] && b == y + [d];
    }
  }

  /** Two padded numbers of one width, each followed by more text. */
  lemma PadOrder(m: nat, n: nat, width: nat, x: string, y: string)
    requires m < Pow10(width) && n < Pow10(width)
    ensures LexLess(Pad(m, width) + x, Pad(n, width) + y) <==> m < n || (m == n && LexLess(x, y))
  {
    PadReads(m, width);
    PadReads(n, width);
    DigitsOrder(Pad(m, width), Pad(n, width));
    LexBlocks(Pad(m, width), x, Pad(n, width), y);
  }

  /** Valid times as section 5.1 compares them: same separator, same zone, same number of digits. */
  predicate Comparable(a: Timestamp, b: Timestamp) {
    && WellFormed(a) && WellFormed(b) && ValidDate(a) && ValidDate(b)
    && a.hour < 24 && b.hour < 24 && a.minute < 60 && b.minute < 60 && a.second < 60 && b.second < 60
    && a.separator == b.separator && a.zone == b.zone
    && |a.fraction| == |b.fraction| <= 9
  }

  predicate FractionLess(a: Timestamp, b: Timestamp)
    requires AllDigits(a.fraction) && AllDigits(b.fraction)
  {
    Decimal(a.fraction) < Decimal(b.fraction)
  }

  predicate TimeLess(a: Timestamp, b: Timestamp)
    requires AllDigits(a.fraction) && AllDigits(b.fraction)
  {
    || a.hour < b.hour
    || (a.hour == b.hour && (a.minute < b.minute
       || (a.minute == b.minute && (a.second < b.second
          || (a.second == b.second && FractionLess(a, b))))))
  }

  predicate FieldsLess(a: Timestamp, b: Timestamp)
    requires AllDigits(a.fraction) && AllDigits(b.fraction)
  {
    DateLess(a, b, TimeLess(a, b))
  }

  lemma TailOrder(a: Timestamp, b: Timestamp)
    requires Comparable(a, b)
    ensures LexLess(FractionText(a.fraction) + ZoneText(a.zone), FractionText(b.fraction) + ZoneText(b.zone)) <==>
        FractionLess(a, b)
  {
    var z := ZoneText(a.zone);
    DigitsOrder(a.fraction, b.fraction);
    LexTrichotomy(z, z);
    LexBlocks(a.fraction, z, b.fraction, z);
    if a.fraction == "" {
      Unit(z);
    } else {
      Assoc(".", a.fraction, z);
      Assoc(".", b.fraction, z);
      LexBlocks(".", a.fraction + z, ".", b.fraction + z);
      LexTrichotomy(".", ".");
    }
  }

  lemma SameBlock(x: string, a: string, b: string)
    ensures LexLess(x + a, x + b) <==> LexLess(a, b)
  {
    LexBlocks(x, a, x, b);
    LexTrichotomy(x, x);
  }

  lemma Regroup(p: string, q: string, r: string, mark: string, x: string)
    ensures (p + (mark + (q + (mark + r)))) + x == p + (mark + (q + (mark + (r + x))))
  {
    Assoc(p, mark + (q + (mark + r)), x);
    Assoc(mark, q + (mark + r), x);
    Assoc(q, mark + r, x);
    Assoc(mark, r, x);
  }

  lemma TimeOrder(a: Timestamp, b: Timestamp, x: string, y: string)
    requires WellFormed(a) && WellFormed(b) && (LexLess(x, y) <==> FractionLess(a, b))
    ensures LexLess(TimeText(a) + x, TimeText(b) + y) <==> TimeLess(a, b)
  {
    hide LexLess, Pad;
    Powers();
    var ha, ma, sa := Pad(a.hour, 2), Pad(a.minute, 2), Pad(a.second, 2);
    var hb, mb, sb := Pad(b.hour, 2), Pad(b.minute, 2), Pad(b.second, 2);
    PadOrder(a.second, b.second, 2, x, y);
    SameBlock(":", sa + x, sb + y);
    PadOrder(a.minute, b.minute, 2, ":" + (sa + x), ":" + (sb + y));
    SameBlock(":", ma + (":" + (sa + x)), mb + (":" + (sb + y)));
    PadOrder(a.hour, b.hour, 2, ":" + (ma + (":" + (sa + x))), ":" + (mb + (":" + (sb + y))));
    Regroup(ha, ma, sa, ":", x);
    Regroup(hb, mb, sb, ":", y);
  }

  predicate DateLess(a: Timestamp, b: Timestamp, rest: bool) {
    || a.year < b.year
    || (a.year == b.year && (a.month < b.month || (a.month == b.month && (a.day < b.day || (a.day == b.day && rest)))))
  }

  lemma DateOrder(a: Timestamp, b: Timestamp, x: string, y: string)
    requires WellFormed(a) && WellFormed(b)
    ensures LexLess(DateText(a) + x, DateText(b) + y) <==> DateLess(a, b, LexLess(x, y))
  {
    hide LexLess, Pad;
    Powers();
    var ya, ma, da := Pad(a.year, 4), Pad(a.month, 2), Pad(a.day, 2);
    var yb, mb, db := Pad(b.year, 4), Pad(b.month, 2), Pad(b.day, 2);
    PadOrder(a.day, b.day, 2, x, y);
    SameBlock("-", da + x, db + y);
    PadOrder(a.month, b.month, 2, "-" + (da + x), "-" + (db + y));
    SameBlock("-", ma + ("-" + (da + x)), mb + ("-" + (db + y)));
    PadOrder(a.year, b.year, 4, "-" + (ma + ("-" + (da + x))), "-" + (mb + ("-" + (db + y))));
    Regroup(ya, ma, da, "-", x);
    Regroup(yb, mb, db, "-", y);
  }

  lemma TextOrder(a: Timestamp, b: Timestamp)
    requires Comparable(a, b)
    ensures LexLess(Format(a), Format(b)) <==> FieldsLess(a, b)
  {
    var x, y := FractionText(a.fraction) + ZoneText(a.zone), FractionText(b.fraction) + ZoneText(b.zone);
    TailOrder(a, b);
    TimeOrder(a, b, x, y);
    x, y := TimeText(a) + x, TimeText(b) + y;
    SameBlock([a.separator], x, y);
    DateOrder(a, b, [a.separator] + x, [b.separator] + y);
  }

  lemma {:induction false} MonthsGrow(y: nat, m: nat, n: nat)
    requires 1 <= m < n <= 12
    ensures DaysBeforeMonth(y, m) + MonthDays(y, m) <= DaysBeforeMonth(y, n)
  {
    if m + 1 < n {
      MonthsGrow(y, m, n - 1);
    }
  }

  /** Gregorian day counts grow with the date. */
  lemma DaysGrow(a: Timestamp, b: Timestamp)
    requires ValidDate(a) && ValidDate(b)
    requires a.year < b.year || (a.year == b.year && (a.month < b.month || (a.month == b.month && a.day < b.day)))
    ensures EpochDays(a.year, a.month, a.day) < EpochDays(b.year, b.month, b.day)
  {
    if a.year < b.year {
      MonthsFillYear(a.year);
      if a.month < 12 {
        MonthsGrow(a.year, a.month, 12);
      }
      YearsGrow(a.year + 1, b.year);
    } else if a.month < b.month {
      MonthsGrow(a.year, a.month, b.month);
    }
  }

  lemma FractionOrder(f: string, g: string)
    requires AllDigits(f) && AllDigits(g) && |f| == |g| <= 9
    ensures Decimal(f) < Decimal(g) ==> Nanoseconds(f) < Nanoseconds(g)
  {
    var scale := Pow10(9 - |f|);
    PowersAtMost(0, 9 - |f|);
    if Decimal(f) < Decimal(g) {
      ScaledLess(Decimal(f), Decimal(g), scale);
    }
  }

  lemma ClockOrder(days: int, h: nat, m: nat, s: nat, n: nat, days': int, h': nat, m': nat, s': nat, n': nat)
    requires h < 24 && m < 60 && s < 60 && n < SECOND && h' < 24 && m' < 60 && s' < 60 && n' < SECOND
    requires
      || days < days'
      || (days == days' && (h < h'
         || (h == h' && (m < m'
            || (m == m' && (s < s'
               || (s == s' && n < n')))))))
    ensures Clock(days, h, m, s, n) < Clock(days', h', m', s', n')
  {
  }

  lemma FieldsOrder(a: Timestamp, b: Timestamp)
    requires Comparable(a, b) && FieldsLess(a, b)
    ensures Instant(a) < Instant(b)
  {
    FractionFits(a.fraction);
    FractionFits(b.fraction);
    FractionOrder(a.fraction, b.fraction);
    if a.year != b.year || a.month != b.month || a.day != b.day {
      DaysGrow(a, b);
    }
    ClockOrder(EpochDays(a.year, a.month, a.day), a.hour, a.minute, a.second, Nanoseconds(a.fraction),
               EpochDays(b.year, b.month, b.day), b.hour, b.minute, b.second, Nanoseconds(b.fraction));
  }

  /** Ordering: sorting the texts sorts the instants. */
  lemma OrderingIsChronological(a: Timestamp, b: Timestamp)
    requires Comparable(a, b)
    ensures LexLess(Format(a), Format(b)) <==> Instant(a) < Instant(b)
  {
    TextOrder(a, b);
    if FieldsLess(a, b) {
      FieldsOrder(a, b);
    } else if FieldsLess(b, a) {
      FieldsOrder(b, a);
    } else {
      DigitsOrder(a.fraction, b.fraction);
    }
  }

  /** The same for what the texts are read as, when their instants are computed without overflow. */
  lemma TextsSortValues(a: Timestamp, b: Timestamp)
    requires Comparable(a, b) && Exact(a) && Exact(b)
    ensures var x, y := Value(Format(a)), Value(Format(b));
            && x.Some? && FitsInt64(x.value) && y.Some? && FitsInt64(y.value)
            && (LexLess(Format(a), Format(b)) <==> x.value < y.value)
  {
    hide LexLess, Format, Instant, Value;
    ParsePrinted(a);
    ParsePrinted(b);
    OrderingIsChronological(a, b);
  }

  // ----------------------------------------------------- where 64 bits end

  /** A fraction brought to nine digits: cut, or filled up with zeros. */
  function Nine(f: string): string {
    if |f| >= 9 then f[..9] else f + Pad(0, 9 - |f|)
  }

  lemma DecimalNext(front: string, last: char)
    requires AllDigits(front) && IsDigit(last)
    ensures AllDigits(front + [last]) && Decimal(front + [last]) == Decimal(front) * 10 + DigitValue(last)
  {
    assert (front + [last])[..|front|] == front;
  }

  lemma {:induction false} ZerosMultiply(f: string, n: nat)
    requires AllDigits(f)
    ensures AllDigits(f + Pad(0, n)) && Decimal(f + Pad(0, n)) == Decimal(f) * Pow10(n)
  {
    hide AllDigits, Decimal;
    if n == 0 {
      Unit(f);
    } else {
      ZerosMultiply(f, n - 1);
      Assoc(f, Pad(0, n - 1), [Digit(0)]);
      DecimalNext(f + Pad(0, n - 1), Digit(0));
      TenMore(Decimal(f), Pow10(n - 1));
    }
  }

  lemma TenMore(value: nat, power: nat)
    ensures value * power * 10 == value * (10 * power)
  {
  }

  lemma NineIsSame(f: string)
    requires AllDigits(f)
    ensures AllDigits(Nine(f)) && |Nine(f)| == 9 && Nanoseconds(Nine(f)) == Nanoseconds(f)
  {
    assert Pow10(0) == 1;
    if |f| > 9 {
      NineDigitsCount(f);
    } else if |f| == 9 {
      assert f[..9] == f;
    } else {
      ZerosMultiply(f, 9 - |f|);
    }
  }

  /** Times of day on a clock; the code also accepts 99:99:99. */
  predicate OnTheClock(t: Timestamp) {
    WellFormed(t) && ValidDate(t) && t.hour < 24 && t.minute < 60 && t.second < 60
  }

  /** The local time in UTC's clothes, with nine digits: whatever the zone, this text decides. */
  function Local(t: Timestamp): Timestamp
  {
    t.(fraction := Nine(t.fraction), zone := Zulu('Z'))
  }

  /** 2262-04-11 23:47:16.854775807, the last instant 64 bits can hold. */
  function Last(separator: char): Timestamp {
    Timestamp(2262, 4, 11, separator, 23, 47, 16, Pad(854_775_807, 9), Zulu('Z'))
  }

  /** 1677-09-21 00:12:44, the first whole second they can hold. */
  function First(separator: char): Timestamp {
    Timestamp(1677, 9, 21, separator, 0, 12, 44, Pad(0, 9), Zulu('Z'))
  }

  lemma NineDigits(n: nat)
    requires n < SECOND
    ensures Nanoseconds(Pad(n, 9)) == n
  {
    Powers();
    PadReads(n, 9);
    assert Pow10(0) == 1;
  }

  lemma BoundDays()
    ensures EpochDays(2262, 4, 11) == 106751 && EpochDays(1677, 9, 21) == -106752
  {
    YearsClosedForm(2262);
    YearsClosedForm(1677);
    SpringDays(2262);
    SpringDays(1677);
    assert DaysBeforeMonth(1677, 6) == 151 && DaysBeforeMonth(1677, 8) == 212 && DaysBeforeMonth(1677, 9) == 243;
  }

  lemma SpringDays(y: nat)
    requires !IsLeap(y)
    ensures DaysBeforeMonth(y, 4) == 90
  {
    assert DaysBeforeMonth(y, 2) == 31 && DaysBeforeMonth(y, 3) == 59;
  }

  lemma Bounds(separator: char)
    ensures Instant(Last(separator)) == INT64_MAX
    ensures Instant(First(separator)) == -9_223_372_036 * SECOND
  {
    hide EpochDays, Nanoseconds, Pad;
    NineDigits(854_775_807);
    NineDigits(0);
    BoundDays();
  }

  lemma BoundsCompare(t: Timestamp)
    requires OnTheClock(t)
    ensures Comparable(Last(t.separator), Local(t)) && Comparable(Local(t), First(t.separator))
  {
    NineIsSame(t.fraction);
  }

  lemma LocalParts(t: Timestamp)
    requires AllDigits(t.fraction)
    ensures LocalNanos(t) == WholeSeconds(t) + Nanoseconds(t.fraction) && Nanoseconds(t.fraction) < SECOND
    ensures WholeSeconds(t) % SECOND == 0
  {
    hide EpochDays, Nanoseconds;
    FractionFits(t.fraction);
  }

  lemma LocalIsLocal(t: Timestamp)
    requires OnTheClock(t)
    ensures AllDigits(Local(t).fraction) && Instant(Local(t)) == LocalNanos(t)
  {
    hide EpochDays, Nanoseconds, Nine;
    NineIsSame(t.fraction);
  }

  /** For everything that is accepted, whatever its hour and its zone: which instants are computed exactly. */
  lemma ExactlyWhen(t: Timestamp)
    requires WellFormed(t)
    ensures Exact(t) <==> -9_223_372_036 * SECOND <= LocalNanos(t) <= INT64_MAX && FitsInt64(Instant(t))
  {
    hide LocalNanos, WholeSeconds, Nanoseconds, Instant;
    LocalParts(t);
    SecondsDecide(WholeSeconds(t), Nanoseconds(t.fraction));
  }

  /** The text of the local time lies between the two bounds. */
  predicate Between(t: Timestamp)
    requires OnTheClock(t)
  {
    NineIsSame(t.fraction);
    !LexLess(Format(Last(t.separator)), Format(Local(t))) && !LexLess(Format(Local(t)), Format(First(t.separator)))
  }

  /**
    For every zone and any number of digits: the code reaches the local time
    without overflow exactly for the texts between the bounds, and in UTC that is all.
   */
  lemma FitsExactly(t: Timestamp)
    requires OnTheClock(t)
    ensures FitsInt64(WholeSeconds(t)) && FitsInt64(LocalNanos(t)) <==> Between(t)
    ensures OffsetMinutes(t.zone) == 0 ==> (Exact(t) <==> Between(t))
  {
    hide Format, LexLess, Instant, LocalNanos, WholeSeconds, Local, First, Last, Comparable, Nanoseconds;
    BoundsCompare(t);
    Bounds(t.separator);
    LocalIsLocal(t);
    LocalParts(t);
    OrderingIsChronological(Last(t.separator), Local(t));
    OrderingIsChronological(Local(t), First(t.separator));
    NoOffset(t);
    SecondsDecide(WholeSeconds(t), Nanoseconds(t.fraction));
  }

  lemma NoOffset(t: Timestamp)
    requires AllDigits(t.fraction)
    ensures OffsetMinutes(t.zone) == 0 ==> Instant(t) == LocalNanos(t)
  {
  }

  lemma SecondsDecide(whole: int, nanoseconds: nat)
    requires whole % SECOND == 0 && nanoseconds < SECOND
    ensures FitsInt64(whole) && FitsInt64(whole + nanoseconds) <==>
            -9_223_372_036 * SECOND <= whole + nanoseconds <= INT64_MAX
  {
  }

  lemma TooLateInstant(t: Timestamp)
    requires t == Timestamp(2262, 4, 11, 'T', 23, 47, 17, "", Zulu('Z'))
    ensures OnTheClock(t) && Instant(t) == INT64_MAX + 145_224_193
  {
    hide EpochDays, Decimal, Pow10;
    BoundDays();
    assert Nanoseconds("") == 0 by { EmptyFraction(); }
  }

  lemma EmptyFraction()
    ensures Nanoseconds("") == 0
  {
  }

  /** One second past the end: the text is accepted, and its instant does not fit. */
  lemma AcceptedButTooLate()
    ensures var s := "2262-04-11T23:47:17Z";
            && Read(s).Some? && OnTheClock(Read(s).value) && Value(s) == Some(INT64_MAX + 145_224_193)
            && !Exact(Read(s).value)
  {
    hide Format, Read, WellFormed, Instant, LocalNanos, WholeSeconds;
    var t := Timestamp(2262, 4, 11, 'T', 23, 47, 17, "", Zulu('Z'));
    TooLateText(t);
    TooLateInstant(t);
    Grammar("2262-04-11T23:47:17Z", t);
  }

  /** No zone, a blank for the T, and a time on no clock: accepted. */
  lemma AcceptedWithoutZone()
    ensures Value("2025-01-17 99:99:99").Some? && Read("2025-01-17 99:99:99").value.zone.Unmarked?
  {
    hide Format, Read, Instant, WellFormed;
    var t := Timestamp(2025, 1, 17, ' ', 99, 99, 99, "", Unmarked);
    OddText(t);
    Grammar("2025-01-17 99:99:99", t);
  }

  lemma OddText(t: Timestamp)
    requires t == Timestamp(2025, 1, 17, ' ', 99, 99, 99, "", Unmarked)
    ensures WellFormed(t) && ValidDate(t) && Format(t) == "2025-01-17 99:99:99"
  {
    hide Pad;
    TwoDigits(20, "20");
    TwoDigits(25, "25");
    FourDigits(2025, "20", "25");
    TwoDigits(1, "01");
    TwoDigits(17, "17");
    TwoDigits(99, "99");
    assert DateText(t) == "2025-01-17";
    assert TimeText(t) == "99:99:99";
  }

  /** The clock starts at 1970. */
  lemma EpochIsZero()
    ensures Value("1970-01-01T00:00:00Z") == Some(0)
  {
    hide Format, Value, EpochDays, Nanoseconds, Pow10;
    var t := Timestamp(1970, 1, 1, 'T', 0, 0, 0, "", Zulu('Z'));
    EpochText(t);
    ParsePrinted(t);
    DaysCountDays(1970, 1, 1);
    EmptyFraction();
  }

  lemma EpochText(t: Timestamp)
    requires t == Timestamp(1970, 1, 1, 'T', 0, 0, 0, "", Zulu('Z'))
    ensures WellFormed(t) && ValidDate(t) && Format(t) == "1970-01-01T00:00:00Z"
  {
    hide Pad;
    TwoDigits(19, "19");
    TwoDigits(70, "70");
    FourDigits(1970, "19", "70");
    TwoDigits(1, "01");
    TwoDigits(0, "00");
    assert DateText(t) == "1970-01-01";
    assert TimeText(t) == "00:00:00";
  }

  /** Half past eleven on a winter's day. */
  function HalfPast(zone: Zone): Timestamp {
    Timestamp(2025, 1, 15, 'T', 11, 30, 0, "", zone)
  }

  lemma HalfPastZulu()
    ensures WellFormed(HalfPast(Zulu('Z'))) && ValidDate(HalfPast(Zulu('Z')))
    ensures Format(HalfPast(Zulu('Z'))) == "2025-01-15T11:30:00Z"
  {
    hide Format;
    OneHour();
    HalfPastText(Zulu('Z'), "Z");
    assert "2025-01-15T11:30:00" + "Z" == "2025-01-15T11:30:00Z";
  }

  lemma HalfPastColon()
    ensures Format(HalfPast(Offset('+', 1, true, 0))) == "2025-01-15T11:30:00+01:00"
  {
    hide Format;
    OneHour();
    HalfPastText(Offset('+', 1, true, 0), "+01:00");
    assert "2025-01-15T11:30:00" + "+01:00" == "2025-01-15T11:30:00+01:00";
  }

  lemma HalfPastPlain()
    ensures Format(HalfPast(Offset('+', 1, false, 0))) == "2025-01-15T11:30:00+0100"
  {
    hide Format;
    OneHour();
    HalfPastText(Offset('+', 1, false, 0), "+0100");
    assert "2025-01-15T11:30:00" + "+0100" == "2025-01-15T11:30:00+0100";
  }

  /** An hour ahead of UTC it is an hour earlier there, however the offset is written. */
  lemma HourAhead()
    ensures Value("2025-01-15T11:30:00+01:00") == Value("2025-01-15T11:30:00+0100")
            == Plus(Value("2025-01-15T11:30:00Z"), -3600 * SECOND)
    ensures Value("2025-01-15T11:30:00Z").Some?
  {
    hide Value, Format, Instant;
    HalfPastZulu();
    HalfPastColon();
    HalfPastPlain();
    HourBefore(HalfPast(Zulu('Z')));
  }

  lemma HourBefore(t: Timestamp)
    requires WellFormed(t) && ValidDate(t) && t.zone == Zulu('Z')
    ensures Value(Format(t)).Some?
    ensures Value(Format(t.(zone := Offset('+', 1, true, 0)))) == Plus(Value(Format(t)), -3600 * SECOND)
    ensures Value(Format(t.(zone := Offset('+', 1, false, 0)))) == Plus(Value(Format(t)), -3600 * SECOND)
  {
    hide Value, Format, Instant;
    ParsePrinted(t);
    OffsetsShift(t, 1, true, 0);
    OffsetsShift(t, 1, false, 0);
    assert t.(zone := Zulu('Z')) == t;
  }

  lemma OneHour()
    ensures ZoneText(Offset('+', 1, true, 0)) == "+01:00" && ZoneText(Offset('+', 1, false, 0)) == "+0100"
    ensures ZoneText(Zulu('Z')) == "Z"
  {
    hide Pad;
    TwoDigits(1, "01");
    TwoDigits(0, "00");
  }

  lemma HalfPastParts(zone: Zone)
    requires ZoneFormed(zone)
    ensures var t := HalfPast(zone);
            WellFormed(t) && ValidDate(t) && DateText(t) == "2025-01-15" && TimeText(t) == "11:30:00"
  {
    hide Pad;
    TwoDigits(20, "20");
    TwoDigits(25, "25");
    FourDigits(2025, "20", "25");
    TwoDigits(1, "01");
    TwoDigits(15, "15");
    TwoDigits(11, "11");
    TwoDigits(30, "30");
    TwoDigits(0, "00");
  }

  lemma HalfPastText(zone: Zone, text: string)
    requires ZoneFormed(zone)
    ensures WellFormed(HalfPast(zone)) && ValidDate(HalfPast(zone))
    ensures ZoneText(zone) == text ==> Format(HalfPast(zone)) == "2025-01-15T11:30:00" + text
  {
    hide DateText, TimeText, ZoneText, Pad;
    HalfPastParts(zone);
    Unit(text);
  }

  lemma TwoDigits(n: nat, text: string)
    requires n < 100 && text == [Digit(n / 10), Digit(n % 10)]
    ensures Pad(n, 2) == text
  {
    assert Pad(n / 10, 1) == [Digit(n / 10)];
  }

  lemma FourDigits(n: nat, high: string, low: string)
    requires n < 10000 && Pad(n / 100, 2) == high && Pad(n % 100, 2) == low
    ensures Pad(n, 4) == high + low
  {
    TwoDigits(n % 100, [Digit(n % 100 / 10), Digit(n % 100 % 10)]);
    assert n / 10 / 10 == n / 100 && n / 10 % 10 == n % 100 / 10;
    assert Pad(n / 10, 3) == Pad(n / 100, 2) + [Digit(n / 10 % 10)];
  }

  lemma TooLateText(t: Timestamp)
    requires t == Timestamp(2262, 4, 11, 'T', 23, 47, 17, "", Zulu('Z'))
    ensures Format(t) == "2262-04-11T23:47:17Z"
  {
    hide Pad;
    TwoDigits(22, "22");
    TwoDigits(62, "62");
    FourDigits(2262, "22", "62");
    TwoDigits(4, "04");
    TwoDigits(11, "11");
    TwoDigits(23, "23");
    TwoDigits(47, "47");
    TwoDigits(17, "17");
    assert DateText(t) == "2262-04-11";
    assert TimeText(t) == "23:47:17";
  }
}
