/**
  Timestamps in the RFC3339Nano layout that task file names embed
  (`2026-05-01T19:20:39.35869046+03:30`), the instant each denotes, and the
  relation between the two orders (section 5.1 of RFC 3339).
*/
module Timestamps {
  import opened Strings

  /** A civil time with its zone offset in whole minutes. */
  datatype Stamp = Stamp(year: nat, month: nat, day: nat, hour: nat, minute: nat, second: nat,
                         nano: nat, offset: int)

  const NANOS_PER_SECOND := 1_000_000_000

  predicate Leap(year: nat) {
    year % 4 == 0 && (year % 100 != 0 || year % 400 == 0)
  }

  function DaysInMonth(year: nat, month: nat): nat {
    if month == 2 then (if Leap(year) then 29 else 28)
    else if month in {4, 6, 9, 11} then 30
    else 31
  }

  /** A time that the layout prints with a four-digit year. */
  predicate Valid(t: Stamp) {
    && t.year <= 9999 && 1 <= t.month <= 12 && 1 <= t.day <= DaysInMonth(t.year, t.month)
    && t.hour < 24 && t.minute < 60 && t.second < 60 && t.nano < NANOS_PER_SECOND
    && -24 * 60 < t.offset < 24 * 60
  }

  // ---------- instants ----------

  /** Days of `year` before the first of `month`. */
  function DaysBeforeMonth(year: nat, month: nat): nat
    requires 1 <= month <= 12
  {
    if month == 1 then 0 else DaysBeforeMonth(year, month - 1) + DaysInMonth(year, month - 1)
  }

  /** Days from the first of January of year 0 to the first of January of 1970, which is day 0 of an instant. */
  const EPOCH_DAYS := 719_528

  /** Days before the first of January of `year`, counted from year 0. */
  function DaysBeforeYear(year: nat): nat {
    365 * year + (year + 3) / 4 - (year + 99) / 100 + (year + 399) / 400
  }

  /** `t.Unix()`. */
  function Seconds(t: Stamp): int
    requires Valid(t)
  {
    var days := DaysBeforeYear(t.year) + DaysBeforeMonth(t.year, t.month) + (t.day - 1) - EPOCH_DAYS;
    ((days * 24 + t.hour) * 60 + t.minute - t.offset) * 60 + t.second
  }

  /** Nanoseconds since the first of January 1970, UTC. */
  function Instant(t: Stamp): int
    requires Valid(t)
  {
    Seconds(t) * NANOS_PER_SECOND + t.nano
  }

  // ---------- what an instant is ----------

  lemma EpochIsZero()
    ensures Valid(Stamp(1970, 1, 1, 0, 0, 0, 0, 0)) && Instant(Stamp(1970, 1, 1, 0, 0, 0, 0, 0)) == 0
  {
  }

  /** A clock ahead of UTC by `offset` minutes shows the same digits that much earlier. */
  lemma ZoneShiftsInstant(t: Stamp)
    requires Valid(t)
    ensures Instant(t) == Instant(t.(offset := 0)) - t.offset * 60 * 1_000_000_000
  {
  }

  lemma ClockAddsToMidnight(t: Stamp)
    requires Valid(t)
    ensures Instant(t) == Instant(t.(hour := 0, minute := 0, second := 0, nano := 0))
                          + ((t.hour * 60 + t.minute) * 60 + t.second) * 1_000_000_000 + t.nano
  {
  }

  /** The same time of the next civil day. */
  function NextDay(t: Stamp): Stamp {
    if t.day < DaysInMonth(t.year, t.month) then t.(day := t.day + 1)
    else if t.month < 12 then t.(month := t.month + 1, day := 1)
    else t.(year := t.year + 1, month := 1, day := 1)
  }

  lemma MonthLengths(year: nat)
    ensures forall m | m in {1, 3, 5, 7, 8, 10, 12} :: DaysInMonth(year, m) == 31
    ensures forall m | m in {4, 6, 9, 11} :: DaysInMonth(year, m) == 30
    ensures DaysInMonth(year, 2) == 29 <==> year % 4 == 0 && (year % 100 != 0 || year % 400 == 0)
    ensures DaysInMonth(year, 2) == 28 || DaysInMonth(year, 2) == 29
  {
  }

  /** The next civil day is 24 hours later, also over the ends of months and years. */
  lemma NextDayIsADayLater(t: Stamp)
    requires Valid(t) && t.year < 9999
    ensures Valid(NextDay(t)) && Instant(NextDay(t)) == Instant(t) + 24 * 3600 * 1_000_000_000
  {
    if t.day == DaysInMonth(t.year, t.month) && t.month == 12 {
      YearStep(t.year);
      WholeYear(t.year);
    }
  }

  lemma WholeYear(year: nat)
    ensures DaysBeforeMonth(year, 12) + 31 == if Leap(year) then 366 else 365
  {
    assert DaysBeforeMonth(year, 2) == 31;
    assert DaysBeforeMonth(year, 3) == 31 + DaysInMonth(year, 2);
    assert DaysBeforeMonth(year, 5) == DaysBeforeMonth(year, 3) + 61;
    assert DaysBeforeMonth(year, 7) == DaysBeforeMonth(year, 5) + 61;
    assert DaysBeforeMonth(year, 9) == DaysBeforeMonth(year, 7) + 62;
    assert DaysBeforeMonth(year, 11) == DaysBeforeMonth(year, 9) + 61;
  }

  /** Days of the calendar that are known from elsewhere. */
  lemma KnownInstants()
    ensures var a, b := Stamp(2000, 3, 1, 0, 0, 0, 0, 0), Stamp(2100, 3, 1, 0, 0, 0, 0, 0);
      Valid(a) && Instant(a) == 951_868_800_000_000_000 && Valid(b) && Instant(b) == 4_107_542_400_000_000_000
    ensures var c, e := Stamp(2026, 5, 1, 19, 20, 39, 0, 210), Stamp(2026, 5, 1, 15, 50, 39, 0, 0);
      Valid(c) && Valid(e) && Instant(c) == Instant(e) == 1_777_650_639_000_000_000
    ensures var d := Stamp(1969, 12, 31, 23, 59, 59, 0, 0); Valid(d) && Instant(d) == -1_000_000_000
  {
    assert DaysBeforeMonth(2000, 2) == DaysBeforeMonth(2100, 2) == DaysBeforeMonth(2026, 2) == 31;
    assert DaysBeforeMonth(2000, 3) == 60 && DaysBeforeMonth(2100, 3) == 59 && DaysBeforeMonth(2026, 3) == 59;
    assert DaysBeforeMonth(2026, 5) == 120;
    WholeYear(1969);
  }

  // ---------- formatting ----------

  /** `n` in exactly `width` decimal digits, leading zeros included. */
  function Digits(width: nat, n: nat): (s: string)
    ensures |s| == width
    ensures forall c | c in s :: '0' <= c <= '9'
  {
    if width == 0 then "" else Digits(width - 1, n / 10) + [Digit(n % 10)]
  }

  /** The fraction of a second without its trailing zeros. */
  function Fraction(nano: nat): string {
    if nano == 0 then "" else "." + TrimRight(Digits(9, nano), "0")
  }

  function Zone(offset: int): (s: string)
    ensures s != "" && s[0] in "Z+-"
  {
    if offset == 0 then "Z"
    else
      var o := if offset < 0 then -offset else offset;
      (if offset < 0 then "-" else "+") + Digits(2, o / 60) + ":" + Digits(2, o % 60)
  }

  function Date(t: Stamp): (s: string)
    ensures |s| == 10
  {
    Digits(4, t.year) + "-" + Digits(2, t.month) + "-" + Digits(2, t.day)
  }

  function Clock(t: Stamp): (s: string)
    ensures |s| == 8
  {
    Digits(2, t.hour) + ":" + Digits(2, t.minute) + ":" + Digits(2, t.second)
  }

  /** `Time.Format(time.RFC3339Nano)`. */
  function Format(t: Stamp): string {
    Date(t) + "T" + Clock(t) + Fraction(t.nano) + Zone(t.offset)
  }

  lemma OneDigit(n: nat)
    requires n < 10
    ensures Digits(1, n) == [Digit(n)]
  {
    assert Digits(0, n / 10) == "";
  }

  lemma MoreDigits(width: nat, n: nat)
    ensures Digits(width + 1, n) == Digits(width, n / 10) + [Digit(n % 10)]
  {
  }

  lemma TwoDigits(n: nat)
    requires n < 100
    ensures Digits(2, n) == [Digit(n / 10), Digit(n % 10)]
  {
    hide Digits;
    OneDigit(n / 10);
    MoreDigits(1, n);
  }

  lemma DigitsOfExample()
    ensures Digits(9, 358_690_460) == "358690460"
  {
    TwoDigits(35);
    assert Digits(3, 358) == "358";
    assert Digits(5, 35869) == "35869" by { assert Digits(4, 3586) == "3586"; }
    assert Digits(7, 3586904) == "3586904" by { assert Digits(6, 358690) == "358690"; }
    assert Digits(8, 35869046) == "35869046";
  }

  lemma DigitsOfFive()
    ensures Digits(9, 5) == "000000005"
  {
    TwoDigits(0);
    assert Digits(4, 0) == "0000";
    assert Digits(6, 0) == "000000";
    assert Digits(8, 0) == "00000000";
  }

  lemma PrintedFraction()
    ensures Fraction(358_690_460) == ".35869046" && Fraction(5) == ".000000005" && Fraction(0) == ""
  {
    hide Digits;
    DigitsOfExample();
    DigitsOfFive();
    TrimRightExactly("35869046", "0", "0");
    TrimRightExactly("000000005", "", "0");
    assert "35869046" + "0" == "358690460" && "000000005" + "" == "000000005";
    hide TrimRight;
  }

  lemma PrintedZone()
    ensures Zone(0) == "Z" && Zone(210) == "+03:30" && Zone(-90) == "-01:30"
  {
    TwoDigits(3);
    TwoDigits(30);
    TwoDigits(1);
    assert Zone(210) == "+" + "03" + ":" + "30";
    assert Zone(-90) == "-" + "01" + ":" + "30";
  }

  lemma PrintedDate(t: Stamp)
    requires t.year == 2026 && t.month == 5 && t.day == 1
    ensures Date(t) == "2026-05-01"
  {
    TwoDigits(20);
    assert Digits(3, 202) == "202";
    assert Digits(4, 2026) == "2026";
    TwoDigits(5);
    TwoDigits(1);
    hide Digits;
    assert Digits(2, 5) == "05" && Digits(2, 1) == "01";
  }

  lemma PrintedClock(t: Stamp)
    requires t.hour < 100 && t.minute < 100 && t.second < 100
    ensures Clock(t) == [Digit(t.hour / 10), Digit(t.hour % 10), ':', Digit(t.minute / 10), Digit(t.minute % 10), ':',
                         Digit(t.second / 10), Digit(t.second % 10)]
  {
    hide Digits;
    TwoDigits(t.hour);
    TwoDigits(t.minute);
    TwoDigits(t.second);
  }

  lemma Assembled(t: Stamp, date: string, clock: string, fraction: string, zone: string)
    requires Date(t) == date && Clock(t) == clock && Fraction(t.nano) == fraction && Zone(t.offset) == zone
    ensures Format(t) == date + "T" + clock + fraction + zone
  {
  }

  /** The text of the example in the source. */
  lemma PrintedExample()
    ensures Format(Stamp(2026, 5, 1, 19, 20, 39, 358_690_460, 210)) == "2026-05-01T19:20:39.35869046+03:30"
  {
    hide Digits, Fraction, Zone, Date, Clock, Format;
    PrintedFraction();
    PrintedZone();
    var t := Stamp(2026, 5, 1, 19, 20, 39, 358_690_460, 210);
    PrintedDate(t);
    PrintedClock(t);
    Assembled(t, "2026-05-01", "19:20:39", ".35869046", "+03:30");
  }

  /** A whole second in a zone ahead of UTC. */
  lemma PrintedAhead()
    ensures Format(Stamp(2026, 5, 1, 19, 20, 39, 0, 210)) == "2026-05-01T19:20:39+03:30"
  {
    hide Digits, Fraction, Zone, Date, Clock, Format;
    PrintedFraction();
    PrintedZone();
    var t := Stamp(2026, 5, 1, 19, 20, 39, 0, 210);
    PrintedDate(t);
    PrintedClock(t);
    Assembled(t, "2026-05-01", "19:20:39", "", "+03:30");
  }

  /** A whole second in UTC. */
  lemma PrintedUtc()
    ensures Format(Stamp(2026, 5, 1, 15, 50, 39, 0, 0)) == "2026-05-01T15:50:39Z"
  {
    hide Digits, Fraction, Zone, Date, Clock, Format;
    PrintedFraction();
    PrintedZone();
    var t := Stamp(2026, 5, 1, 15, 50, 39, 0, 0);
    PrintedDate(t);
    PrintedClock(t);
    Assembled(t, "2026-05-01", "15:50:39", "", "Z");
  }

  /** Leading zeros, in a zone behind UTC. */
  lemma PrintedBehind()
    ensures Format(Stamp(2026, 5, 1, 0, 9, 0, 5, -90)) == "2026-05-01T00:09:00.000000005-01:30"
  {
    hide Digits, Fraction, Zone, Date, Clock, Format;
    PrintedFraction();
    PrintedZone();
    var t := Stamp(2026, 5, 1, 0, 9, 0, 5, -90);
    PrintedDate(t);
    PrintedClock(t);
    Assembled(t, "2026-05-01", "00:09:00", ".000000005", "-01:30");
  }

  // ---------- parsing ----------

  /** How many leading characters are digits. */
  function DigitRun(s: string): (n: nat)
    ensures n <= |s|
  {
    if s != "" && '0' <= s[0] <= '9' then 1 + DigitRun(s[1..]) else 0
  }

  function ReadFraction(s: string): (nat, string) {
    if s != "" && s[0] == '.' then
      var n := DigitRun(s[1..]);
      if n <= 9 then (Value(s[1..1 + n] + Digits(9 - n, 0)), s[1 + n..]) else (0, s)
    else (0, s)
  }

  function ReadZone(s: string): int {
    if |s| == 6 then
      var o := Value(s[1..3]) * 60 + Value(s[4..6]);
      if s[0] == '-' then -o else o
    else 0
  }

  function ReadFields(s: string): Stamp
    requires |s| >= 19
  {
    var (nano, zone) := ReadFraction(s[19..]);
    Stamp(Value(s[0..4]), Value(s[5..7]), Value(s[8..10]),
          Value(s[11..13]), Value(s[14..16]), Value(s[17..19]), nano, ReadZone(zone))
  }

  /**
    `time.Parse(time.RFC3339Nano, s)` on what `Format` prints: the fields are read
    from their places and accepted when they print as `s` again.
  */
  function Parse(s: string): (r: Option<Stamp>)
    ensures r.Some? ==> Valid(r.value) && Format(r.value) == s
  {
    if |s| < 19 then None
    else
      var t := ReadFields(s);
      if Valid(t) && Format(t) == s then Some(t) else None
  }

  function Pow10(n: nat): nat {
    if n == 0 then 1 else 10 * Pow10(n - 1)
  }

  lemma {:induction false} ValueOfDigits(width: nat, n: nat)
    requires n < Pow10(width)
    ensures Value(Digits(width, n)) == n
  {
    if width > 0 {
      ValueOfDigits(width - 1, n / 10);
      var s := Digits(width, n);
      assert s[..|s| - 1] == Digits(width - 1, n / 10);
    }
  }

  lemma {:induction false} DigitRunThrough(a: string, b: string)
    requires forall c | c in a :: '0' <= c <= '9'
    requires b == "" || !('0' <= b[0] <= '9')
    ensures DigitRun(a + b) == |a|
  {
    if a == "" {
      assert a + b == b;
    } else {
      assert (a + b)[1..] == a[1..] + b;
      assert a[0] in a && forall c | c in a[1..] :: c in a;
      DigitRunThrough(a[1..], b);
    }
  }

  /** Trimmed zeros come back when the fraction is filled up to nine digits. */
  lemma {:induction false} ZerosComeBack(s: string)
    ensures |TrimRight(s, "0")| <= |s|
    ensures TrimRight(s, "0") <= s
    ensures TrimRight(s, "0") + Digits(|s| - |TrimRight(s, "0")|, 0) == s
  {
    if s != "" && s[|s| - 1] in "0" {
      var r := s[..|s| - 1];
      ZerosComeBack(r);
      var k := |r| - |TrimRight(r, "0")|;
      assert Digits(k + 1, 0) == Digits(k, 0) + [Digit(0)];
      assert s == r + [Digit(0)];
    }
  }

  lemma NineDigits(nano: nat)
    requires nano < NANOS_PER_SECOND
    ensures Value(Digits(9, nano)) == nano
  {
    hide Value, Digits;
    assert Pow10(3) == 1000;
    assert Pow10(6) == 1000 * Pow10(3);
    assert Pow10(9) == 1000 * Pow10(6);
    ValueOfDigits(9, nano);
  }

  lemma ReadsAtPoint(s: string, n: nat)
    requires s != "" && s[0] == '.' && DigitRun(s[1..]) == n <= 9
    ensures ReadFraction(s) == (Value(s[1..1 + n] + Digits(9 - n, 0)), s[1 + n..])
  {
    hide Value, Digits, DigitRun;
  }

  lemma AroundPoint(f: string, z: string)
    ensures var s := "." + f + z; s[0] == '.' && s[1..] == f + z && s[1..1 + |f|] == f && s[1 + |f|..] == z
  {
  }

  lemma PointReadsBack(f: string, z: string)
    requires |f| <= 9 && forall c | c in f :: '0' <= c <= '9'
    requires z != "" && !('0' <= z[0] <= '9')
    ensures ReadFraction("." + f + z) == (Value(f + Digits(9 - |f|, 0)), z)
  {
    hide Value, Digits, DigitRun, ReadFraction;
    DigitRunThrough(f, z);
    AroundPoint(f, z);
    ReadsAtPoint("." + f + z, |f|);
  }

  lemma FractionReadsBack(nano: nat, z: string)
    requires nano < NANOS_PER_SECOND
    requires z != "" && !('0' <= z[0] <= '9') && z[0] != '.'
    ensures ReadFraction(Fraction(nano) + z) == (nano, z)
  {
    hide Value, Digits, TrimRight;
    if nano == 0 {
      assert Fraction(nano) + z == z;
    } else {
      hide ReadFraction;
      var d := Digits(9, nano);
      ZerosComeBack(d);
      assert forall c | c in TrimRight(d, "0") :: c in d;
      PointReadsBack(TrimRight(d, "0"), z);
      NineDigits(nano);
    }
  }

  lemma ZoneReadsBack(offset: int)
    requires -24 * 60 < offset < 24 * 60
    ensures ReadZone(Zone(offset)) == offset
  {
    if offset != 0 {
      var o := if offset < 0 then -offset else offset;
      var z := Zone(offset);
      assert z[1..3] == Digits(2, o / 60) && z[4..6] == Digits(2, o % 60);
      assert Pow10(2) == 100;
      ValueOfDigits(2, o / 60);
      ValueOfDigits(2, o % 60);
    }
  }

  lemma DateReadsBack(t: Stamp)
    requires Valid(t)
    ensures var s := Date(t);
      Value(s[0..4]) == t.year && Value(s[5..7]) == t.month && Value(s[8..10]) == t.day
  {
    hide Value;
    var s := Date(t);
    assert s[0..4] == Digits(4, t.year) && s[5..7] == Digits(2, t.month) && s[8..10] == Digits(2, t.day);
    assert Pow10(2) == 100;
    assert Pow10(4) == 100 * Pow10(2);
    ValueOfDigits(4, t.year);
    ValueOfDigits(2, t.month);
    ValueOfDigits(2, t.day);
  }

  lemma ClockReadsBack(t: Stamp)
    requires Valid(t)
    ensures var s := Clock(t);
      Value(s[0..2]) == t.hour && Value(s[3..5]) == t.minute && Value(s[6..8]) == t.second
  {
    hide Value;
    var s := Clock(t);
    assert s[0..2] == Digits(2, t.hour) && s[3..5] == Digits(2, t.minute) && s[6..8] == Digits(2, t.second);
    assert Pow10(2) == 100;
    ValueOfDigits(2, t.hour);
    ValueOfDigits(2, t.minute);
    ValueOfDigits(2, t.second);
  }

  /** A slice of a concatenation that lies within one operand. */
  lemma SliceWithin(a: string, b: string, c: string, lo: nat, hi: nat)
    requires lo <= hi <= |b|
    ensures (a + b + c)[|a| + lo..|a| + hi] == b[lo..hi]
  {
  }

  lemma FieldsReadBack(t: Stamp)
    requires Valid(t)
    ensures |Format(t)| >= 19
    ensures ReadFields(Format(t)) == t
  {
    hide Value, Digits, Fraction, Zone, Date, Clock, ReadFraction, ReadZone;
    var s, date, clock := Format(t), Date(t), Clock(t);
    var tail := Fraction(t.nano) + Zone(t.offset);
    assert s == "" + date + ("T" + clock + tail);
    SliceWithin("", date, "T" + clock + tail, 0, 4);
    SliceWithin("", date, "T" + clock + tail, 5, 7);
    SliceWithin("", date, "T" + clock + tail, 8, 10);
    assert s == (date + "T") + clock + tail;
    SliceWithin(date + "T", clock, tail, 0, 2);
    SliceWithin(date + "T", clock, tail, 3, 5);
    SliceWithin(date + "T", clock, tail, 6, 8);
    assert s[19..] == tail;
    DateReadsBack(t);
    ClockReadsBack(t);
    FractionReadsBack(t.nano, Zone(t.offset));
    ZoneReadsBack(t.offset);
  }

  /** Parsing undoes formatting. */
  lemma ParseFormat(t: Stamp)
    requires Valid(t)
    ensures Parse(Format(t)) == Some(t)
  {
    FieldsReadBack(t);
  }

  // ---------- shape of a printed time ----------

  /** Behind the date and its `T` only digits, `:`, `.`, `+`, `-` and `Z` occur. */
  lemma TailCharacters(t: Stamp)
    requires Valid(t)
    ensures var s := Clock(t) + Fraction(t.nano) + Zone(t.offset);
      && (forall c | c in s :: '0' <= c <= '9' || c in ":.+-Z")
      && (s[|s| - 1] == 'Z' || '0' <= s[|s| - 1] <= '9')
  {
    hide Digits, TrimRight;
    var d := Digits(9, t.nano);
    ZerosComeBack(d);
    assert forall c | c in TrimRight(d, "0") :: c in d;
    assert forall c | c in Fraction(t.nano) :: '0' <= c <= '9' || c == '.';
    assert forall c | c in Clock(t) :: '0' <= c <= '9' || c == ':';
    if t.offset != 0 {
      var o := if t.offset < 0 then -t.offset else t.offset;
      var z := Digits(2, o % 60);
      assert z[1] in z;
      assert Zone(t.offset)[|Zone(t.offset)| - 1] == z[1];
    }
  }

  /** The only `T` of a printed time stands behind the date, and no `_` occurs. */
  lemma FormatShape(t: Stamp)
    requires Valid(t)
    ensures var s := Format(t);
      && |s| >= 19 && '0' <= s[0] <= '9'
      && (s[|s| - 1] == 'Z' || '0' <= s[|s| - 1] <= '9')
      && '_' !in s && s[10] == 'T' && forall i | 0 <= i < |s| && i != 10 :: s[i] != 'T'
  {
    hide Digits, Fraction, Zone, Clock;
    TailCharacters(t);
    var date, tail := Date(t), Clock(t) + Fraction(t.nano) + Zone(t.offset);
    var s := Format(t);
    assert s == date + "T" + tail;
    assert forall c | c in date :: '0' <= c <= '9' || c == '-';
    var y := Digits(4, t.year);
    assert y[0] in y && date[0] == y[0];
    forall i | 0 <= i < |s| ensures s[i] != '_' && (i != 10 ==> s[i] != 'T') {
      if i < 10 {
        assert s[i] == date[i] && date[i] in date;
      } else if i > 10 {
        assert s[i] == tail[i - 11] && tail[i - 11] in tail;
      }
    }
  }

  // ---------- string order and time order ----------

  lemma {:induction false} DigitsOrder(width: nat, m: nat, n: nat)
    requires m < Pow10(width) && n < Pow10(width)
    ensures Leq(Digits(width, m), Digits(width, n)) <==> m <= n
    ensures Digits(width, m) == Digits(width, n) <==> m == n
  {
    ValueOfDigits(width, m);
    ValueOfDigits(width, n);
    if width > 0 {
      DigitsOrder(width - 1, m / 10, n / 10);
      LeqConcat(Digits(width - 1, m / 10), [Digit(m % 10)], Digits(width - 1, n / 10), [Digit(n % 10)]);
    }
  }

  /** One more field and mark in front make the order of the longer text lexicographic. */
  lemma FieldOrder(width: nat, m: nat, mark: string, x: string, n: nat, y: string)
    requires m < Pow10(width) && n < Pow10(width) && |mark| <= 1
    ensures Leq(Digits(width, m) + (mark + x), Digits(width, n) + (mark + y)) <==>
            m < n || (m == n && Leq(x, y))
  {
    DigitsOrder(width, m, n);
    LeqConcat(mark, x, mark, y);
    LeqConcat(Digits(width, m), mark + x, Digits(width, n), mark + y);
  }

  lemma ClockOrder(a: Stamp, x: string, b: Stamp, y: string)
    requires Valid(a) && Valid(b)
    ensures var s, t := a.hour * 3600 + a.minute * 60 + a.second, b.hour * 3600 + b.minute * 60 + b.second;
      Leq(Clock(a) + x, Clock(b) + y) <==> s < t || (s == t && Leq(x, y))
  {
    hide Leq, Digits;
    assert Pow10(2) == 100;
    var a1, b1 := Digits(2, a.second) + ("" + x), Digits(2, b.second) + ("" + y);
    var a2, b2 := Digits(2, a.minute) + (":" + a1), Digits(2, b.minute) + (":" + b1);
    FieldOrder(2, a.second, "", x, b.second, y);
    FieldOrder(2, a.minute, ":", a1, b.minute, b1);
    FieldOrder(2, a.hour, ":", a2, b.hour, b2);
    assert Clock(a) + x == Digits(2, a.hour) + (":" + a2);
    assert Clock(b) + y == Digits(2, b.hour) + (":" + b2);
  }

  lemma DateOrder(a: Stamp, x: string, b: Stamp, y: string)
    requires Valid(a) && Valid(b)
    ensures Leq(Date(a) + "T" + x, Date(b) + "T" + y) <==>
            || a.year < b.year
            || (a.year == b.year && a.month < b.month)
            || (a.year == b.year && a.month == b.month && a.day < b.day)
            || (a.year == b.year && a.month == b.month && a.day == b.day && Leq(x, y))
  {
    hide Leq, Digits;
    assert Pow10(2) == 100;
    assert Pow10(4) == 100 * Pow10(2);
    var a1, b1 := Digits(2, a.day) + ("T" + x), Digits(2, b.day) + ("T" + y);
    var a2, b2 := Digits(2, a.month) + ("-" + a1), Digits(2, b.month) + ("-" + b1);
    FieldOrder(2, a.day, "T", x, b.day, y);
    FieldOrder(2, a.month, "-", a1, b.month, b1);
    FieldOrder(4, a.year, "-", a2, b.year, b2);
    assert Date(a) + "T" + x == Digits(4, a.year) + ("-" + a2);
    assert Date(b) + "T" + y == Digits(4, b.year) + ("-" + b2);
  }

  lemma {:induction false} MonthsAdd(year: nat, m: nat, n: nat)
    requires 1 <= m < n <= 12
    ensures DaysBeforeMonth(year, m) + DaysInMonth(year, m) <= DaysBeforeMonth(year, n)
  {
    if m < n - 1 { MonthsAdd(year, m, n - 1); }
  }

  lemma MonthFitsYear(year: nat, m: nat)
    requires 1 <= m <= 12
    ensures DaysBeforeMonth(year, m) + DaysInMonth(year, m) <= if Leap(year) then 366 else 365
  {
    assert DaysBeforeMonth(year, 2) == 31;
    assert DaysBeforeMonth(year, 3) == 31 + DaysInMonth(year, 2);
    assert DaysBeforeMonth(year, 5) == DaysBeforeMonth(year, 3) + 61;
    assert DaysBeforeMonth(year, 7) == DaysBeforeMonth(year, 5) + 61;
    assert DaysBeforeMonth(year, 9) == DaysBeforeMonth(year, 7) + 62;
    assert DaysBeforeMonth(year, 11) == DaysBeforeMonth(year, 9) + 61;
    assert DaysBeforeMonth(year, 12) == DaysBeforeMonth(year, 11) + 30;
    if m < 12 { MonthsAdd(year, m, 12); }
  }

  /** Rounding up to multiples of `k` moves on exactly behind a multiple. */
  lemma RoundUpStep(y: nat, k: nat)
    requires k in {4, 100, 400}
    ensures (y + k) / k == (y + k - 1) / k + if y % k == 0 then 1 else 0
  {
    if k == 4 {
      assert (y + 4) / 4 == (y + 3) / 4 + if y % 4 == 0 then 1 else 0;
    } else if k == 100 {
      assert (y + 100) / 100 == (y + 99) / 100 + if y % 100 == 0 then 1 else 0;
    } else {
      assert (y + 400) / 400 == (y + 399) / 400 + if y % 400 == 0 then 1 else 0;
    }
  }

  lemma Divides(y: nat, k: nat, j: nat)
    requires (k == 4 && j == 25) || (k == 100 && j == 4)
    ensures y % (k * j) == 0 ==> y % k == 0
  {
    var q := y / (k * j);
    if k == 4 { assert y == 100 * q + y % 100; } else { assert y == 400 * q + y % 400; }
  }

  lemma YearStep(y: nat)
    ensures DaysBeforeYear(y + 1) == DaysBeforeYear(y) + if Leap(y) then 366 else 365
  {
    RoundUpStep(y, 4);
    RoundUpStep(y, 100);
    RoundUpStep(y, 400);
    Divides(y, 4, 25);
    Divides(y, 100, 4);
  }

  lemma {:induction false} YearsAdd(m: nat, n: nat)
    requires m < n
    ensures DaysBeforeYear(m) + (if Leap(m) then 366 else 365) <= DaysBeforeYear(n)
  {
    YearStep(n - 1);
    if m < n - 1 { YearsAdd(m, n - 1); }
  }

  /** Up to the second, times of one zone are in string order as they are in time. */
  lemma SecondsOrder(a: Stamp, x: string, b: Stamp, y: string)
    requires Valid(a) && Valid(b) && a.offset == b.offset
    ensures Leq(Date(a) + "T" + (Clock(a) + x), Date(b) + "T" + (Clock(b) + y)) <==>
            Seconds(a) < Seconds(b) || (Seconds(a) == Seconds(b) && Leq(x, y))
  {
    hide Leq, Date, Clock;
    ClockOrder(a, x, b, y);
    DateOrder(a, Clock(a) + x, b, Clock(b) + y);
    MonthFitsYear(a.year, a.month);
    MonthFitsYear(b.year, b.month);
    if a.year < b.year { YearsAdd(a.year, b.year); }
    if b.year < a.year { YearsAdd(b.year, a.year); }
    if a.year == b.year && a.month < b.month { MonthsAdd(a.year, a.month, b.month); }
    if a.year == b.year && b.month < a.month { MonthsAdd(a.year, b.month, a.month); }
  }

  predicate Trimmed(s: string, zeros: string) {
    && (forall c | c in s :: '0' <= c <= '9') && (forall c | c in zeros :: c == '0')
    && (s != "" ==> s[|s| - 1] != '0')
  }

  /**
    Digits whose trailing zeros gave way to a text `z`. A character behind the digits
    turns the order round where one digit string is a proper prefix of the other; one
    before the digits keeps it.
  */
  lemma {:induction false} TrimmedOrder(a: string, x: string, b: string, y: string, z: string)
    requires Trimmed(a, x) && Trimmed(b, y) && |a + x| == |b + y|
    requires z != "" && (z[0] < '0' || z[0] > '9')
    ensures Leq(a + x, b + y) && Leq(b + y, a + x) <==> a == b
    ensures z[0] < '0' || (!(a < b) && !(b < a)) ==> (Leq(a + z, b + z) <==> Leq(a + x, b + y))
    ensures z[0] > '9' && a < b ==> !Leq(a + z, b + z) && Leq(a + x, b + y)
    ensures z[0] > '9' && b < a ==> Leq(a + z, b + z) && !Leq(a + x, b + y)
  {
    if a == "" && b == "" {
      assert a + x == x && b + y == y;
      ZerosFirst(x, y);
      ZerosFirst(y, x);
      LeqTotal(z, z);
      assert a + z == z && b + z == z;
    } else if a == "" {
      assert a + x == x && a + z == z;
      ZerosAndMore(x, b, y, z);
    } else if b == "" {
      assert b + y == y && b + z == z;
      ZerosAndMore(y, a, x, z);
    } else {
      assert (a + x)[1..] == a[1..] + x && (b + y)[1..] == b[1..] + y;
      assert (a + z)[1..] == a[1..] + z && (b + z)[1..] == b[1..] + z;
      assert a == [a[0]] + a[1..] && b == [b[0]] + b[1..];
      if a[0] == b[0] {
        assert forall c | c in a[1..] :: c in a;
        assert forall c | c in b[1..] :: c in b;
        TrimmedOrder(a[1..], x, b[1..], y, z);
      }
    }
  }

  lemma ZerosAndMore(x: string, b: string, y: string, z: string)
    requires (forall c | c in x :: c == '0') && Trimmed(b, y) && b != "" && |x| == |b + y|
    requires z != "" && (z[0] < '0' || z[0] > '9')
    ensures Leq(x, b + y) && !Leq(b + y, x)
    ensures Leq(z, b + z) <==> z[0] < '0'
    ensures Leq(b + z, z) <==> z[0] > '9'
  {
    assert b[0] in b && (b + z)[0] == b[0];
    assert forall c | c in b + y :: '0' <= c <= '9';
    ZerosFirst(x, b + y);
    NotZero(x, b, y);
  }

  lemma {:induction false} ZerosFirst(x: string, s: string)
    requires (forall c | c in x :: c == '0') && (forall c | c in s :: '0' <= c <= '9') && |x| == |s|
    ensures Leq(x, s)
  {
    if x != "" {
      assert x[0] in x && s[0] in s;
      assert forall c | c in x[1..] :: c in x;
      assert forall c | c in s[1..] :: c in s;
      ZerosFirst(x[1..], s[1..]);
    }
  }

  lemma NotZero(x: string, b: string, y: string)
    requires (forall c | c in x :: c == '0') && Trimmed(b, y) && b != "" && |x| == |b + y|
    ensures !Leq(b + y, x)
  {
    hide Leq;
    var last := |b| - 1;
    assert (b + y)[last] == b[last] && x[last] in x;
    assert forall c | c in b + y :: '0' <= c <= '9';
    ZerosFirst(x, b + y);
    if Leq(b + y, x) { LeqAntisymmetric(b + y, x); }
  }

  lemma FractionDigits(n: nat) returns (digits: string, zeros: string)
    requires n < NANOS_PER_SECOND
    ensures Trimmed(digits, zeros) && digits + zeros == Digits(9, n)
    ensures Fraction(n) == (if n == 0 then "" else "." + digits) && (digits == "" <==> n == 0)
  {
    hide Digits, TrimRight;
    var d := Digits(9, n);
    ZerosComeBack(d);
    digits := TrimRight(d, "0");
    zeros := Digits(9 - |digits|, 0);
    assert forall c | c in digits :: c in d;
    ZeroDigits(9 - |digits|);
    TrimmedEnd(d);
    NineDigits(n);
    NineDigits(0);
    ZeroDigits(9);
    assert digits == "" ==> digits + zeros == zeros;
    if n == 0 {
      assert d == "" + d;
      TrimRightThrough("", d, "0");
    }
  }

  lemma {:induction false} ZeroDigits(n: nat)
    ensures forall c | c in Digits(n, 0) :: c == '0'
  {
    if n > 0 { ZeroDigits(n - 1); }
  }

  lemma {:induction false} TrimmedEnd(s: string)
    ensures var t := TrimRight(s, "0"); t != "" ==> t[|t| - 1] != '0'
    ensures TrimRight("", "0") == ""
  {
    if s != "" && s[|s| - 1] == '0' { TrimmedEnd(s[..|s| - 1]); }
  }

  /** A point in front of two texts leaves their order as it is. */
  lemma PointedOrder(a: string, b: string, z: string)
    ensures Leq("." + a + z, "." + b + z) <==> Leq(a + z, b + z)
    ensures "." + a < "." + b <==> a < b
  {
    assert "." + a + z == "." + (a + z) && "." + b + z == "." + (b + z);
    LeqConcat(".", a + z, ".", b + z);
    assert ("." + a)[1..] == a && ("." + b)[1..] == b;
  }

  lemma FractionOrder(m: nat, n: nat, z: string)
    requires m < NANOS_PER_SECOND && n < NANOS_PER_SECOND
    requires z != "" && z[0] in "Z+-"
    ensures var prefix := Fraction(m) < Fraction(n) || Fraction(n) < Fraction(m);
      (Leq(Fraction(m) + z, Fraction(n) + z) <==> m <= n) <==> !(z[0] == 'Z' && prefix)
  {
    var a, x := FractionDigits(m);
    var b, y := FractionDigits(n);
    hide Digits, Fraction;
    if m != 0 && n != 0 {
      assert Pow10(3) == 1000;
      assert Pow10(6) == 1000 * Pow10(3);
      assert Pow10(9) == 1000 * Pow10(6);
      hide Leq, Trimmed;
      DigitsOrder(9, m, n);
      TrimmedOrder(a, x, b, y, z);
      PointedOrder(a, b, z);
      PointedOrder(b, a, z);
    } else if m == 0 && n == 0 {
      LeqTotal(z, z);
    } else {
      hide Leq, Trimmed;
      assert "" + z == z;
      PointAlone(a, z);
      PointAlone(b, z);
    }
  }

  lemma PointAlone(a: string, z: string)
    requires z != "" && z[0] != '.'
    ensures Leq(z, "." + a + z) <==> z[0] < '.'
    ensures Leq("." + a + z, z) <==> z[0] > '.'
    ensures "" < "." + a && !("." + a < "")
  {
    assert ("." + a + z)[0] == '.';
  }

  /** Two UTC times within one second, the fraction of one printed as the beginning of the other's. */
  predicate Confused(a: Stamp, b: Stamp)
    requires Valid(a) && Valid(b)
  {
    && a.offset == 0 && b.offset == 0 && Seconds(a) == Seconds(b)
    && (Fraction(a.nano) < Fraction(b.nano) || Fraction(b.nano) < Fraction(a.nano))
  }

  /**
    Section 5.1 of RFC 3339, exactly: two printed times of one zone, whatever follows
    them, are in string order as they are in time if and only if they are not two UTC
    times within one second with the fraction of one a beginning of the other's. The
    `Z` sorts behind digits and point; the sign of another zone sorts before them.
  */
  lemma StringOrderExact(a: Stamp, b: Stamp, tail: string)
    requires Valid(a) && Valid(b) && a.offset == b.offset
    ensures (Leq(Format(a) + tail, Format(b) + tail) <==> Instant(a) <= Instant(b)) <==> !Confused(a, b)
  {
    hide Leq, Date, Clock, Fraction, Zone, Seconds, DaysInMonth;
    var z := Zone(a.offset) + tail;
    var x, y := Fraction(a.nano) + z, Fraction(b.nano) + z;
    ZoneMark(a.offset);
    assert z[0] == Zone(a.offset)[0];
    FractionOrder(a.nano, b.nano, z);
    SecondsOrder(a, x, b, y);
    FormatParts(a, tail);
    FormatParts(b, tail);
    hide Format;
    InstantOrder(a, b);
  }

  lemma FormatParts(t: Stamp, tail: string)
    ensures Format(t) + tail == Date(t) + "T" + (Clock(t) + (Fraction(t.nano) + (Zone(t.offset) + tail)))
  {
    hide Date, Clock, Fraction, Zone;
  }

  lemma InstantOrder(a: Stamp, b: Stamp)
    requires Valid(a) && Valid(b)
    ensures Instant(a) <= Instant(b) <==> Seconds(a) < Seconds(b) || (Seconds(a) == Seconds(b) && a.nano <= b.nano)
  {
    hide Seconds, DaysInMonth;
  }

  /** So for whole seconds, and in any zone but UTC, string order is time order. */
  lemma StringOrderIsTimeOrder(a: Stamp, b: Stamp)
    requires Valid(a) && Valid(b) && a.offset == b.offset && (a.nano == b.nano == 0 || a.offset != 0)
    ensures Leq(Format(a), Format(b)) <==> Instant(a) <= Instant(b)
  {
    hide Leq, Format, Instant;
    assert Format(a) + "" == Format(a) && Format(b) + "" == Format(b);
    StringOrderExact(a, b, "");
  }

  lemma ZoneMark(offset: int)
    ensures Zone(offset)[0] == 'Z' <==> offset == 0
  {
    hide Digits;
  }

  /** Half past sorts before the full second. */
  lemma FractionsBreakTheOrder()
    ensures var b := Stamp(2026, 5, 1, 0, 0, 0, 0, 0);
      var a := b.(nano := 500_000_000);
      Valid(a) && Valid(b) && Confused(a, b) && Leq(Format(a), Format(b)) && Instant(a) > Instant(b)
  {
    var b := Stamp(2026, 5, 1, 0, 0, 0, 0, 0);
    var a := b.(nano := 500_000_000);
    hide Leq, Seconds, Date, Clock, Digits;
    assert Format(a) + "" == Format(a) && Format(b) + "" == Format(b);
    StringOrderExact(a, b, "");
  }
}
