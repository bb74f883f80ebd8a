/** The timestamps of the forecast feed and the two `datetime` operations
    the parser applies to them: `datetime.fromisoformat` after the
    `replace('Z', '+00:00')` rewrite, and `strftime('%m/%d %H:%M')`.

    The feed writes every timestamp as `YYYY-MM-DD HH:MM:SS` in local time.
    `FromIsoFormat` accepts that form with any single separator character
    between date and time, optionally followed by a `+HH:MM`/`-HH:MM`
    offset, and checks the calendar as `datetime` does (years 1..9999,
    month lengths, leap years). */
module Timestamps {
  import opened Results
  import opened Text

  datatype DateTime = DateTime(year: int, month: int, day: int, hour: int, minute: int, second: int)

  predicate IsLeapYear(y: int) {
    y % 4 == 0 && (y % 100 != 0 || y % 400 == 0)
  }

  function DaysInMonth(y: int, m: int): int
    requires 1 <= m <= 12
  {
    if m == 2 then (if IsLeapYear(y) then 29 else 28)
    else if m == 4 || m == 6 || m == 9 || m == 11 then 30
    else 31
  }

  /** A moment `datetime` can represent. */
  predicate Valid(dt: DateTime) {
    && 1 <= dt.year <= 9999
    && 1 <= dt.month <= 12
    && 1 <= dt.day <= DaysInMonth(dt.year, dt.month)
    && 0 <= dt.hour < 24
    && 0 <= dt.minute < 60
    && 0 <= dt.second < 60
  }

  /** The value of `s[from..from + len]` when those are all digits. */
  function Field(s: string, from: nat, len: nat): Option<nat>
    requires from + len <= |s|
  {
    if IsDigits(s[from..from + len]) then Some(DigitsValue(s[from..from + len])) else None
  }

  /** A UTC offset `+HH:MM` or `-HH:MM` of less than a day.  The two fields
      are not checked one by one: `timezone` only demands that the whole
      offset be under 24 hours, so `+00:75` is an hour and a quarter. */
  predicate OffsetOk(o: string) {
    && |o| == 6
    && (o[0] == '+' || o[0] == '-')
    && o[3] == ':'
    && Field(o, 1, 2).Some? && Field(o, 4, 2).Some?
    && Field(o, 1, 2).value * 60 + Field(o, 4, 2).value < 24 * 60
  }

  /** `datetime.fromisoformat(s)`; `None` where Python raises `ValueError`. */
  function FromIsoFormat(s: string): (r: Option<DateTime>)
    ensures r.Some? ==> Valid(r.value) && |s| >= 19
  {
    if |s| != 19 && !(|s| == 25 && OffsetOk(s[19..])) then None
    else if s[4] != '-' || s[7] != '-' || s[13] != ':' || s[16] != ':' then None
    else
      var year :- Field(s, 0, 4);
      var month :- Field(s, 5, 2);
      var day :- Field(s, 8, 2);
      var hour :- Field(s, 11, 2);
      var minute :- Field(s, 14, 2);
      var second :- Field(s, 17, 2);
      var dt := DateTime(year, month, day, hour, minute, second);
      if Valid(dt) then Some(dt) else None
  }

  /** `s.replace('Z', '+00:00')`. */
  function ReplaceZ(s: string): string {
    if |s| == 0 then ""
    else (if s[0] == 'Z' then "+00:00" else [s[0]]) + ReplaceZ(s[1..])
  }

  /** Two zero-padded digits, as `%m`, `%d`, `%H` and `%M` print them. */
  function Pad2(n: nat): (r: string)
    requires n < 100
    ensures |r| == 2 && IsDigits(r)
  {
    [DigitChar(n / 10), DigitChar(n % 10)]
  }

  /** Four zero-padded digits, as `isoformat` prints a year. */
  function Pad4(n: nat): (r: string)
    requires n < 10000
    ensures |r| == 4 && IsDigits(r)
  {
    Pad2(n / 100) + Pad2(n % 100)
  }

  /** `dt.strftime('%m/%d %H:%M')`. */
  function MonthDayTime(dt: DateTime): string
    requires Valid(dt)
  {
    Pad2(dt.month) + "/" + Pad2(dt.day) + " " + Pad2(dt.hour) + ":" + Pad2(dt.minute)
  }

  /** `dt.isoformat(sep=' ')`: the form in which the feed writes its
      timestamps. */
  function IsoFormat(dt: DateTime): string
    requires Valid(dt)
  {
    Pad4(dt.year) + "-" + Pad2(dt.month) + "-" + Pad2(dt.day) + " "
      + Pad2(dt.hour) + ":" + Pad2(dt.minute) + ":" + Pad2(dt.second)
  }

  lemma Pad2Value(n: nat)
    requires n < 100
    ensures DigitsValue(Pad2(n)) == n
  {
    var r := Pad2(n);
    assert r[..1] == [DigitChar(n / 10)];
    assert DigitsValue(r[..1]) == n / 10 by {
      assert r[..1][..0] == [];
    }
  }

  /** Two digits read as a number and printed back are the same two digits. */
  lemma DigitsPad2(s: string)
    requires |s| == 2 && IsDigits(s)
    ensures DigitsValue(s) < 100 && Pad2(DigitsValue(s)) == s
  {
    assert s[..1][..0] == [];
    assert DigitsValue(s[..1]) == s[0] as int - '0' as int;
  }

  lemma Pad4Value(n: nat)
    requires n < 10000
    ensures DigitsValue(Pad4(n)) == n
  {
    var r := Pad4(n);
    Pad2Value(n / 100);
    Pad2Value(n % 100);
    var hi := Pad2(n / 100);
    var lo := Pad2(n % 100);
    assert r[..3] == hi + lo[..1];
    assert r[..3][..2] == hi;
    assert lo[..1][..0] == [];
    assert DigitsValue(lo[..1]) == (n % 100) / 10;
  }

  /** Reading back what `isoformat` printed gives the same moment. */
  lemma FromIsoFormatIsoFormat(dt: DateTime)
    requires Valid(dt)
    ensures FromIsoFormat(IsoFormat(dt)) == Some(dt)
  {
    var s := IsoFormat(dt);
    assert |s| == 19;
    assert s[0..4] == Pad4(dt.year);
    assert s[5..7] == Pad2(dt.month);
    assert s[8..10] == Pad2(dt.day);
    assert s[11..13] == Pad2(dt.hour);
    assert s[14..16] == Pad2(dt.minute);
    assert s[17..19] == Pad2(dt.second);
    Pad4Value(dt.year);
    Pad2Value(dt.month);
    Pad2Value(dt.day);
    Pad2Value(dt.hour);
    Pad2Value(dt.minute);
    Pad2Value(dt.second);
  }

  /** An offset written with two-digit hours and minutes is accepted exactly
      when it comes to less than a day; the minutes may run past 59. */
  lemma OffsetRule(sign: char, h: nat, m: nat)
    requires sign == '+' || sign == '-'
    requires h < 100 && m < 100
    ensures OffsetOk([sign] + Pad2(h) + ":" + Pad2(m)) <==> h * 60 + m < 24 * 60
  {
    var o := [sign] + Pad2(h) + ":" + Pad2(m);
    assert o[1..3] == Pad2(h) && o[4..6] == Pad2(m);
    Pad2Value(h);
    Pad2Value(m);
  }

  /** A timestamp followed by an accepted offset stands for the same
      wall-clock fields as the timestamp alone. */
  lemma OffsetKeepsFields(dt: DateTime, o: string)
    requires Valid(dt) && OffsetOk(o)
    ensures FromIsoFormat(IsoFormat(dt) + o) == Some(dt)
  {
    var s := IsoFormat(dt);
    var t := s + o;
    FromIsoFormatIsoFormat(dt);
    assert t[19..] == o;
    assert t[0..4] == s[0..4] && t[5..7] == s[5..7] && t[8..10] == s[8..10];
    assert t[11..13] == s[11..13] && t[14..16] == s[14..16] && t[17..19] == s[17..19];
  }

  /** `replace('Z', '+00:00')` leaves a string without `Z` untouched. */
  lemma {:induction false} ReplaceZWithoutZ(s: string)
    requires forall i :: 0 <= i < |s| ==> s[i] != 'Z'
    ensures ReplaceZ(s) == s
  {
    if |s| > 0 {
      ReplaceZWithoutZ(s[1..]);
      assert [s[0]] + s[1..] == s;
    }
  }

  /** A UTC timestamp written with a trailing `Z` is accepted after the
      rewrite, and stands for the same wall-clock fields. */
  lemma UtcMarkerAccepted(dt: DateTime)
    requires Valid(dt)
    ensures FromIsoFormat(ReplaceZ(IsoFormat(dt) + "Z")) == Some(dt)
  {
    var s := IsoFormat(dt);
    ReplaceZAppend(s, "Z");
    ReplaceZWithoutZ(s);
    assert ReplaceZ("Z") == "+00:00";
    OffsetRule('+', 0, 0);
    assert ['+'] + Pad2(0) + ":" + Pad2(0) == "+00:00";
    OffsetKeepsFields(dt, "+00:00");
  }

  lemma {:induction false} ReplaceZAppend(a: string, b: string)
    ensures ReplaceZ(a + b) == ReplaceZ(a) + ReplaceZ(b)
    decreases |a|
  {
    if |a| > 0 {
      assert (a + b)[1..] == a[1..] + b;
      ReplaceZAppend(a[1..], b);
    } else {
      assert a + b == b;
    }
  }

  /** The characters of a `YYYY-MM-DD HH:MM...` text at the month, day,
      hour and minute positions, laid out as `MM/DD HH:MM`. */
  function Positional(s: string): string
    requires |s| >= 16
  {
    s[5..7] + "/" + s[8..10] + " " + s[11..13] + ":" + s[14..16]
  }

  /** `strftime('%m/%d %H:%M')` of a parsed timestamp shows exactly the
      characters at the month, day, hour and minute positions of the text it
      was parsed from. */
  lemma MonthDayTimePositional(s: string)
    requires FromIsoFormat(s).Some?
    ensures MonthDayTime(FromIsoFormat(s).value) == Positional(s)
  {
    DigitsPad2(s[5..7]);
    DigitsPad2(s[8..10]);
    DigitsPad2(s[11..13]);
    DigitsPad2(s[14..16]);
  }
}
