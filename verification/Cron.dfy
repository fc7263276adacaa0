/**
 * The schedule picker (web/src/schedule.ts): common cron shapes as a form, and the
 * form as a cron expression.
 */
module Cron {
  import opened Base
  import opened Templates

  datatype Frequency = Daily | Weekdays | Weekly | Hourly | Interval

  datatype Unit = Minutes | Seconds

  /** `time` is "07:30"; days count from Sunday = 0. */
  datatype SimpleSchedule = SimpleSchedule(frequency: Frequency, time: string, days: seq<int>, every: nat, unit: Unit)

  const DEFAULT := SimpleSchedule(Daily, "07:30", [1], 15, Minutes)

  // ---------------------------------------------------------------- texts

  function SplitOn(s: string, sep: char): (parts: seq<string>)
    ensures parts != []
  {
    if s == "" then [""]
    else
      var rest := SplitOn(s[1..], sep);
      if s[0] == sep then [""] + rest else [[s[0]] + rest[0]] + rest[1..]
  }

  function JoinWith(parts: seq<string>, sep: char): string
    requires parts != []
  {
    if |parts| == 1 then parts[0] else parts[0] + [sep] + JoinWith(parts[1..], sep)
  }

  predicate Lacks(s: string, c: char) { forall i :: 0 <= i < |s| ==> s[i] != c }

  lemma {:induction false} SplitPlain(s: string, rest: string, sep: char)
    requires Lacks(s, sep) && (rest == "" || rest[0] == sep)
    ensures SplitOn(s + rest, sep) == if rest == "" then [s] else [s] + SplitOn(rest[1..], sep)
  {
    if s == "" {
      assert s + rest == rest;
    } else {
      assert (s + rest)[1..] == s[1..] + rest;
      SplitPlain(s[1..], rest, sep);
      assert [s[0]] + s[1..] == s;
    }
  }

  /** Splitting undoes joining. */
  lemma {:induction false} SplitJoined(parts: seq<string>, sep: char)
    requires parts != [] && forall i :: 0 <= i < |parts| ==> Lacks(parts[i], sep)
    ensures SplitOn(JoinWith(parts, sep), sep) == parts
  {
    if |parts| == 1 {
      SplitPlain(parts[0], "", sep);
      assert parts[0] + "" == parts[0];
    } else {
      var rest := [sep] + JoinWith(parts[1..], sep);
      assert JoinWith(parts, sep) == parts[0] + rest && rest[1..] == JoinWith(parts[1..], sep);
      SplitPlain(parts[0], rest, sep);
      SplitJoined(parts[1..], sep);
    }
  }

  function SkipWord(text: string, from: nat): (end: nat)
    requires from <= |text|
    ensures from <= end <= |text| && forall i :: from <= i < end ==> !IsSpace(text[i])
    ensures end < |text| ==> IsSpace(text[end])
    decreases |text| - from
  {
    if from < |text| && !IsSpace(text[from]) then SkipWord(text, from + 1) else from
  }

  lemma SkipsSpace(text: string, from: nat)
    requires from <= |text|
    ensures SkipSpace(text, from) < |text| ==> !IsSpace(text[SkipSpace(text, from)])
    decreases |text| - from
  {
    if from < |text| && IsSpace(text[from]) { SkipsSpace(text, from + 1); }
  }

  /** The fields of a text that is trimmed and whose white space is collapsed. */
  function Fields(text: string): seq<string>
    decreases |text|
  {
    var start := SkipSpace(text, 0);
    if start == |text| then [] else
      SkipsSpace(text, 0);
      var end := SkipWord(text, start);
      [text[start..end]] + Fields(text[end..])
  }

  predicate IsField(s: string) { s != "" && forall i :: 0 <= i < |s| ==> !IsSpace(s[i]) }

  lemma FieldsAfterSpace(text: string)
    ensures Fields(" " + text) == Fields(text)
  {
    var spaced := " " + text;
    SkipShift(text, 0);
    var start := SkipSpace(text, 0);
    assert SkipSpace(spaced, 0) == start + 1;
    if start < |text| {
      SkipsSpace(text, 0);
      WordShift(text, start);
      var end := SkipWord(text, start);
      assert spaced[start + 1..end + 1] == text[start..end] && spaced[end + 1..] == text[end..];
    }
  }

  lemma {:induction false} SkipShift(text: string, from: nat)
    requires from <= |text|
    ensures SkipSpace(" " + text, from + 1) == SkipSpace(text, from) + 1
    decreases |text| - from
  {
    if from < |text| && IsSpace(text[from]) { SkipShift(text, from + 1); }
  }

  lemma {:induction false} WordShift(text: string, from: nat)
    requires from <= |text|
    ensures SkipWord(" " + text, from + 1) == SkipWord(text, from) + 1
    decreases |text| - from
  {
    if from < |text| && !IsSpace(text[from]) { WordShift(text, from + 1); }
  }

  lemma {:induction false} WordEnds(text: string, from: nat, end: nat)
    requires from <= end <= |text| && (forall i :: from <= i < end ==> !IsSpace(text[i])) && (end < |text| ==> IsSpace(text[end]))
    ensures SkipWord(text, from) == end
    decreases end - from
  {
    if from < end { WordEnds(text, from + 1, end); }
  }

  /** The fields of an expression printed with single spaces. */
  lemma {:induction false} FieldsJoined(fields: seq<string>)
    requires fields != [] && forall i :: 0 <= i < |fields| ==> IsField(fields[i])
    ensures Fields(JoinWith(fields, ' ')) == fields
  {
    if |fields| == 1 {
      assert fields[0] + "" == fields[0];
      FirstField(fields[0], "");
      assert Fields("") == [];
    } else {
      var rest := JoinWith(fields[1..], ' ');
      assert JoinWith(fields, ' ') == fields[0] + (" " + rest);
      FirstField(fields[0], " " + rest);
      FieldsAfterSpace(rest);
      FieldsJoined(fields[1..]);
    }
  }

  lemma FirstField(field: string, rest: string)
    requires IsField(field) && (rest != "" ==> IsSpace(rest[0]))
    ensures Fields(field + rest) == [field] + Fields(rest)
  {
    var text := field + rest;
    assert text[0] == field[0] && text[..|field|] == field && text[|field|..] == rest;
    assert forall i :: 0 <= i < |field| ==> text[i] == field[i];
    assert SkipSpace(text, 0) == 0;
    WordEnds(text, 0, |field|);
    assert text[0..|field|] == field;
  }

  predicate IsDigits(s: string) { forall i :: 0 <= i < |s| ==> s[i] in DIGITS }

  /** `\d{1,2}` */
  predicate OneOrTwoDigits(s: string) { 1 <= |s| <= 2 && IsDigits(s) }

  /** The text of Number(s) for digits; anything else is not a number. */
  function NumberText(s: string): string { if IsDigits(s) then Decimal(Value(s)) else "NaN" }

  /** `padStart(2, '0')` */
  function Pad(s: string): string { if s == "" then "00" else if |s| == 1 then "0" + s else s }

  // ---------------------------------------------------------------- printing

  function DayText(day: int): string { if day >= 0 then Decimal(day) else "-" + Decimal(-day) }

  /** `[...new Set(days)].sort((a, b) => a - b)` */
  function SortedDays(days: seq<int>): (sorted: seq<int>)
    ensures Ascending(sorted) && forall d :: d in sorted <==> d in days
  {
    if days == [] then [] else
      assert days == days[..|days| - 1] + [days[|days| - 1]];
      InsertAscending(SortedDays(days[..|days| - 1]), days[|days| - 1])
  }

  function DayTexts(days: seq<int>): (texts: seq<string>)
    ensures |texts| == |days| && forall i :: 0 <= i < |days| ==> texts[i] == DayText(days[i])
  {
    seq(|days|, i requires 0 <= i < |days| => DayText(days[i]))
  }

  function DaysField(days: seq<int>): string {
    var sorted := SortedDays(days);
    if sorted == [] then "1" else JoinWith(DayTexts(sorted), ',')
  }

  function HourText(time: string): string { NumberText(SplitOn(time, ':')[0]) }

  function MinuteText(time: string): string {
    var parts := SplitOn(time, ':');
    NumberText(if |parts| > 1 then parts[1] else "30")
  }

  function ToCron(s: SimpleSchedule): string {
    var hm := MinuteText(s.time) + " " + HourText(s.time);
    match s.frequency
    case Daily => hm + " * * *"
    case Weekdays => hm + " * * 1-5"
    case Weekly => hm + " * * " + DaysField(s.days)
    case Hourly => "0 * * * *"
    case Interval => if s.unit.Seconds? then "*/" + Decimal(s.every) + " * * * * *" else "*/" + Decimal(s.every) + " * * * *"
  }

  // ---------------------------------------------------------------- parsing

  predicate IsDay(s: string) { |s| == 1 && '0' <= s[0] <= '6' }

  /** `[0-6](?:,[0-6])*` */
  predicate IsDayList(s: string) { forall i :: 0 <= i < |SplitOn(s, ',')| ==> IsDay(SplitOn(s, ',')[i]) }

  function DaysOf(s: string): (days: seq<int>)
    requires IsDayList(s)
    ensures |days| == |SplitOn(s, ',')| && forall i :: 0 <= i < |days| ==> days[i] == Value(SplitOn(s, ',')[i])
  {
    var parts := SplitOn(s, ',');
    seq(|parts|, i requires 0 <= i < |parts| => assert IsDay(parts[i]); Value(parts[i]))
  }

  predicate IsEvery(s: string) { |s| > 2 && s[..2] == "*/" && IsDigits(s[2..]) }

  function TimeAt(minute: string, hour: string): string { Pad(hour) + ":" + Pad(minute) }

  function ParseFields(f: seq<string>): Option<SimpleSchedule> {
    if |f| == 5 && OneOrTwoDigits(f[0]) && OneOrTwoDigits(f[1]) && f[2] == "*" && f[3] == "*" && f[4] == "*" then
      Some(DEFAULT.(frequency := Daily, time := TimeAt(f[0], f[1])))
    else if |f| == 5 && OneOrTwoDigits(f[0]) && OneOrTwoDigits(f[1]) && f[2] == "*" && f[3] == "*" && f[4] == "1-5" then
      Some(DEFAULT.(frequency := Weekdays, time := TimeAt(f[0], f[1])))
    else if |f| == 5 && OneOrTwoDigits(f[0]) && OneOrTwoDigits(f[1]) && f[2] == "*" && f[3] == "*" && IsDayList(f[4]) then
      Some(DEFAULT.(frequency := Weekly, time := TimeAt(f[0], f[1]), days := DaysOf(f[4])))
    else if f == ["0", "*", "*", "*", "*"] then Some(DEFAULT.(frequency := Hourly))
    else if |f| == 5 && IsEvery(f[0]) && f[1..] == ["*", "*", "*", "*"] then
      Some(DEFAULT.(frequency := Interval, every := Value(f[0][2..]), unit := Minutes))
    else if |f| == 6 && IsEvery(f[0]) && f[1..] == ["*", "*", "*", "*", "*"] then
      Some(DEFAULT.(frequency := Interval, every := Value(f[0][2..]), unit := Seconds))
    else None
  }

  function Parse(cron: string): Option<SimpleSchedule> { ParseFields(Fields(cron)) }

  function WithFrequency(cron: string, frequency: Frequency): string {
    var current := Parse(cron);
    ToCron((if current.Some? then current.value else DEFAULT).(frequency := frequency))
  }

  // ---------------------------------------------------------------- numbers in texts

  lemma DecimalStep(n: nat)
    ensures if n < 10 then Decimal(n) == [DIGITS[n]] else Decimal(n) == Decimal(n / 10) + [DIGITS[n % 10]]
  {
    hide Value;
  }

  lemma DecimalShort(n: nat)
    ensures |Decimal(n)| == 1 <==> n < 10
    ensures |Decimal(n)| <= 2 <==> n < 100
    ensures n < 10 ==> Decimal(n) == [DIGITS[n]]
  {
    hide Decimal, Value;
    DecimalStep(n);
    if n >= 10 {
      DecimalStep(n / 10);
      if n >= 100 { DecimalStep(n / 100); }
    }
  }

  lemma DigitsAreFields(n: nat)
    ensures IsField(Decimal(n)) && IsDigits(Decimal(n)) && Lacks(Decimal(n), ',') && Lacks(Decimal(n), ':') && Lacks(Decimal(n), '-')
  {
    assert forall c :: c in DIGITS ==> '0' <= c <= '9';
  }

  lemma TwoDigitsValue(a: char, b: char)
    requires a in DIGITS && b in DIGITS
    ensures Value([a, b]) == 10 * DigitValue(a) + DigitValue(b) && Value([a]) == DigitValue(a)
  {
    var s, t := [a], [a, b];
    assert s[..0] == "" && Value(s[..0]) == 0;
    assert Value(s) == 10 * Value(s[..|s| - 1]) + DigitValue(s[|s| - 1]);
    assert t[..1] == s;
    assert Value(t) == 10 * Value(t[..|t| - 1]) + DigitValue(t[|t| - 1]);
  }

  lemma DigitBack(c: char)
    requires c in DIGITS
    ensures DigitValue(c) < 10 && DIGITS[DigitValue(c)] == c
  {
  }

  /** Padding to two digits keeps the number. */
  lemma PadKeeps(n: nat)
    ensures IsDigits(Pad(Decimal(n))) && Value(Pad(Decimal(n))) == n && Lacks(Pad(Decimal(n)), ':')
  {
    DecimalShort(n);
    DigitsAreFields(n);
    if |Decimal(n)| == 1 {
      TwoDigitsValue('0', Decimal(n)[0]);
      DigitBack(Decimal(n)[0]);
      assert Pad(Decimal(n)) == ['0', Decimal(n)[0]];
      assert Value(Decimal(n)) == n;
    }
  }

  /** Two digits are what printing and padding their number gives. */
  lemma PadRestores(s: string)
    requires |s| == 2 && IsDigits(s)
    ensures Value(s) < 100 && Pad(Decimal(Value(s))) == s
  {
    hide Decimal, Value, DigitValue;
    assert s == [s[0], s[1]];
    TwoDigitsValue(s[0], s[1]);
    DigitBack(s[0]);
    DigitBack(s[1]);
    TwoDigitsPadded(DigitValue(s[0]), DigitValue(s[1]));
  }

  lemma TwoDigitsPadded(x: nat, y: nat)
    requires x < 10 && y < 10
    ensures Pad(Decimal(10 * x + y)) == [DIGITS[x], DIGITS[y]]
  {
    hide *;
    var n := 10 * x + y;
    TensAndOnes(n, x, y);
    DecimalStep(n);
    DecimalStep(x);
    ZeroDigit();
    var a, b := DIGITS[x], DIGITS[y];
    PadCases(Decimal(n));
    assert Decimal(n) == if x == 0 then [b] else [a] + [b];
  }

  lemma PadCases(s: string)
    ensures |s| == 1 ==> Pad(s) == ['0', s[0]]
    ensures |s| == 2 ==> Pad(s) == [s[0], s[1]]
  {
  }

  lemma TensAndOnes(n: nat, x: nat, y: nat)
    requires n == 10 * x + y && x < 10 && y < 10
    ensures n / 10 == x && n % 10 == y && (n < 10 <==> x == 0)
  {
  }

  lemma ZeroDigit()
    ensures DIGITS[0] == '0' && |DIGITS| == 10
  {
  }

  // ---------------------------------------------------------------- what the form means

  /** A clock text whose parts are numbers, as a time input gives it. */
  predicate IsTime(time: string) {
    var parts := SplitOn(time, ':');
    IsDigits(parts[0]) && (|parts| > 1 ==> IsDigits(parts[1]))
  }

  function HourOf(time: string): nat
    requires IsTime(time)
  {
    Value(SplitOn(time, ':')[0])
  }

  function MinuteOf(time: string): nat
    requires IsTime(time)
  {
    var parts := SplitOn(time, ':');
    if |parts| > 1 then Value(parts[1]) else 30
  }

  function ClockText(hour: nat, minute: nat): string { Pad(Decimal(hour)) + ":" + Pad(Decimal(minute)) }

  predicate OnClock(f: Frequency) { f.Daily? || f.Weekdays? || f.Weekly? }

  /** The form prints an expression the picker recognises. */
  predicate Recognised(s: SimpleSchedule)
    requires IsTime(s.time)
  {
    (OnClock(s.frequency) ==> HourOf(s.time) < 100 && MinuteOf(s.time) < 100) &&
    (s.frequency.Weekly? ==> forall d :: d in s.days ==> 0 <= d <= 6)
  }

  /** The form as it comes back: what its frequency uses, the rest by default. */
  function Canonical(s: SimpleSchedule): SimpleSchedule
    requires IsTime(s.time)
  {
    var base := DEFAULT.(frequency := s.frequency);
    match s.frequency
    case Hourly => base
    case Interval => base.(every := s.every, unit := s.unit)
    case Weekly =>
      base.(time := ClockText(HourOf(s.time), MinuteOf(s.time)), days := if s.days == [] then [1] else SortedDays(s.days))
    case _ => base.(time := ClockText(HourOf(s.time), MinuteOf(s.time)))
  }

  /** The printed expression field by field. */
  function Printed(s: SimpleSchedule): seq<string>
    requires IsTime(s.time)
  {
    var hm := [Decimal(MinuteOf(s.time)), Decimal(HourOf(s.time))];
    match s.frequency
    case Daily => hm + ["*", "*", "*"]
    case Weekdays => hm + ["*", "*", "1-5"]
    case Weekly => hm + ["*", "*", DaysField(s.days)]
    case Hourly => ["0", "*", "*", "*", "*"]
    case Interval => if s.unit.Seconds? then ["*/" + Decimal(s.every), "*", "*", "*", "*", "*"] else ["*/" + Decimal(s.every), "*", "*", "*", "*"]
  }

  lemma JoinFive(a: string, b: string, c: string, d: string, e: string)
    ensures JoinWith([a, b, c, d, e], ' ') == a + " " + b + " " + c + " " + d + " " + e
  {
    var f := [a, b, c, d, e];
    assert f[1..] == [b, c, d, e] && f[1..][1..] == [c, d, e] && f[1..][1..][1..] == [d, e] && f[1..][1..][1..][1..] == [e];
    assert JoinWith([d, e], ' ') == d + " " + e;
    assert JoinWith([c, d, e], ' ') == c + " " + (d + " " + e);
    assert JoinWith([b, c, d, e], ' ') == b + " " + (c + " " + (d + " " + e));
    assert JoinWith(f, ' ') == a + " " + (b + " " + (c + " " + (d + " " + e)));
  }

  lemma JoinSix(a: string, b: string, c: string, d: string, e: string, x: string)
    ensures JoinWith([a, b, c, d, e, x], ' ') == a + " " + b + " " + c + " " + d + " " + e + " " + x
  {
    assert [a, b, c, d, e, x][1..] == [b, c, d, e, x];
    JoinFive(b, c, d, e, x);
    assert JoinWith([a, b, c, d, e, x], ' ') == a + " " + (b + " " + c + " " + d + " " + e + " " + x);
  }

  lemma TextsOfTime(time: string)
    requires IsTime(time)
    ensures HourText(time) == Decimal(HourOf(time)) && MinuteText(time) == Decimal(MinuteOf(time))
  {
    assert Value("30") == 30 by { TwoDigitsValue('3', '0'); assert "30" == ['3', '0']; }
  }

  lemma ToCronIsPrinted(s: SimpleSchedule)
    requires IsTime(s.time)
    ensures ToCron(s) == JoinWith(Printed(s), ' ')
  {
    hide JoinWith, Decimal, DaysField, SplitOn, Value;
    TextsOfTime(s.time);
    var m, h := Decimal(MinuteOf(s.time)), Decimal(HourOf(s.time));
    JoinFive(m, h, "*", "*", "*");
    JoinFive(m, h, "*", "*", "1-5");
    JoinFive(m, h, "*", "*", DaysField(s.days));
    JoinFive("0", "*", "*", "*", "*");
    JoinFive("*/" + Decimal(s.every), "*", "*", "*", "*");
    JoinSix("*/" + Decimal(s.every), "*", "*", "*", "*", "*");
    PrintedTails(m + " " + h, DaysField(s.days), "*/" + Decimal(s.every));
    assert forall a, b, c :: [m, h] + [a, b, c] == [m, h, a, b, c];
  }

  lemma PrintedTails(hm: string, days: string, every: string)
    ensures hm + " " + "*" + " " + "*" + " " + "*" == hm + " * * *"
    ensures hm + " " + "*" + " " + "*" + " " + "1-5" == hm + " * * 1-5"
    ensures hm + " " + "*" + " " + "*" + " " + days == hm + " * * " + days
    ensures "0" + " " + "*" + " " + "*" + " " + "*" + " " + "*" == "0 * * * *"
    ensures every + " " + "*" + " " + "*" + " " + "*" + " " + "*" == every + " * * * *"
    ensures every + " " + "*" + " " + "*" + " " + "*" + " " + "*" + " " + "*" == every + " * * * * *"
  {
  }

  // ---------------------------------------------------------------- days

  lemma DayTextIs(d: int)
    ensures IsDay(DayText(d)) <==> 0 <= d <= 6
    ensures 0 <= d ==> IsDigits(DayText(d)) && Value(DayText(d)) == d
    ensures Lacks(DayText(d), ',') && IsField(DayText(d)) && DayText(d) != "*" && DayText(d) != "1-5"
  {
    if d >= 0 {
      DecimalShort(d);
      DigitsAreFields(d);
      assert "1-5"[1] == '-' && "*"[0] !in DIGITS;
    } else {
      DecimalShort(-d);
      DigitsAreFields(-d);
      assert DayText(d)[0] == '-' && "1-5"[0] != '-';
    }
  }

  lemma {:induction false} JoinedIsField(parts: seq<string>)
    requires parts != [] && forall i :: 0 <= i < |parts| ==> IsField(parts[i])
    ensures IsField(JoinWith(parts, ','))
  {
    if |parts| > 1 { JoinedIsField(parts[1..]); }
  }

  lemma SortedNone(days: seq<int>)
    ensures SortedDays(days) == [] <==> days == []
  {
    if days != [] { assert days[0] in SortedDays(days); }
  }

  /** Joined day texts split back, and each says whether its day is a weekday. */
  lemma DayTextsRead(sorted: seq<int>)
    requires sorted != []
    ensures var field := JoinWith(DayTexts(sorted), ',');
            SplitOn(field, ',') == DayTexts(sorted) && IsField(field) && field != "*" && field != "1-5"
    ensures forall i :: 0 <= i < |sorted| ==> (IsDay(DayTexts(sorted)[i]) <==> 0 <= sorted[i] <= 6)
    ensures forall i :: 0 <= i < |sorted| && 0 <= sorted[i] ==> IsDigits(DayTexts(sorted)[i]) && Value(DayTexts(sorted)[i]) == sorted[i]
  {
    hide IsDay, IsField, Lacks, Value, IsDigits, SplitOn, JoinWith;
    var texts := DayTexts(sorted);
    forall i | 0 <= i < |texts|
      ensures Lacks(texts[i], ',') && IsField(texts[i]) && (IsDay(texts[i]) <==> 0 <= sorted[i] <= 6) && texts[i] != "*" && texts[i] != "1-5"
      ensures 0 <= sorted[i] ==> IsDigits(texts[i]) && Value(texts[i]) == sorted[i]
    {
      DayTextIs(sorted[i]);
    }
    JoinedIsField(texts);
    SplitJoined(texts, ',');
    StarsAreSingle();
    var star, weekdays := ["*"], ["1-5"];
    assert star[0] == "*" && weekdays[0] == "1-5" && texts[0] != "*" && texts[0] != "1-5";
  }

  lemma StarsAreSingle()
    ensures SplitOn("*", ',') == ["*"] && SplitOn("1-5", ',') == ["1-5"]
  {
    SinglePart("*");
    SinglePart("1-5");
  }

  /** The printed days are a day list exactly when all are weekdays 0 to 6, and then read back sorted and deduplicated. */
  lemma DaysFieldReads(days: seq<int>)
    ensures IsField(DaysField(days)) && DaysField(days) != "*" && DaysField(days) != "1-5"
    ensures IsDayList(DaysField(days)) <==> forall d :: d in days ==> 0 <= d <= 6
    ensures IsDayList(DaysField(days)) ==> DaysOf(DaysField(days)) == if days == [] then [1] else SortedDays(days)
  {
    hide IsDay, IsField, Lacks, Value, IsDigits, SplitOn, JoinWith, DayTexts, SortedDays;
    SortedNone(days);
    if days == [] {
      DayTextsRead([1]);
      OneDay();
      assert forall d :: d in days ==> 0 <= d <= 6;
    } else {
      var sorted := SortedDays(days);
      DayTextsRead(sorted);
      assert (forall d :: d in days ==> 0 <= d <= 6) <==> (forall i :: 0 <= i < |sorted| ==> 0 <= sorted[i] <= 6) by { SortedWithin(days, sorted); }
    }
  }

  lemma SortedWithin(days: seq<int>, sorted: seq<int>)
    requires forall d :: d in sorted <==> d in days
    ensures (forall d :: d in days ==> 0 <= d <= 6) <==> forall i :: 0 <= i < |sorted| ==> 0 <= sorted[i] <= 6
  {
    if d :| d in days && !(0 <= d <= 6) {
      assert d in sorted;
      var i :| 0 <= i < |sorted| && sorted[i] == d;
      assert !(0 <= sorted[i] <= 6);
    } else {
      forall i | 0 <= i < |sorted| ensures 0 <= sorted[i] <= 6 { assert sorted[i] in sorted; }
    }
  }

  lemma OneDay()
    ensures JoinWith(DayTexts([1]), ',') == "1"
  {
    DecimalStep(1);
    assert DayTexts([1])[0] == "1";
  }

  lemma SinglePart(s: string)
    requires Lacks(s, ',')
    ensures SplitOn(s, ',') == [s]
  {
    SplitPlain(s, "", ',');
    assert s + "" == s;
  }

  // ---------------------------------------------------------------- both ways

  lemma PrintedAreFields(s: SimpleSchedule)
    requires IsTime(s.time)
    ensures Printed(s) != [] && forall i :: 0 <= i < |Printed(s)| ==> IsField(Printed(s)[i])
  {
    hide Decimal, DaysField, HourOf, MinuteOf, IsField, IsDigits, Lacks;
    DigitsAreFields(MinuteOf(s.time));
    DigitsAreFields(HourOf(s.time));
    EveryIsField(s.every);
    DaysFieldReads(s.days);
    ConstantFields();
  }

  lemma ConstantFields()
    ensures IsField("*") && IsField("1-5") && IsField("0")
  {
  }

  lemma EveryIsField(n: nat)
    ensures IsField("*/" + Decimal(n))
  {
    hide Decimal;
    DigitsAreFields(n);
  }

  lemma EveryReads(n: nat)
    ensures var f := "*/" + Decimal(n); IsEvery(f) && f[2..] == Decimal(n) && Value(f[2..]) == n && !OneOrTwoDigits(f) && f != "0"
  {
    DigitsAreFields(n);
    var f := "*/" + Decimal(n);
    assert f[..2] == "*/" && f[2..] == Decimal(n) && f[0] == '*';
  }

  lemma ClockFieldReads(n: nat)
    ensures OneOrTwoDigits(Decimal(n)) <==> n < 100
    ensures !IsEvery(Decimal(n))
  {
    DecimalShort(n);
    DigitsAreFields(n);
    if |Decimal(n)| > 2 { assert Decimal(n)[..2][0] == Decimal(n)[0]; }
  }

  /** Reading the printed fields gives the form back, or nothing exactly when the form is not recognised. */
  lemma PrintedParses(s: SimpleSchedule)
    requires IsTime(s.time)
    ensures ParseFields(Printed(s)) == if Recognised(s) then Some(Canonical(s)) else None
  {
    hide Decimal, DaysField, HourOf, MinuteOf, IsDayList, IsEvery, OneOrTwoDigits, Value, Pad;
    var m, h := MinuteOf(s.time), HourOf(s.time);
    var f := Printed(s);
    match s.frequency
    case Interval =>
      EveryReads(s.every);
      assert f[1..] == if s.unit.Seconds? then ["*", "*", "*", "*", "*"] else ["*", "*", "*", "*"];
    case Hourly =>
      StarIsNoNumber();
    case _ =>
      ClockFieldReads(m);
      ClockFieldReads(h);
      DaysFieldReads(s.days);
      StarIsNoNumber();
      assert f[0] == Decimal(m) && f[1] == Decimal(h) && |f| == 5;
      NotHourly(Decimal(h));
  }

  lemma StarIsNoNumber()
    ensures !OneOrTwoDigits("*") && !IsEvery("0") && !IsDayList("*") && !IsDayList("1-5")
  {
    assert "*"[0] !in DIGITS;
    SinglePart("*");
    SinglePart("1-5");
    assert !IsDay("*") && !IsDay("1-5");
    assert SplitOn("*", ',')[0] == "*" && SplitOn("1-5", ',')[0] == "1-5";
  }

  lemma NotHourly(h: string)
    ensures IsDigits(h) && h != "" ==> h != "*"
  {
    assert "*"[0] !in DIGITS;
  }

  /**
   * Printing a form and parsing the expression gives back the frequency and what that
   * frequency uses: the time, the days sorted and without repetition (none means
   * Monday), the interval. It fails exactly when the clock has a part above 99 or a day
   * is not 0 to 6.
   */
  lemma ParseUndoesToCron(s: SimpleSchedule)
    requires IsTime(s.time)
    ensures Parse(ToCron(s)) == if Recognised(s) then Some(Canonical(s)) else None
  {
    hide ToCron, Printed, Recognised, Canonical, ParseFields, Fields, JoinWith;
    ToCronIsPrinted(s);
    PrintedAreFields(s);
    FieldsJoined(Printed(s));
    PrintedParses(s);
  }

  lemma ClockTextReads(hour: nat, minute: nat)
    ensures var time := ClockText(hour, minute); IsTime(time) && HourOf(time) == hour && MinuteOf(time) == minute
  {
    PadKeeps(hour);
    PadKeeps(minute);
    var parts := [Pad(Decimal(hour)), Pad(Decimal(minute))];
    SplitJoined(parts, ':');
    assert parts[1..] == [Pad(Decimal(minute))];
    assert JoinWith(parts, ':') == ClockText(hour, minute);
  }

  lemma {:induction false} SortedAgain(days: seq<int>)
    requires Ascending(days)
    ensures SortedDays(days) == days
  {
    if days != [] {
      var front, last := days[..|days| - 1], days[|days| - 1];
      assert days == front + [last];
      SortedAgain(front);
      if front != [] { assert front[|front| - 1] == days[|front| - 1]; }
    }
  }

  /** Every printed expression the picker recognises prints again as it was. */
  lemma ToCronUndoesParse(s: SimpleSchedule)
    requires IsTime(s.time) && Recognised(s)
    ensures Parse(ToCron(s)).Some? && ToCron(Parse(ToCron(s)).value) == ToCron(s)
  {
    hide Parse, ToCron, JoinWith, Printed, Canonical, Recognised;
    ParseUndoesToCron(s);
    CanonicalPrints(s);
    ToCronIsPrinted(s);
    ToCronIsPrinted(Canonical(s));
  }

  lemma CanonicalPrints(s: SimpleSchedule)
    requires IsTime(s.time)
    ensures IsTime(Canonical(s).time) && Printed(Canonical(s)) == Printed(s)
  {
    hide Decimal, SplitOn, ClockText, DaysField, HourOf, MinuteOf, IsTime, SortedDays;
    ClockTextReads(HourOf(s.time), MinuteOf(s.time));
    DefaultIsTime();
    DaysPrintAgain(s.days);
  }

  lemma DefaultIsTime()
    ensures IsTime(DEFAULT.time)
  {
    var parts := ["07", "30"];
    assert Lacks(parts[0], ':') && Lacks(parts[1], ':');
    SplitJoined(parts, ':');
    assert parts[1..] == ["30"];
    assert JoinWith(parts, ':') == "07" + ":" + "30" == "07:30";
  }

  lemma DaysPrintAgain(days: seq<int>)
    ensures DaysField(if days == [] then [1] else SortedDays(days)) == DaysField(days)
  {
    SortedNone(days);
    if days == [] {
      SortedAgain([1]);
      DecimalShort(1);
      assert DayTexts([1]) == ["1"];
    } else {
      SortedAgain(SortedDays(days));
    }
  }

  /** A time of two digits each comes back as it was typed. */
  lemma TypedTimeIsKept(hour: string, minute: string)
    requires |hour| == 2 && IsDigits(hour) && |minute| == 2 && IsDigits(minute)
    ensures var time := hour + ":" + minute; IsTime(time) && ClockText(HourOf(time), MinuteOf(time)) == time
  {
    PadRestores(hour);
    PadRestores(minute);
    assert Lacks(hour, ':') && Lacks(minute, ':') by { assert forall c :: c in DIGITS ==> c != ':'; }
    var parts := [hour, minute];
    SplitJoined(parts, ':');
    assert parts[1..] == [minute];
    assert JoinWith(parts, ':') == hour + ":" + minute;
  }

  /** Switching between clock frequencies keeps the clock time. */
  lemma SwitchingKeepsTime(s: SimpleSchedule, frequency: Frequency)
    requires IsTime(s.time) && Recognised(s) && OnClock(s.frequency) && OnClock(frequency)
    ensures var switched := Parse(WithFrequency(ToCron(s), frequency));
            switched.Some? && switched.value.frequency == frequency && switched.value.time == Canonical(s).time
  {
    hide Parse, ToCron, ClockText, SplitOn, HourOf, MinuteOf, SortedDays;
    ParseUndoesToCron(s);
    var t := Canonical(s).(frequency := frequency);
    ClockTextReads(HourOf(s.time), MinuteOf(s.time));
    assert t.time == ClockText(HourOf(s.time), MinuteOf(s.time));
    assert forall d :: d in t.days ==> 0 <= d <= 6;
    ParseUndoesToCron(t);
  }

  // ---------------------------------------------------------------- when an expression fires

  /** One element of a cron field: any value, every n-th value, one value, or a range of values. */
  predicate AdmitsPart(part: string, value: nat) {
    if part == "*" then true
    else if IsEvery(part) then Value(part[2..]) > 0 && value % Value(part[2..]) == 0
    else if part != "" && IsDigits(part) then Value(part) == value
    else
      var ends := SplitOn(part, '-');
      |ends| == 2 && IsDigits(ends[0]) && IsDigits(ends[1]) && Value(ends[0]) <= value <= Value(ends[1])
  }

  /** A cron field admits what one of its elements admits. */
  predicate Admits(field: string, value: nat) { exists i :: 0 <= i < |SplitOn(field, ',')| && AdmitsPart(SplitOn(field, ',')[i], value) }

  /** Whether an expression fires at a time on a day of the week (Sunday is 0), any day of the month and any month. */
  predicate Fires(cron: string, second: nat, minute: nat, hour: nat, weekday: nat) {
    var f := Fields(cron);
    if |f| == 5 then second == 0 && Admits(f[0], minute) && Admits(f[1], hour) && f[2] == "*" && f[3] == "*" && Admits(f[4], weekday)
    else |f| == 6 && Admits(f[0], second) && Admits(f[1], minute) && Admits(f[2], hour) && f[3] == "*" && f[4] == "*" && Admits(f[5], weekday)
  }

  /** What the form says. */
  predicate Said(s: SimpleSchedule, second: nat, minute: nat, hour: nat, weekday: nat)
    requires IsTime(s.time) && s.every > 0
  {
    match s.frequency
    case Daily => second == 0 && minute == MinuteOf(s.time) && hour == HourOf(s.time)
    case Weekdays => second == 0 && minute == MinuteOf(s.time) && hour == HourOf(s.time) && 1 <= weekday <= 5
    case Weekly => second == 0 && minute == MinuteOf(s.time) && hour == HourOf(s.time) && if s.days == [] then weekday == 1 else weekday in s.days
    case Hourly => second == 0 && minute == 0
    case Interval => if s.unit.Seconds? then second % s.every == 0 else second == 0 && minute % s.every == 0
  }

  lemma SingleAdmits(field: string, value: nat)
    requires Lacks(field, ',')
    ensures Admits(field, value) <==> AdmitsPart(field, value)
  {
    hide AdmitsPart;
    SinglePart(field);
    assert SplitOn(field, ',')[0] == field;
  }

  lemma StarAdmits(value: nat)
    ensures Admits("*", value)
  {
    SingleAdmits("*", value);
  }

  lemma NumberAdmits(n: nat, value: nat)
    ensures Admits(Decimal(n), value) <==> value == n
  {
    hide Decimal;
    DigitsAreFields(n);
    ClockFieldReads(n);
    assert "*"[0] !in DIGITS;
    SingleAdmits(Decimal(n), value);
  }

  lemma EveryAdmits(n: nat, value: nat)
    requires n > 0
    ensures Admits("*/" + Decimal(n), value) <==> value % n == 0
  {
    hide Decimal;
    EveryReads(n);
    DigitsAreFields(n);
    var f := "*/" + Decimal(n);
    assert Lacks(f, ',');
    assert |f| > 2;
    SingleAdmits(f, value);
  }

  lemma WorkdaysAdmit(value: nat)
    ensures Admits("1-5", value) <==> 1 <= value <= 5
  {
    SingleAdmits("1-5", value);
    var ends := ["1", "5"];
    assert Lacks("1", '-') && Lacks("5", '-');
    SplitJoined(ends, '-');
    assert ends[1..] == ["5"];
    assert JoinWith(ends, '-') == "1" + "-" + "5" == "1-5";
    TwoDigitsValue('1', '5');
    TwoDigitsValue('5', '5');
    assert "1" == ['1'] && "5" == ['5'];
    assert "1-5"[1] == '-' && '-' !in DIGITS;
    assert "1-5"[0] != '*';
  }

  lemma DayTextAdmits(d: int, value: nat)
    requires 0 <= d
    ensures AdmitsPart(DayText(d), value) <==> value == d
  {
    hide Decimal;
    NumberAdmits(d, value);
    DigitsAreFields(d);
    SingleAdmits(Decimal(d), value);
  }

  lemma DaysAdmit(days: seq<int>, value: nat)
    requires forall d :: d in days ==> 0 <= d <= 6
    ensures Admits(DaysField(days), value) <==> if days == [] then value == 1 else value in days
  {
    hide AdmitsPart, SplitOn, JoinWith, DayTexts, SortedDays, DayText, IsField, Lacks, IsDay;
    SortedNone(days);
    if days == [] {
      OneDay();
      DecimalStep(1);
      assert "1" == Decimal(1);
      NumberAdmits(1, value);
    } else {
      var sorted := SortedDays(days);
      DayTextsRead(sorted);
      forall i | 0 <= i < |sorted| ensures AdmitsPart(DayTexts(sorted)[i], value) <==> value == sorted[i] {
        assert sorted[i] in days;
        DayTextAdmits(sorted[i], value);
      }
      if value in days {
        assert value in sorted;
        var i :| 0 <= i < |sorted| && sorted[i] == value;
        assert AdmitsPart(SplitOn(DaysField(days), ',')[i], value);
      }
    }
  }

  lemma PrintedFires(s: SimpleSchedule, second: nat, minute: nat, hour: nat, weekday: nat)
    requires IsTime(s.time) && s.every > 0 && forall d :: d in s.days ==> 0 <= d <= 6
    ensures var f := Printed(s);
            Said(s, second, minute, hour, weekday) <==>
            if |f| == 5 then second == 0 && Admits(f[0], minute) && Admits(f[1], hour) && f[2] == "*" && f[3] == "*" && Admits(f[4], weekday)
            else |f| == 6 && Admits(f[0], second) && Admits(f[1], minute) && Admits(f[2], hour) && f[3] == "*" && f[4] == "*" && Admits(f[5], weekday)
  {
    hide Admits, Decimal, DaysField, HourOf, MinuteOf;
    StarAdmits(minute);
    StarAdmits(hour);
    StarAdmits(weekday);
    NumberAdmits(MinuteOf(s.time), minute);
    NumberAdmits(HourOf(s.time), hour);
    WorkdaysAdmit(weekday);
    DaysAdmit(s.days, weekday);
    DecimalStep(0);
    assert "0" == Decimal(0);
    NumberAdmits(0, minute);
    EveryAdmits(s.every, second);
    EveryAdmits(s.every, minute);
  }

  /** The printed expression fires exactly when the form says. */
  lemma FiresWhenSaid(s: SimpleSchedule, second: nat, minute: nat, hour: nat, weekday: nat)
    requires IsTime(s.time) && s.every > 0 && forall d :: d in s.days ==> 0 <= d <= 6
    ensures Fires(ToCron(s), second, minute, hour, weekday) <==> Said(s, second, minute, hour, weekday)
  {
    hide ToCron, Printed, Fields, JoinWith, Admits, Said;
    ToCronIsPrinted(s);
    PrintedAreFields(s);
    FieldsJoined(Printed(s));
    PrintedFires(s, second, minute, hour, weekday);
  }
}
