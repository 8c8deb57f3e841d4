/** The org-mode date codec: `YYYY-MM-DD Ddd[ HH:MM]` tokens to and from calendar dates. */
module OrgDate {
  import opened Wrappers
  import opened Text

  /** The local calendar fields of a JavaScript `Date`. */
  datatype DateTime = DateTime(year: int, month0: int, day: int, hour: int, minute: int)

  /** `new Date(year, month0, day, hour, minute)`: a two-digit year means 1900 + year. */
  function NewDate(year: int, month0: int, day: int, hour: int, minute: int): DateTime {
    DateTime(if 0 <= year <= 99 then 1900 + year else year, month0, day, hour, minute)
  }

  predicate IsLeap(y: int) {
    y % 4 == 0 && (y % 100 != 0 || y % 400 == 0)
  }

  function DaysInMonth(y: int, month0: int): (n: int)
    requires 0 <= month0 < 12
    ensures 28 <= n <= 31
  {
    if month0 == 1 then (if IsLeap(y) then 29 else 28)
    else if month0 == 3 || month0 == 5 || month0 == 8 || month0 == 10 then 30
    else 31
  }

  /** The fields of a date as its getters report them: in range, whole minutes. */
  predicate Valid(d: DateTime) {
    && 0 <= d.month0 < 12
    && 1 <= d.day <= DaysInMonth(d.year, d.month0)
    && 0 <= d.hour < 24
    && 0 <= d.minute < 60
  }

  /** `getDay()`: 0 for Sunday to 6 for Saturday, in the proleptic Gregorian calendar. */
  function DayOfWeek(d: DateTime): (w: nat)
    requires 0 <= d.month0 < 12
    ensures w < 7
  {
    (DaySum(d) % 7) as nat
  }

  const MonthOffsets: seq<int> := [0, 3, 2, 5, 0, 3, 5, 1, 4, 6, 2, 4]

  function DaySum(d: DateTime): int
    requires 0 <= d.month0 < 12
  {
    var y := if d.month0 < 2 then d.year - 1 else d.year;
    y + y / 4 - y / 100 + y / 400 + MonthOffsets[d.month0] + d.day
  }

  /** The calendar day after `d`, at the same time of day. */
  function NextDay(d: DateTime): (n: DateTime)
    requires Valid(d)
    ensures Valid(n)
  {
    if d.day < DaysInMonth(d.year, d.month0) then d.(day := d.day + 1)
    else if d.month0 < 11 then d.(month0 := d.month0 + 1, day := 1)
    else d.(year := d.year + 1, month0 := 0, day := 1)
  }

  lemma {:induction false} MulZero(k: int, t: int)
    requires k > 0 && -k < k * t < k
    ensures t == 0
  {
  }

  lemma {:induction false} DivUnique(y: int, k: int, q: int, r: int)
    requires k > 0 && 0 <= r < k && y == k * q + r
    ensures y / k == q && y % k == r
  {
    var q', r' := y / k, y % k;
    assert k * (q - q') == r' - r;
    MulZero(k, q - q');
  }

  lemma {:induction false} DivStep(y: int, k: int)
    requires k > 0
    ensures y / k - (y - 1) / k == (if y % k == 0 then 1 else 0)
  {
    var q, r := (y - 1) / k, (y - 1) % k;
    if r + 1 == k {
      DivUnique(y, k, q + 1, 0);
    } else {
      DivUnique(y, k, q, r + 1);
    }
  }

  /** Crossing into a new Sakamoto year (March) adds one day, or two in a leap year. */
  lemma {:induction false} YearStep(y: int)
    ensures (y + y / 4 - y / 100 + y / 400) - ((y - 1) + (y - 1) / 4 - (y - 1) / 100 + (y - 1) / 400)
         == (if IsLeap(y) then 2 else 1)
  {
    DivStep(y, 4);
    DivStep(y, 100);
    DivStep(y, 400);
    if y % 400 == 0 {
      Mod400(y);
      Mod100(y);
    } else if y % 100 == 0 {
      Mod100(y);
    }
  }

  lemma {:induction false} Mod400(y: int)
    requires y % 400 == 0
    ensures y % 100 == 0
  {
    var q := y / 400;
    DivUnique(y, 100, 4 * q, 0);
  }

  lemma {:induction false} Mod100(y: int)
    requires y % 100 == 0
    ensures y % 4 == 0
  {
    var q := y / 100;
    DivUnique(y, 4, 25 * q, 0);
  }

  lemma {:induction false} ModShift(a: int, k: int)
    ensures (a + 1 - 7 * k) % 7 == (a % 7 + 1) % 7
  {
    var q, r := a / 7, a % 7;
    assert a + 1 - 7 * k == 7 * (q - k) + (r + 1);
    if r + 1 == 7 {
      assert a + 1 - 7 * k == 7 * (q - k + 1);
    }
  }

  /** The day of the week advances by one from each calendar day to the next. */
  lemma {:induction false} DayOfWeekAdvances(d: DateTime)
    requires Valid(d)
    ensures DayOfWeek(NextDay(d)) == (DayOfWeek(d) + 1) % 7
  {
    var n := NextDay(d);
    if d.day < DaysInMonth(d.year, d.month0) {
      assert DaySum(n) == DaySum(d) + 1;
      ModShift(DaySum(d), 0);
    } else if d.month0 == 1 {
      YearStep(d.year);
      assert DaySum(n) == DaySum(d) + 1 - 7 * 4;
      ModShift(DaySum(d), 4);
    } else if d.month0 == 3 || d.month0 == 6 || d.month0 == 9 || d.month0 == 11 {
      assert DaySum(n) == DaySum(d) + 1 - 7 * 5;
      ModShift(DaySum(d), 5);
    } else {
      assert DaySum(n) == DaySum(d) + 1 - 7 * 4;
      ModShift(DaySum(d), 4);
    }
  }

  const DayNames: seq<string> := ["Sun", "Mon", "Tue", "Wed", "Thu", "Fri", "Sat"]

  /** `(\d{4})-(\d{2})-(\d{2}) (Mon|Tue|Wed|Thu|Fri|Sat|Sun)` matches at `i`. */
  predicate DateCoreAt(s: string, i: nat) {
    && i + 14 <= |s|
    && AllDigits(s[i..i + 4]) && s[i + 4] == '-'
    && AllDigits(s[i + 5..i + 7]) && s[i + 7] == '-'
    && AllDigits(s[i + 8..i + 10]) && s[i + 10] == ' '
    && s[i + 11..i + 14] in DayNames
  }

  /** The optional ` ((\d{2}):(\d{2}))` group matches at `j`. */
  predicate TimeAt(s: string, j: nat) {
    && j + 6 <= |s|
    && s[j] == ' ' && AllDigits(s[j + 1..j + 3]) && s[j + 3] == ':' && AllDigits(s[j + 4..j + 6])
  }

  /** The length of the DATETIME_PATTERN match at `i`: the optional time is taken when present. */
  function DatetimeLength(s: string, i: nat): (n: nat)
    requires DateCoreAt(s, i)
    ensures i + n <= |s| && (n == 14 || n == 20)
  {
    if TimeAt(s, i + 14) then 20 else 14
  }

  /** The leftmost position at or after `from` where DATETIME_PATTERN matches. */
  function FindDatetime(s: string, from: nat): (r: Option<nat>)
    requires from <= |s|
    ensures r.Some? ==> from <= r.value && DateCoreAt(s, r.value)
    ensures r.Some? ==> forall k :: from <= k < r.value ==> !DateCoreAt(s, k)
    ensures r.None? ==> forall k :: from <= k <= |s| ==> !DateCoreAt(s, k)
    decreases |s| - from
  {
    if DateCoreAt(s, from) then Some(from)
    else if from == |s| then None
    else FindDatetime(s, from + 1)
  }

  /** The date `new Date(year, month - 1, day, hour, minute)` built from the groups of the match at `i`. */
  function MatchedDate(s: string, i: nat): DateTime
    requires DateCoreAt(s, i)
  {
    var timed := TimeAt(s, i + 14);
    NewDate(DigitsValue(s[i..i + 4]), DigitsValue(s[i + 5..i + 7]) - 1, DigitsValue(s[i + 8..i + 10]),
            if timed then DigitsValue(s[i + 15..i + 17]) else 0,
            if timed then DigitsValue(s[i + 18..i + 20]) else 0)
  }

  /** `(\d+)-(\d+)-(\d+)` matches at `i`. Digit runs are maximal, so the match is unique. */
  predicate DateOnlyAt(s: string, i: nat) {
    && i <= |s|
    && var j1 := RunEnd(s, i, IsDigit);
    && i < j1 < |s| && s[j1] == '-'
    && var j2 := RunEnd(s, j1 + 1, IsDigit);
    && j1 + 1 < j2 < |s| && s[j2] == '-'
    && j2 + 1 < RunEnd(s, j2 + 1, IsDigit)
  }

  /** DATE_ONLY_PATTERN occurs somewhere in `s`. */
  predicate DateOnlyOccurs(s: string) {
    exists i :: 0 <= i < |s| && DateOnlyAt(s, i)
  }

  /** Wherever the full pattern matches, the loose one matches too. */
  lemma {:induction false} DateCoreIsDateOnly(s: string, i: nat)
    requires DateCoreAt(s, i)
    ensures DateOnlyAt(s, i)
  {
    RunEndAt(s, i, i + 4, IsDigit);
    RunEndAt(s, i + 5, i + 7, IsDigit);
    RunEndAt(s, i + 8, i + 10, IsDigit);
  }

  /** `isValidDate`: one of the two patterns occurs; as every full match is also a loose
      match, this is exactly "the loose pattern occurs". */
  function IsValidDate(s: string): (r: bool)
    ensures r <==> DateOnlyOccurs(s)
  {
    var full := FindDatetime(s, 0);
    if full.Some? then
      DateCoreIsDateOnly(s, full.value);
      true
    else DateOnlyOccurs(s)
  }

  /** `Number(piece)` is read as a decimal for the first three `-`-separated pieces. */
  predicate LooseFieldsDecimal(s: string) {
    PiecesDecimal(Split(s, '-'))
  }

  predicate PiecesDecimal(p: seq<string>) {
    |p| >= 3 && AllDigits(p[0]) && AllDigits(p[1]) && AllDigits(p[2])
  }

  /** `ymdToJsDate`: the first three `-`-separated pieces of the whole string, at midnight. */
  function YmdToJsDate(s: string): (d: DateTime)
    requires LooseFieldsDecimal(s)
    ensures d.hour == 0 && d.minute == 0
  {
    DateOfPieces(Split(s, '-'))
  }

  /** The date spelled by the first three pieces, at midnight. */
  function DateOfPieces(p: seq<string>): DateTime
    requires PiecesDecimal(p)
  {
    NewDate(DigitsValue(p[0]), DigitsValue(p[1]) - 1, DigitsValue(p[2]), 0, 0)
  }

  /** The inputs for which `orgDatetimeToJs` reads the loose fields as decimals. */
  predicate ConvertibleDate(s: string) {
    FindDatetime(s, 0).None? && DateOnlyOccurs(s) ==> LooseFieldsDecimal(s)
  }

  /** `orgDatetimeToJs`: the leftmost full match if there is one, else the loose reading,
      else `undefined`. */
  function OrgDatetimeToJs(s: string): (r: Option<DateTime>)
    requires ConvertibleDate(s)
    ensures r.None? <==> !DateOnlyOccurs(s)
    ensures r.None? <==> !IsValidDate(s)
  {
    match FindDatetime(s, 0)
    case Some(i) =>
      DateCoreIsDateOnly(s, i);
      Some(MatchedDate(s, i))
    case None =>
      if !DateOnlyOccurs(s) then None else Some(YmdToJsDate(s))
  }

  /** The text of a datetime token, as org-mode writes it. */
  function Token(y: string, m: string, d: string, name: string, time: Option<(string, string)>): string {
    y + "-" + m + "-" + d + " " + name + (match time case None => "" case Some(hm) => " " + hm.0 + ":" + hm.1)
  }

  predicate TwoDigits(s: string) { |s| == 2 && AllDigits(s) }

  predicate TokenFields(y: string, m: string, d: string, name: string, time: Option<(string, string)>) {
    && |y| == 4 && AllDigits(y) && TwoDigits(m) && TwoDigits(d) && name in DayNames
    && (time.Some? ==> TwoDigits(time.value.0) && TwoDigits(time.value.1))
  }

  lemma {:induction false} TokenShape(y: string, m: string, d: string, name: string, time: Option<(string, string)>)
    requires TokenFields(y, m, d, name, time)
    ensures var s := Token(y, m, d, name, time);
      && DateCoreAt(s, 0)
      && s[0..4] == y && s[5..7] == m && s[8..10] == d && s[11..14] == name
      && (time.None? ==> |s| == 14)
      && (time.Some? ==> |s| == 20 && TimeAt(s, 14) && s[15..17] == time.value.0 && s[18..20] == time.value.1)
  {
    var s := Token(y, m, d, name, time);
    assert s[0..4] == y && s[5..7] == m && s[8..10] == d && s[11..14] == name;
    if time.Some? {
      assert s[15..17] == time.value.0 && s[18..20] == time.value.1;
      assert s[14..20] == " " + time.value.0 + ":" + time.value.1;
    }
  }

  /** A token converts to the date and time its fields spell, midnight when it has no time;
      the day name is matched but never checked against the date. */
  lemma {:induction false} OrgDatetimeToJsOfToken(y: string, m: string, d: string, name: string, time: Option<(string, string)>)
    requires TokenFields(y, m, d, name, time)
    ensures ConvertibleDate(Token(y, m, d, name, time))
    ensures OrgDatetimeToJs(Token(y, m, d, name, time))
         == Some(NewDate(DigitsValue(y), DigitsValue(m) - 1, DigitsValue(d),
                         if time.Some? then DigitsValue(time.value.0) else 0,
                         if time.Some? then DigitsValue(time.value.1) else 0))
  {
    var s := Token(y, m, d, name, time);
    TokenShape(y, m, d, name, time);
    MatchAtStart(s);
    assert TimeAt(s, 14) == time.Some?;
  }

  /** A text that opens with a full match converts by that match. */
  lemma {:induction false} MatchAtStart(s: string)
    requires DateCoreAt(s, 0)
    ensures ConvertibleDate(s) && OrgDatetimeToJs(s) == Some(MatchedDate(s, 0))
    ensures var timed := TimeAt(s, 14);
      MatchedDate(s, 0)
        == NewDate(DigitsValue(s[0..4]), DigitsValue(s[5..7]) - 1, DigitsValue(s[8..10]),
                   if timed then DigitsValue(s[15..17]) else 0, if timed then DigitsValue(s[18..20]) else 0)
  {
    assert FindDatetime(s, 0) == Some(0);
  }

  /** The day name of a token never affects the date it converts to. */
  lemma {:induction false} DayNameIgnored(y: string, m: string, d: string, name1: string, name2: string, time: Option<(string, string)>)
    requires TokenFields(y, m, d, name1, time) && TokenFields(y, m, d, name2, time)
    ensures ConvertibleDate(Token(y, m, d, name1, time)) && ConvertibleDate(Token(y, m, d, name2, time))
    ensures OrgDatetimeToJs(Token(y, m, d, name1, time)) == OrgDatetimeToJs(Token(y, m, d, name2, time))
  {
    OrgDatetimeToJsOfToken(y, m, d, name1, time);
    OrgDatetimeToJsOfToken(y, m, d, name2, time);
  }

  lemma {:induction false} TokenValues()
    ensures DigitsValue("2020") == 2020 && DigitsValue("12") == 12
    ensures DigitsValue("25") == 25 && DigitsValue("34") == 34
  {
    assert DigitsValue("2") == 2 && DigitsValue("20") == 20 && DigitsValue("202") == 202;
    assert "2020"[..3] == "202";
  }

  /** "2020-12-25 Wed 12:34" converts to 25 December 2020, 12:34, although that day was a Friday. */
  lemma {:induction false} WednesdayTokenGivesFriday()
    ensures ConvertibleDate(Token("2020", "12", "25", "Wed", Some(("12", "34"))))
    ensures OrgDatetimeToJs(Token("2020", "12", "25", "Wed", Some(("12", "34")))) == Some(DateTime(2020, 11, 25, 12, 34))
  {
    TokenValues();
    OrgDatetimeToJsOfToken("2020", "12", "25", "Wed", Some(("12", "34")));
  }

  /** 3 February 2021 was a Wednesday, 3 April 2023 a Monday and 25 December 2020 a Friday. */
  lemma {:induction false} KnownWeekdays()
    ensures DayNames[DayOfWeek(DateTime(2021, 1, 3, 0, 0))] == "Wed"
    ensures DayNames[DayOfWeek(DateTime(2023, 3, 3, 13, 5))] == "Mon"
    ensures DayNames[DayOfWeek(DateTime(2020, 11, 25, 12, 34))] == "Fri"
  {
    DivUnique(2020, 4, 505, 0);
    DivUnique(2020, 100, 20, 20);
    DivUnique(2020, 400, 5, 20);
    DivUnique(2516, 7, 359, 3);
    DivUnique(2539, 7, 362, 5);
    DivUnique(2023, 4, 505, 3);
    DivUnique(2023, 100, 20, 23);
    DivUnique(2023, 400, 5, 23);
    DivUnique(2521, 7, 360, 1);
  }

  /** Without a space the full pattern cannot match. */
  lemma {:induction false} NoDatetimeWithoutSpace(s: string, from: nat)
    requires from <= |s| && ' ' !in s
    ensures FindDatetime(s, from).None?
    decreases |s| - from
  {
    if from + 14 <= |s| {
      assert s[from + 10] in s;
    }
    if from < |s| {
      NoDatetimeWithoutSpace(s, from + 1);
    }
  }

  predicate DigitRun(s: string) { |s| > 0 && AllDigits(s) }

  lemma {:induction false} LooseNoFullMatch(a: string, b: string, c: string)
    requires DigitRun(a) && DigitRun(b) && DigitRun(c)
    ensures FindDatetime(a + "-" + b + "-" + c, 0).None?
  {
    assert ' ' !in a && ' ' !in b && ' ' !in c;
    NoDatetimeWithoutSpace(a + "-" + b + "-" + c, 0);
  }

  lemma {:induction false} LooseDateOnly(a: string, b: string, c: string)
    requires DigitRun(a) && DigitRun(b) && DigitRun(c)
    ensures DateOnlyAt(a + "-" + b + "-" + c, 0)
  {
    var s := a + "-" + b + "-" + c;
    assert s[..|a|] == a && s[|a| + 1..|a| + 1 + |b|] == b && s[|a| + |b| + 2..] == c;
    RunEndAt(s, 0, |a|, IsDigit);
    RunEndAt(s, |a| + 1, |a| + 1 + |b|, IsDigit);
    RunEndAt(s, |a| + |b| + 2, |s|, IsDigit);
  }

  lemma {:induction false} LooseSplit(a: string, b: string, c: string)
    requires DigitRun(a) && DigitRun(b) && DigitRun(c)
    ensures Split(a + "-" + b + "-" + c, '-') == [a, b, c]
  {
    assert '-' !in a && '-' !in b && '-' !in c;
    assert [a, b, c][1..] == [b, c] && [b, c][1..] == [c];
    assert Join([c], "-") == c;
    assert Join([b, c], "-") == b + "-" + c;
    assert Join([a, b, c], "-") == a + "-" + (b + "-" + c);
    assert a + "-" + (b + "-" + c) == a + "-" + b + "-" + c;
    SplitJoin([a, b, c], '-');
  }

  /** The loose path, for any string on which the full pattern fails and the loose one matches. */
  lemma {:induction false} OrgDatetimeToJsLoosePath(s: string)
    requires FindDatetime(s, 0).None? && DateOnlyOccurs(s) && LooseFieldsDecimal(s)
    ensures ConvertibleDate(s) && OrgDatetimeToJs(s) == Some(YmdToJsDate(s))
  {
  }

  lemma {:induction false} YmdOfPieces(s: string, a: string, b: string, c: string)
    requires AllDigits(a) && AllDigits(b) && AllDigits(c) && Split(s, '-') == [a, b, c]
    ensures LooseFieldsDecimal(s)
    ensures YmdToJsDate(s) == NewDate(DigitsValue(a), DigitsValue(b) - 1, DigitsValue(c), 0, 0)
  {
    PiecesOf(a, b, c);
  }

  lemma {:induction false} PiecesOf(a: string, b: string, c: string)
    requires AllDigits(a) && AllDigits(b) && AllDigits(c)
    ensures PiecesDecimal([a, b, c])
    ensures DateOfPieces([a, b, c]) == NewDate(DigitsValue(a), DigitsValue(b) - 1, DigitsValue(c), 0, 0)
  {
  }

  /** A string of three digit runs joined by `-` and nothing else takes the loose path. */
  lemma {:induction false} OrgDatetimeToJsLoose(a: string, b: string, c: string)
    requires DigitRun(a) && DigitRun(b) && DigitRun(c)
    ensures ConvertibleDate(a + "-" + b + "-" + c)
    ensures OrgDatetimeToJs(a + "-" + b + "-" + c)
         == Some(NewDate(DigitsValue(a), DigitsValue(b) - 1, DigitsValue(c), 0, 0))
  {
    var s := a + "-" + b + "-" + c;
    LooseNoFullMatch(a, b, c);
    LooseDateOnly(a, b, c);
    LooseSplit(a, b, c);
    YmdOfPieces(s, a, b, c);
    OrgDatetimeToJsLoosePath(s);
  }

  /** `jsDatetimeToOrg`: `YYYY-MM-DD Ddd`, then ` HH:MM` unless the time is midnight. */
  function JsDatetimeToOrg(d: DateTime): (r: string)
    requires Valid(d)
    ensures 1000 <= d.year <= 9999 ==> |r| == if d.hour == 0 && d.minute == 0 then 14 else 20
  {
    YearLength(d.year);
    Token(IntToString(d.year), Pad2(d.month0 + 1), Pad2(d.day), DayNames[DayOfWeek(d)],
          if d.hour == 0 && d.minute == 0 then None else Some((Pad2(d.hour), Pad2(d.minute))))
  }

  /** For a four-digit year the text is a token whose fields are the zero-padded date, the
      weekday's name and, exactly when the time is not midnight, the zero-padded time. */
  lemma {:induction false} JsDatetimeToOrgFormat(d: DateTime)
    requires Valid(d) && 1000 <= d.year <= 9999
    ensures var r := JsDatetimeToOrg(d);
      && DateCoreAt(r, 0)
      && DigitsValue(r[0..4]) == d.year && DigitsValue(r[5..7]) == d.month0 + 1 && DigitsValue(r[8..10]) == d.day
      && r[11..14] == DayNames[DayOfWeek(d)]
      && (|r| == 14 <==> d.hour == 0 && d.minute == 0)
      && (|r| != 14 ==> |r| == 20 && TimeAt(r, 14)
                        && DigitsValue(r[15..17]) == d.hour && DigitsValue(r[18..20]) == d.minute)
  {
    var y := IntToString(d.year);
    YearText(d.year);
    var m, dd, name := Pad2(d.month0 + 1), Pad2(d.day), DayNames[DayOfWeek(d)];
    var time := if d.hour == 0 && d.minute == 0 then None else Some((Pad2(d.hour), Pad2(d.minute)));
    assert JsDatetimeToOrg(d) == Token(y, m, dd, name, time);
    assert TokenFields(y, m, dd, name, time);
    TokenShape(y, m, dd, name, time);
  }

  /** A four-digit year is written as four digits spelling it. */
  lemma {:induction false} YearLength(year: int)
    ensures 1000 <= year <= 9999 ==> |IntToString(year)| == 4
  {
    if 1000 <= year <= 9999 {
      YearText(year);
    }
  }

  lemma {:induction false} YearText(year: int)
    requires 1000 <= year <= 9999
    ensures var y := IntToString(year);
      |y| == 4 && AllDigits(y) && DigitsValue(y) == year
  {
    assert Pow10(3) == 1000 && Pow10(4) == 10000;
    NatToStringLength(year, 3);
  }

  /** Formatting then parsing gives back the date, for four-digit years. */
  lemma {:induction false} DateRoundTrip(d: DateTime)
    requires Valid(d) && 1000 <= d.year <= 9999
    ensures ConvertibleDate(JsDatetimeToOrg(d))
    ensures OrgDatetimeToJs(JsDatetimeToOrg(d)) == Some(d)
  {
    JsDatetimeToOrgFormat(d);
  }
}
