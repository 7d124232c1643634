/** Record timestamps: parsing as sections 5.6 and 5.7 of RFC 3339 write them, and the day arithmetic behind it. */
module Calendar {
  import opened Prelude
  import opened Text
  import opened DataUri

  const I64_MAX: int := 0x7FFF_FFFF_FFFF_FFFF

  /** Signed integer parsing: an optional sign, then at least one digit, within 64 bits. */
  function ParseI64(s: string): Option<int> {
    var negative := s != "" && s[0] == '-';
    var digits := if s != "" && (s[0] == '-' || s[0] == '+') then s[1..] else s;
    if digits == "" || exists i :: 0 <= i < |digits| && !IsDigit(digits[i]) then None
    else
      assert forall c :: c in digits ==> IsDigit(c);
      var magnitude: int := DecimalValue(digits);
      var value := if negative then -magnitude else magnitude;
      if -I64_MAX - 1 <= value <= I64_MAX then Some(value) else None
  }

  function Checked(n: int): Option<int> {
    if -I64_MAX - 1 <= n <= I64_MAX then Some(n) else None
  }

  /** Division that truncates toward zero. */
  function TruncatedDiv(a: int, b: int): int
    requires b > 0
  {
    if a >= 0 then a / b else -((-a) / b)
  }

  // ---- Days ----

  /** The day number of a date, counted from 1970-01-01, by eras of 400 years that begin in March. */
  function DayNumber(year: int, month: int, day: int): int {
    var adjusted := year - if month <= 2 then 1 else 0;
    var era := TruncatedDiv(if adjusted >= 0 then adjusted else adjusted - 399, 400);
    var yearOfEra := adjusted - era * 400;
    var shifted := month + if month > 2 then -3 else 9;
    var dayOfYear := TruncatedDiv(153 * shifted + 2, 5) + day - 1;
    var dayOfEra := yearOfEra * 365 + TruncatedDiv(yearOfEra, 4) - TruncatedDiv(yearOfEra, 100) + dayOfYear;
    era * 146097 + dayOfEra - 719468
  }

  datatype Date = Date(year: int, month: int, day: int)

  predicate Leap(year: int) {
    year % 4 == 0 && (year % 100 != 0 || year % 400 == 0)
  }

  function DaysInMonth(year: int, month: int): int {
    if month == 2 then (if Leap(year) then 29 else 28)
    else if month == 4 || month == 6 || month == 9 || month == 11 then 30
    else 31
  }

  predicate ValidDate(date: Date) {
    1 <= date.month <= 12 && 1 <= date.day <= DaysInMonth(date.year, date.month)
  }

  /** The day after, by the Gregorian rules. */
  function NextDate(date: Date): Date {
    if date.day < DaysInMonth(date.year, date.month) then Date(date.year, date.month, date.day + 1)
    else if date.month < 12 then Date(date.year, date.month + 1, 1)
    else Date(date.year + 1, 1, 1)
  }

  function Number(date: Date): int {
    DayNumber(date.year, date.month, date.day)
  }

  const EPOCH := Date(1970, 1, 1)

  /** Era arithmetic in floor division. */
  function YearDays(year: int): int {
    365 * year + year / 4 - year / 100 + year / 400
  }

  /** Days from the first of March to the first of a month. */
  function MonthOffset(month: int): int {
    (153 * (month + if month > 2 then -3 else 9) + 2) / 5
  }

  lemma OffsetsFit(month: int)
    requires 1 <= month < 12 && month != 2
    ensures MonthOffset(month + 1) == MonthOffset(month) + if month == 4 || month == 6 || month == 9 || month == 11 then 30 else 31
  {
  }

  lemma EraIsFloor(adjusted: int)
    ensures TruncatedDiv(if adjusted >= 0 then adjusted else adjusted - 399, 400) == adjusted / 400
  {
  }

  lemma EraDays(adjusted: int)
    ensures var era := adjusted / 400; var rest := adjusted - era * 400;
            0 <= rest < 400 && era * 146097 + rest * 365 + rest / 4 - rest / 100 == YearDays(adjusted)
  {
    var era, rest := adjusted / 400, adjusted % 400;
    assert adjusted == era * 400 + rest;
    assert adjusted / 4 == era * 100 + rest / 4;
    assert adjusted / 100 == era * 4 + rest / 100;
  }

  /** The closed form without truncation. */
  lemma DayNumberFlat(year: int, month: int, day: int)
    requires 1 <= month <= 12
    ensures var adjusted := year - if month <= 2 then 1 else 0;
            DayNumber(year, month, day) == YearDays(adjusted) + MonthOffset(month) + day - 1 - 719468
  {
    var adjusted := year - if month <= 2 then 1 else 0;
    EraIsFloor(adjusted);
    EraDays(adjusted);
  }

  /** A month is as long as the Gregorian rules say. */
  lemma MonthLength(year: int, month: int)
    requires 1 <= month < 12
    ensures DayNumber(year, month + 1, 1) == DayNumber(year, month, 1) + DaysInMonth(year, month)
  {
    DayNumberFlat(year, month, 1);
    DayNumberFlat(year, month + 1, 1);
    hide DayNumber;
    hide YearDays;
    hide Leap;
    if month == 2 {
      assert MonthOffset(2) == 337 && MonthOffset(3) == 0;
      hide MonthOffset;
      LeapDay(year);
    } else {
      OffsetsFit(month);
      hide MonthOffset;
    }
  }

  lemma LeapDay(year: int)
    ensures YearDays(year) - YearDays(year - 1) == if Leap(year) then 366 else 365
  {
    QuotientStep(year, 4);
    QuotientStep(year, 100);
    QuotientStep(year, 400);
  }

  lemma QuotientStep(n: int, k: int)
    requires k == 4 || k == 100 || k == 400
    ensures n / k - (n - 1) / k == if n % k == 0 then 1 else 0
  {
  }

  /** Closed form and calendar agree on the next day. */
  lemma NextDayIsOneMore(date: Date)
    requires ValidDate(date)
    ensures ValidDate(NextDate(date)) && Number(NextDate(date)) == Number(date) + 1
  {
    hide DayNumber;
    hide Leap;
    var (year, month, day) := (date.year, date.month, date.day);
    DayInMonth(year, month, day);
    if day < DaysInMonth(year, month) {
      DayInMonth(year, month, day + 1);
    } else if month < 12 {
      MonthLength(year, month);
    } else {
      LastMonth(year);
    }
  }

  lemma EpochIsZero()
    ensures Number(EPOCH) == 0
  {
  }

  /** n days later, one by one. */
  function Forward(date: Date, n: nat): Date {
    if n == 0 then date else NextDate(Forward(date, n - 1))
  }

  lemma {:induction false} ForwardCounts(date: Date, n: nat)
    requires ValidDate(date)
    ensures ValidDate(Forward(date, n)) && Number(Forward(date, n)) == Number(date) + n
  {
    if n > 0 {
      ForwardCounts(date, n - 1);
      NextDayIsOneMore(Forward(date, n - 1));
    }
  }

  predicate Before(a: Date, b: Date) {
    a.year < b.year || (a.year == b.year && (a.month < b.month || (a.month == b.month && a.day < b.day)))
  }

  lemma DayInMonth(year: int, month: int, day: int)
    requires 1 <= month <= 12
    ensures DayNumber(year, month, day) == DayNumber(year, month, 1) + day - 1
  {
    DayNumberFlat(year, month, day);
    DayNumberFlat(year, month, 1);
  }

  lemma {:induction false} MonthsIncrease(year: int, a: int, b: int)
    requires 1 <= a < b <= 12
    ensures DayNumber(year, b, 1) >= DayNumber(year, a, 1) + DaysInMonth(year, a)
    decreases b - a
  {
    MonthLength(year, a);
    if a + 1 < b {
      MonthsIncrease(year, a + 1, b);
    }
  }

  lemma YearLength(year: int)
    ensures DayNumber(year + 1, 1, 1) == DayNumber(year, 1, 1) + if Leap(year) then 366 else 365
  {
    DayNumberFlat(year, 1, 1);
    DayNumberFlat(year + 1, 1, 1);
    LeapDay(year);
  }

  lemma {:induction false} YearsIncrease(a: int, b: int)
    requires a < b
    ensures DayNumber(b, 1, 1) >= DayNumber(a + 1, 1, 1)
    decreases b - a
  {
    if a + 1 < b {
      YearsIncrease(a, b - 1);
      YearLength(b - 1);
    }
  }

  lemma LastMonth(year: int)
    ensures DayNumber(year + 1, 1, 1) == DayNumber(year, 12, 1) + 31
  {
    DayNumberFlat(year, 12, 1);
    DayNumberFlat(year + 1, 1, 1);
  }

  /** Every month begins within its year, at least one month before the next year. */
  lemma MonthWithinYear(year: int, month: int)
    requires 1 <= month <= 12
    ensures DayNumber(year, 1, 1) <= DayNumber(year, month, 1)
    ensures DayNumber(year, month, 1) + DaysInMonth(year, month) <= DayNumber(year + 1, 1, 1)
  {
    LastMonth(year);
    hide DayNumber;
    hide Leap;
    if month > 1 {
      MonthsIncrease(year, 1, month);
    }
    if month < 12 {
      MonthsIncrease(year, month, 12);
    }
  }

  lemma WithinYear(date: Date)
    requires ValidDate(date)
    ensures DayNumber(date.year, 1, 1) <= Number(date) < DayNumber(date.year + 1, 1, 1)
  {
    DayInMonth(date.year, date.month, date.day);
    MonthWithinYear(date.year, date.month);
    hide DayNumber;
    hide DaysInMonth;
  }

  /** Later dates have larger numbers. */
  lemma NumberIncreases(a: Date, b: Date)
    requires ValidDate(a) && ValidDate(b) && Before(a, b)
    ensures Number(a) < Number(b)
  {
    hide DayNumber;
    if a.year < b.year {
      WithinYear(a);
      WithinYear(b);
      YearsIncrease(a.year, b.year);
    } else {
      DayInMonth(a.year, a.month, a.day);
      DayInMonth(b.year, b.month, b.day);
      if a.month < b.month {
        MonthsIncrease(a.year, a.month, b.month);
      }
    }
  }

  /** The closed form counts: walking day by day from one date reaches any later one in exactly the difference of their
      numbers; from 1970-01-01, the number itself. */
  lemma CountingReaches(from: Date, to: Date)
    requires ValidDate(from) && ValidDate(to) && Number(from) <= Number(to)
    ensures Forward(from, Number(to) - Number(from)) == to
  {
    var reached := Forward(from, Number(to) - Number(from));
    ForwardCounts(from, Number(to) - Number(from));
    if Before(reached, to) {
      NumberIncreases(reached, to);
    }
    if Before(to, reached) {
      NumberIncreases(to, reached);
    }
  }

  // ---- Parsing ----

  datatype Civil = Civil(year: int, month: int, day: int)

  function ParseDate(text: string): Option<Civil> {
    var parts := Split(text, '-');
    if |parts| != 3 then None
    else
      var year, month, day := ParseI64(parts[0]), ParseI64(parts[1]), ParseI64(parts[2]);
      if year.None? || month.None? || day.None? || !(1 <= month.value <= 12) || !(1 <= day.value <= 31) then None
      else Some(Civil(year.value, month.value, day.value))
  }

  /** Where the zone begins: at the first Z, or else at the first sign after the first character. */
  function ZoneIndex(text: string): (r: Option<nat>)
    ensures r.Some? ==> r.value <= |text|
  {
    var z := FindWhere(text, c => c == 'Z');
    if z.Some? then z
    else if text == "" then None
    else
      match FindWhere(text[1..], c => c == '+' || c == '-')
      case None => None
      case Some(i) => Some(i + 1)
  }

  function Padded(text: string): string
    decreases 3 - ByteLength(text)
  {
    if ByteLength(text) >= 3 then text
    else
      ByteLengthConcat(text, "0");
      Padded(text + "0")
  }

  function ParseMillis(fraction: string): Option<int> {
    ParseI64(Padded(if |fraction| > 3 then fraction[..3] else fraction))
  }

  /** Seconds since midnight, and milliseconds. */
  function ParseTime(text: string): Option<(int, int)> {
    var parts := Split(text, ':');
    if |parts| != 3 then None
    else
      var hour, minute := ParseI64(parts[0]), ParseI64(parts[1]);
      var (secondText, fraction) := match SplitOnce(parts[2], '.') case Some(pair) => pair case None => (parts[2], "");
      var second, millis := ParseI64(secondText), ParseMillis(fraction);
      if hour.None? || minute.None? || hour.value > 23 || minute.value > 59 || second.None? || second.value > 60 || millis.None? then None
      else Some((hour.value * 3600 + minute.value * 60 + second.value, millis.value))
  }

  function ParseZone(zone: string): Option<int> {
    if zone == "Z" then Some(0)
    else if zone == "" || (zone[0] != '+' && zone[0] != '-') then None
    else
      var parts := Split(zone[1..], ':');
      if |parts| != 2 then None
      else
        var hour, minute := ParseI64(parts[0]), ParseI64(parts[1]);
        if hour.None? || minute.None? || hour.value > 23 || minute.value > 59 then None
        else Some((if zone[0] == '+' then 1 else -1) * (hour.value * 3600 + minute.value * 60))
  }

  function Then(n: Option<int>, f: int -> int): Option<int> {
    match n
    case None => None
    case Some(v) => Checked(f(v))
  }

  /** Milliseconds since the epoch, or None when they do not fit or lie before it. */
  function ToMillis(days: int, seconds: int, offset: int, millis: int): Option<nat> {
    var total := Then(Then(Then(Then(Checked(days * 86400), n => n + seconds), n => n - offset), n => n * 1000), n => n + millis);
    match total
    case None => None
    case Some(n) => if n >= 0 then Some(n) else None
  }

  function ParseTimestamp(text: string): Option<nat> {
    match SplitOnce(text, 'T')
    case None => None
    case Some((date, rest)) =>
      var civil, index := ParseDate(date), ZoneIndex(rest);
      if civil.None? || index.None? then None
      else
        var time, offset := ParseTime(rest[..index.value]), ParseZone(rest[index.value..]);
        if time.None? || offset.None? then None
        else ToMillis(DayNumber(civil.value.year, civil.value.month, civil.value.day), time.value.0, offset.value, time.value.1)
  }

  /** The padding loop, as it runs. */
  method PadMillis(fraction: string) returns (text: string)
    ensures text == Padded(if |fraction| > 3 then fraction[..3] else fraction)
  {
    text := if |fraction| > 3 then fraction[..3] else fraction;
    ghost var start := text;
    while ByteLength(text) < 3
      invariant Padded(text) == Padded(start)
      decreases 3 - ByteLength(text)
    {
      ByteLengthConcat(text, "0");
      text := text + "0";
    }
  }

  // ---- Written timestamps ----

  function Two(n: nat): (s: string)
    requires n < 100
    ensures |s| == 2 && forall i :: 0 <= i < |s| ==> IsDigit(s[i])
  {
    [DigitChar(n / 10), DigitChar(n % 10)]
  }

  datatype Zone = Utc | Offset(east: bool, hours: nat, minutes: nat) {

    /** Two digits each. */
    predicate Written() {
      Offset? ==> hours < 100 && minutes < 100
    }

    predicate Valid() {
      Offset? ==> hours < 24 && minutes < 60
    }

    function Text(): string
      requires Written()
    {
      match this
      case Utc => "Z"
      case Offset(east, h, m) => (if east then "+" else "-") + Two(h) + ":" + Two(m)
    }

    function Seconds(): int {
      match this
      case Utc => 0
      case Offset(east, h, m) => (if east then 1 else -1) * (h * 3600 + m * 60)
    }
  }

  /** Four digits for the year, two each for month and day, whether or not there is such a day. */
  predicate WrittenDate(date: Date) {
    0 <= date.year < 10000 && 0 <= date.month < 100 && 0 <= date.day < 100
  }

  function DateText(date: Date): string
    requires WrittenDate(date)
  {
    Two(date.year / 100) + Two(date.year % 100) + "-" + Two(date.month) + "-" + Two(date.day)
  }

  /** A timestamp as it is written: a date, a time, decimals of a second, a zone, all in digits. */
  datatype Stamp = Stamp(date: Date, hour: nat, minute: nat, second: nat, fraction: string, zone: Zone) {

    predicate Written() {
      && WrittenDate(date) && hour < 100 && minute < 100 && second < 100 && zone.Written()
      && forall i :: 0 <= i < |fraction| ==> IsDigit(fraction[i])
    }

    /** The time of day and the zone are within their bounds. */
    predicate ValidTime() {
      hour < 24 && minute < 60 && second <= 60 && zone.Valid()
    }

    predicate Valid() {
      Written() && ValidTime() && ValidDate(date)
    }

    function Text(): string
      requires Written()
    {
      DateText(date) + "T" + TimeText() + zone.Text()
    }

    function TimeText(): string
      requires Written()
    {
      Two(hour) + ":" + Two(minute) + ":" + Two(second) + (if fraction == "" then "" else "." + fraction)
    }

    function Millis(): nat
      requires Written()
    {
      DecimalOf(fraction, 0) * 100 + DecimalOf(fraction, 1) * 10 + DecimalOf(fraction, 2)
    }

    /** Milliseconds since the epoch, of any sign. */
    function Instant(): int
      requires Written()
    {
      (Number(date) * 86400 + hour * 3600 + minute * 60 + second - zone.Seconds()) * 1000 + Millis()
    }
  }

  function DecimalOf(fraction: string, i: nat): nat
    requires forall i :: 0 <= i < |fraction| ==> IsDigit(fraction[i])
  {
    if i < |fraction| then DigitValue(fraction[i]) else 0
  }

  lemma TwoParses(n: nat)
    requires n < 100
    ensures ParseI64(Two(n)) == Some(n)
  {
    DigitsParse(Two(n));
    assert Two(n)[..1] == [DigitChar(n / 10)];
    assert DecimalValue([DigitChar(n / 10)]) == n / 10;
  }

  lemma DigitsParse(s: string)
    requires s != "" && (forall i :: 0 <= i < |s| ==> IsDigit(s[i])) && |s| <= 4
    ensures ParseI64(s) == Some(DecimalValue(s))
  {
    assert s[0] != '-' && s[0] != '+';
    ShortValue(s);
  }

  lemma ShortValue(s: string)
    requires (forall c :: c in s ==> IsDigit(c)) && |s| <= 4
    ensures DecimalValue(s) < 10000
    ensures |s| == 3 ==> DecimalValue(s) == DigitValue(s[0]) * 100 + DigitValue(s[1]) * 10 + DigitValue(s[2])
  {
    if s != "" {
      var a := s[..|s| - 1];
      if a != "" {
        var b := a[..|a| - 1];
        if b != "" {
          var c := b[..|b| - 1];
          assert c != "" ==> c[..|c| - 1] == "";
        }
      }
    }
  }

  lemma YearParses(year: nat)
    requires year < 10000
    ensures ParseI64(Two(year / 100) + Two(year % 100)) == Some(year)
  {
    var s := Two(year / 100) + Two(year % 100);
    DigitsParse(s);
    assert s[..3][..2] == Two(year / 100) && s[..3] == Two(year / 100) + [DigitChar(year % 100 / 10)];
    assert Two(year / 100)[..1] == [DigitChar(year / 100 / 10)];
    assert DecimalValue([DigitChar(year / 100 / 10)]) == year / 100 / 10;
    assert DecimalValue(s[..3]) == (year / 100) * 10 + year % 100 / 10;
  }

  lemma NotIn(s: string, c: char)
    requires (forall i :: 0 <= i < |s| ==> IsDigit(s[i])) && !IsDigit(c)
    ensures c !in s
  {
  }

  /** A date is read exactly when its month is one of twelve and its day at most 31, whatever its month. */
  lemma DateParses(date: Date)
    requires WrittenDate(date)
    ensures ParseDate(DateText(date)) ==
              if 1 <= date.month <= 12 && 1 <= date.day <= 31 then Some(Civil(date.year, date.month, date.day)) else None
  {
    var y, m, d := Two(date.year / 100) + Two(date.year % 100), Two(date.month), Two(date.day);
    YearParses(date.year);
    TwoParses(date.month);
    TwoParses(date.day);
    ThreeParts(y, m, d, '-');
    assert y + "-" + m + "-" + d == y + ['-'] + (m + ['-'] + d);
  }

  lemma ThreeParts(a: string, b: string, c: string, separator: char)
    requires separator !in a && separator !in b && separator !in c
    ensures Split(a + [separator] + (b + [separator] + c), separator) == [a, b, c]
  {
    SplitJoin(a, separator, b + [separator] + c);
    SplitJoin(b, separator, c);
    SplitNone(c, separator);
  }

  lemma MillisParse(fraction: string)
    requires forall i :: 0 <= i < |fraction| ==> IsDigit(fraction[i])
    ensures ParseMillis(fraction) == Some(DecimalOf(fraction, 0) * 100 + DecimalOf(fraction, 1) * 10 + DecimalOf(fraction, 2))
  {
    var three := [if |fraction| > 0 then fraction[0] else '0', if |fraction| > 1 then fraction[1] else '0', if |fraction| > 2 then fraction[2] else '0'];
    assert Padded(if |fraction| > 3 then fraction[..3] else fraction) == three by {
      PadsToThree(if |fraction| > 3 then fraction[..3] else fraction);
    }
    DigitsParse(three);
    ShortValue(three);
  }

  lemma {:induction false} DigitBytes(s: string)
    requires forall i :: 0 <= i < |s| ==> IsDigit(s[i])
    ensures ByteLength(s) == |s|
  {
    if s != "" {
      DigitBytes(s[1..]);
    }
  }

  lemma {:induction false} PadsToThree(s: string)
    requires |s| <= 3 && forall i :: 0 <= i < |s| ==> IsDigit(s[i])
    ensures |Padded(s)| == 3 && s <= Padded(s) && forall i :: |s| <= i < 3 ==> Padded(s)[i] == '0'
    decreases 3 - |s|
  {
    DigitBytes(s);
    if |s| < 3 {
      PadsToThree(s + "0");
    }
  }

  lemma TimeParses(hour: nat, minute: nat, second: nat, fraction: string)
    requires hour < 100 && minute < 100 && second < 100 && forall i :: 0 <= i < |fraction| ==> IsDigit(fraction[i])
    ensures ParseTime(Two(hour) + ":" + Two(minute) + ":" + Two(second) + (if fraction == "" then "" else "." + fraction)) ==
              if hour < 24 && minute < 60 && second <= 60
              then Some((hour * 3600 + minute * 60 + second, DecimalOf(fraction, 0) * 100 + DecimalOf(fraction, 1) * 10 + DecimalOf(fraction, 2)))
              else None
  {
    hide ParseMillis;
    hide ParseI64;
    hide Split;
    hide SplitOnce;
    hide Two;
    hide DecimalOf;
    var last := Two(second) + if fraction == "" then "" else "." + fraction;
    TwoParses(hour);
    TwoParses(minute);
    TwoParses(second);
    MillisParse(fraction);
    assert ':' !in last by {
      assert forall i :: 0 <= i < |last| ==> last[i] != ':';
    }
    ThreeParts(Two(hour), Two(minute), last, ':');
    assert Two(hour) + ":" + Two(minute) + ":" + Two(second) + (if fraction == "" then "" else "." + fraction)
        == Two(hour) + [':'] + (Two(minute) + [':'] + last);
    if fraction == "" {
      assert last == Two(second);
      NotIn(last, '.');
    } else {
      assert last == Two(second) + ['.'] + fraction;
      SplitOnceJoin(Two(second), '.', fraction);
    }
  }

  lemma ZoneParses(zone: Zone)
    requires zone.Written()
    ensures ParseZone(zone.Text()) == if zone.Valid() then Some(zone.Seconds()) else None
  {
    match zone
    case Utc =>
    case Offset(east, h, m) =>
      TwoParses(h);
      TwoParses(m);
      assert zone.Text()[1..] == Two(h) + [':'] + Two(m);
      SplitJoin(Two(h), ':', Two(m));
      SplitNone(Two(m), ':');
  }

  lemma ZoneFound(time: string, zone: Zone)
    requires time != "" && zone.Written() && forall i :: 0 <= i < |time| ==> IsDigit(time[i]) || time[i] == ':' || time[i] == '.'
    ensures ZoneIndex(time + zone.Text()) == Some(|time|)
  {
    var text := time + zone.Text();
    assert forall i :: 0 <= i < |time| ==> text[i] == time[i];
    var z := FindWhere(text, c => c == 'Z');
    if zone.Utc? {
      assert text[|time|] == 'Z';
    } else {
      forall i | 0 <= i < |text| ensures text[i] != 'Z' {
        if i >= |time| {
          assert text[i] == zone.Text()[i - |time|];
        }
      }
      assert z.None?;
      var rest := text[1..];
      assert rest[|time| - 1] == zone.Text()[0];
      assert forall i :: 0 <= i < |time| - 1 ==> rest[i] == time[i + 1];
      var i := FindWhere(rest, c => c == '+' || c == '-');
      assert i == Some(|time| - 1);
    }
  }

  lemma StampParts(stamp: Stamp)
    requires stamp.Written()
    ensures var date := DateText(stamp.date);
            var time := stamp.TimeText();
            && SplitOnce(stamp.Text(), 'T') == Some((date, time + stamp.zone.Text()))
            && ZoneIndex(time + stamp.zone.Text()) == Some(|time|)
  {
    var date, time := DateText(stamp.date), stamp.TimeText();
    DateHasNoT(stamp.date);
    TimeChars(stamp);
    hide DateText;
    hide Stamp.TimeText;
    assert stamp.Text() == date + ['T'] + (time + stamp.zone.Text());
    SplitOnceJoin(date, 'T', time + stamp.zone.Text());
    ZoneFound(time, stamp.zone);
  }

  lemma DateHasNoT(date: Date)
    requires WrittenDate(date)
    ensures 'T' !in DateText(date)
  {
  }

  lemma TimeChars(stamp: Stamp)
    requires stamp.Written()
    ensures stamp.TimeText() != ""
    ensures forall i :: 0 <= i < |stamp.TimeText()| ==> IsDigit(stamp.TimeText()[i]) || stamp.TimeText()[i] == ':' || stamp.TimeText()[i] == '.'
  {
  }

  /** The parser bounds a day by 31 only, so that is the date it accepts. */
  predicate AcceptedDate(date: Date) {
    1 <= date.month <= 12 && 1 <= date.day <= 31
  }

  /** Every timestamp written in digits is read exactly when its month, day, time and zone are within the
      parser's bounds and its instant is not before the epoch; and then as its instant. */
  lemma WrittenStampParses(stamp: Stamp)
    requires stamp.Written()
    ensures ParseTimestamp(stamp.Text()) ==
              if AcceptedDate(stamp.date) && stamp.ValidTime() && stamp.Instant() >= 0 then Some(stamp.Instant()) else None
  {
    hide ParseDate;
    hide ParseTime;
    hide ParseZone;
    hide ZoneIndex;
    hide ToMillis;
    hide DayNumber;
    var date := DateText(stamp.date);
    var time := stamp.TimeText();
    StampParts(stamp);
    DateParses(stamp.date);
    TimeParses(stamp.hour, stamp.minute, stamp.second, stamp.fraction);
    ZoneParses(stamp.zone);
    assert (time + stamp.zone.Text())[..|time|] == time && (time + stamp.zone.Text())[|time|..] == stamp.zone.Text();
    if AcceptedDate(stamp.date) && stamp.ValidTime() {
      NumberBound(stamp.date);
      var seconds := stamp.hour * 3600 + stamp.minute * 60 + stamp.second;
      MillisExact(Number(stamp.date), seconds, stamp.zone.Seconds(), stamp.Millis());
    }
  }

  /** A timestamp of a real date is read as its instant, whatever its zone, when that is not before the epoch. */
  lemma StampParses(stamp: Stamp)
    requires stamp.Valid()
    ensures ParseTimestamp(stamp.Text()) == if stamp.Instant() >= 0 then Some(stamp.Instant()) else None
  {
    hide ParseTimestamp;
    hide Stamp.Text;
    hide Stamp.Instant;
    WrittenStampParses(stamp);
  }

  lemma MillisExact(days: int, seconds: int, offset: int, millis: int)
    requires -1000000 <= days <= 5000000 && 0 <= seconds <= 90000 && -90000 <= offset <= 90000 && 0 <= millis < 1000
    ensures var total := (days * 86400 + seconds - offset) * 1000 + millis;
            ToMillis(days, seconds, offset, millis) == if total >= 0 then Some(total) else None
  {
  }

  lemma NumberBound(date: Date)
    requires AcceptedDate(date) && 0 <= date.year < 10000
    ensures -1000000 <= Number(date) <= 5000000
  {
    DayNumberFlat(date.year, date.month, date.day);
  }

  /** One instant written with any two zones gives the same milliseconds. */
  lemma SameInstantSameMillis(a: Stamp, b: Stamp)
    requires a.Valid() && b.Valid() && a.Instant() == b.Instant()
    ensures ParseTimestamp(a.Text()) == ParseTimestamp(b.Text())
  {
    StampParses(a);
    StampParses(b);
  }

  // ---- Days that no month has ----

  /** A day past its month has the number of one of the next month. */
  lemma OverflowingDay(year: int, month: int, day: int)
    requires 1 <= month < 12 && DaysInMonth(year, month) < day <= 31
    ensures DayNumber(year, month, day) == DayNumber(year, month + 1, day - DaysInMonth(year, month))
  {
    DayInMonth(year, month, day);
    DayInMonth(year, month + 1, day - DaysInMonth(year, month));
    MonthLength(year, month);
  }

  /** The same stamp on the day that an overflowing day runs on to. */
  function Overflowed(stamp: Stamp): Stamp {
    var (year, month, day) := (stamp.date.year, stamp.date.month, stamp.date.day);
    stamp.(date := Date(year, month + 1, day - DaysInMonth(year, month)))
  }

  /** A date that does not exist is read exactly when its day runs past its month but not past 31 and its instant
      is not before the epoch; it then counts as the day of the next month that it runs on to. */
  lemma NoSuchDate(stamp: Stamp)
    requires stamp.Written() && stamp.ValidTime() && 1 <= stamp.date.month <= 12 && !ValidDate(stamp.date)
    ensures ParseTimestamp(stamp.Text()).Some? <==>
              DaysInMonth(stamp.date.year, stamp.date.month) < stamp.date.day <= 31 && stamp.Instant() >= 0
    ensures ParseTimestamp(stamp.Text()).Some? ==>
              Overflowed(stamp).Valid() && ParseTimestamp(stamp.Text()) == ParseTimestamp(Overflowed(stamp).Text())
  {
    hide ParseTimestamp;
    hide Stamp.Text;
    hide DayNumber;
    WrittenStampParses(stamp);
    if AcceptedDate(stamp.date) {
      OverflowingDay(stamp.date.year, stamp.date.month, stamp.date.day);
      StampParses(Overflowed(stamp));
    }
  }

  /** The parser meets the calendar, reading a stamp if and only if its date exists, exactly outside that family. */
  lemma ReadsOnlyDatesIff(stamp: Stamp)
    requires stamp.Written() && stamp.ValidTime() && stamp.Instant() >= 0
    ensures (ParseTimestamp(stamp.Text()).Some? <==> ValidDate(stamp.date)) <==>
              !(1 <= stamp.date.month <= 12 && DaysInMonth(stamp.date.year, stamp.date.month) < stamp.date.day <= 31)
  {
    hide ParseTimestamp;
    hide Stamp.Text;
    hide Stamp.Instant;
    WrittenStampParses(stamp);
  }

  /** 30 February 2024 is read, as 1 March. */
  lemma ThirtiethOfFebruary()
    ensures !ValidDate(Date(2024, 2, 30))
    ensures ParseTimestamp("2024-02-30" + "T00:00:00Z") == Some(19783 * 86_400_000)
    ensures ParseTimestamp("2024-03-01" + "T00:00:00Z") == Some(19783 * 86_400_000)
  {
    LeapDayTexts();
    hide ParseTimestamp;
    hide DateText;
    hide DayNumber;
    MidnightReads(Date(2024, 2, 30));
    MidnightReads(Date(2024, 3, 1));
  }

  lemma LeapDayTexts()
    ensures DateText(Date(2024, 2, 30)) == "2024-02-30" && DateText(Date(2024, 3, 1)) == "2024-03-01"
    ensures DayNumber(2024, 2, 30) == 19783 && DayNumber(2024, 3, 1) == 19783
  {
  }

  lemma MidnightReads(date: Date)
    requires WrittenDate(date) && AcceptedDate(date) && Number(date) >= 0
    ensures ParseTimestamp(DateText(date) + "T00:00:00Z") == Some(Number(date) * 86_400_000)
  {
    var stamp := Stamp(date, 0, 0, 0, "", Utc);
    MidnightText(stamp);
    hide Stamp.Text;
    hide Stamp.TimeText;
    hide Stamp.Instant;
    hide ParseTimestamp;
    hide DateText;
    hide Number;
    WrittenStampParses(stamp);
  }

  lemma MidnightText(stamp: Stamp)
    requires stamp.Written() && stamp == Stamp(stamp.date, 0, 0, 0, "", Utc)
    ensures stamp.Text() == DateText(stamp.date) + "T00:00:00Z"
    ensures stamp.Instant() == Number(stamp.date) * 86_400_000
  {
    hide DateText;
    hide Number;
    assert stamp.TimeText() == "00:00:00";
  }
}
