/** Retention compares dates as strings: `strict_day`, `utc_day` and the 32-day cutoff. */
module Calendar {
  import opened Options

  type byte = x: int | 0 <= x < 256

  const DASH: byte := 45
  const ZERO: byte := 48
  const RETENTION_DAYS := 32
  const SECONDS_PER_DAY := 86_400

  predicate IsDigit(b: byte) { ZERO <= b <= ZERO + 9 }

  // ------------------------------------------------------------------------ Gregorian calendar

  datatype Date = Date(year: nat, month: nat, day: nat)

  predicate IsLeap(year: nat) {
    year % 4 == 0 && (year % 100 != 0 || year % 400 == 0)
  }

  /** RFC 3339 section 5.7 and its Appendix C. */
  function DaysInMonth(year: nat, month: nat): nat {
    if month in {1, 3, 5, 7, 8, 10, 12} then 31
    else if month in {4, 6, 9, 11} then 30
    else if month == 2 then if IsLeap(year) then 29 else 28
    else 0
  }

  predicate IsDate(d: Date) {
    1 <= d.month <= 12 && 1 <= d.day <= DaysInMonth(d.year, d.month)
  }

  /** The day after. */
  function NextDate(d: Date): (next: Date)
    requires IsDate(d)
    ensures IsDate(next)
  {
    if d.day < DaysInMonth(d.year, d.month) then Date(d.year, d.month, d.day + 1)
    else if d.month < 12 then Date(d.year, d.month + 1, 1)
    else Date(d.year + 1, 1, 1)
  }

  function YearLength(year: nat): nat { if IsLeap(year) then 366 else 365 }

  /** Days before January 1st of a year, counted from January 1st of year 0. */
  function DaysBeforeYear(year: nat): nat {
    if year == 0 then 0 else DaysBeforeYear(year - 1) + YearLength(year - 1)
  }

  function DaysBeforeMonth(year: nat, month: nat): nat {
    if month <= 1 then 0 else DaysBeforeMonth(year, month - 1) + DaysInMonth(year, month - 1)
  }

  function DayNumber(d: Date): int {
    DaysBeforeYear(d.year) + DaysBeforeMonth(d.year, d.month) + d.day - 1
  }

  /** The date `n` days after January 1st of year 0: what `gmtime_r` does with whole days. */
  function DateOf(n: nat): (d: Date)
    ensures IsDate(d)
  {
    if n == 0 then Date(0, 1, 1) else NextDate(DateOf(n - 1))
  }

  lemma TwelveMonths(year: nat)
    ensures DaysBeforeMonth(year, 13) == YearLength(year)
  {
    assert DaysBeforeMonth(year, 2) == DaysBeforeMonth(year, 1) + DaysInMonth(year, 1);
    assert DaysBeforeMonth(year, 3) == 31 + DaysInMonth(year, 2);
    assert DaysBeforeMonth(year, 5) == DaysBeforeMonth(year, 3) + 61;
    assert DaysBeforeMonth(year, 7) == DaysBeforeMonth(year, 5) + 61;
    assert DaysBeforeMonth(year, 9) == DaysBeforeMonth(year, 7) + 62;
    assert DaysBeforeMonth(year, 11) == DaysBeforeMonth(year, 9) + 61;
    assert DaysBeforeMonth(year, 13) == DaysBeforeMonth(year, 11) + 61;
  }

  /** The days of a year before each of its months, as a calendar prints them. */
  lemma {:induction false} MonthsBegin(year: nat, month: nat)
    requires 1 <= month <= 12
    ensures DaysBeforeMonth(year, month) ==
              [0, 31, 59, 90, 120, 151, 181, 212, 243, 273, 304, 334][month - 1] + if month > 2 && IsLeap(year) then 1 else 0
  {
    if month > 1 { MonthsBegin(year, month - 1); }
  }

  /** Day numbers count the days of the calendar, one by one. */
  lemma NextDateIsNextDay(d: Date)
    requires IsDate(d)
    ensures DayNumber(NextDate(d)) == DayNumber(d) + 1
  {
    if d.day == DaysInMonth(d.year, d.month) {
      if d.month == 12 {
        TwelveMonths(d.year);
      } else {
        assert DaysBeforeMonth(d.year, d.month + 1) == DaysBeforeMonth(d.year, d.month) + DaysInMonth(d.year, d.month);
      }
    }
  }

  lemma {:induction false} DayNumberOfDate(n: nat)
    ensures DayNumber(DateOf(n)) == n
  {
    if n > 0 {
      DayNumberOfDate(n - 1);
      NextDateIsNextDay(DateOf(n - 1));
    }
  }

  /** Calendar order, most significant part first. */
  predicate Earlier(a: Date, b: Date) {
    a.year < b.year
    || (a.year == b.year && (a.month < b.month || (a.month == b.month && a.day < b.day)))
  }

  lemma {:induction false} MonthsAdd(year: nat, a: nat, b: nat)
    requires 1 <= a < b <= 13
    ensures DaysBeforeMonth(year, a) + DaysInMonth(year, a) <= DaysBeforeMonth(year, b)
    decreases b
  {
    if a + 1 < b { MonthsAdd(year, a, b - 1); }
  }

  lemma {:induction false} YearsAdd(a: nat, b: nat)
    requires a < b
    ensures DaysBeforeYear(a) + YearLength(a) <= DaysBeforeYear(b)
    decreases b
  {
    if a + 1 < b { YearsAdd(a, b - 1); }
  }

  lemma EarlierHasSmallerNumber(a: Date, b: Date)
    requires IsDate(a) && IsDate(b) && Earlier(a, b)
    ensures DayNumber(a) < DayNumber(b)
  {
    if a.year < b.year {
      YearsAdd(a.year, b.year);
      MonthsAdd(a.year, a.month, 13);
      TwelveMonths(a.year);
    } else if a.month < b.month {
      MonthsAdd(a.year, a.month, b.month);
    }
  }

  /** Calendar order is day-number order, and day numbers determine dates. */
  lemma {:induction false} OrderIsDayOrder(a: Date, b: Date)
    requires IsDate(a) && IsDate(b)
    ensures Earlier(a, b) <==> DayNumber(a) < DayNumber(b)
    ensures a == b <==> DayNumber(a) == DayNumber(b)
  {
    if Earlier(a, b) {
      EarlierHasSmallerNumber(a, b);
    } else if Earlier(b, a) {
      EarlierHasSmallerNumber(b, a);
    } else {
      assert a == b;
    }
  }

  // ---------------------------------------------------------------------------- printed dates

  function Digit(n: int): byte
    requires 0 <= n <= 9
  {
    ZERO + n
  }

  function Digits(n: nat): (s: seq<byte>)
    ensures |s| >= 1 && forall i :: 0 <= i < |s| ==> IsDigit(s[i])
  {
    if n < 10 then [Digit(n)] else Digits(n / 10) + [Digit(n % 10)]
  }

  /** Rust's `{:0width}`. */
  function Padded(n: nat, width: nat): seq<byte> {
    var digits := Digits(n);
    if |digits| >= width then digits else seq(width - |digits|, _ => ZERO) + digits
  }

  function Print(d: Date): seq<byte> {
    Padded(d.year, 4) + [DASH] + Padded(d.month, 2) + [DASH] + Padded(d.day, 2)
  }

  function Value(s: seq<byte>): int {
    if s == [] then 0 else Value(s[..|s| - 1]) * 10 + (s[|s| - 1] - ZERO)
  }

  /** Two decimal digits. */
  function Two(a: int, b: int): seq<byte>
    requires 0 <= a <= 9 && 0 <= b <= 9
  {
    [Digit(a), Digit(b)]
  }

  lemma Tens(q: nat, r: nat)
    requires r < 10
    ensures (10 * q + r) / 10 == q && (10 * q + r) % 10 == r
    ensures q > 0 ==> Digits(10 * q + r) == Digits(q) + [Digit(r)]
  {
  }

  lemma PaddedTwo(a: nat, b: nat)
    requires a <= 9 && b <= 9
    ensures Padded(10 * a + b, 2) == Two(a, b)
  {
    Tens(a, b);
    if a > 0 { assert Digits(a) == [Digit(a)]; }
  }

  lemma PaddedFour(a: nat, b: nat, c: nat, e: nat)
    requires a <= 9 && b <= 9 && c <= 9 && e <= 9
    ensures Padded(1000 * a + 100 * b + 10 * c + e, 4) == Two(a, b) + Two(c, e)
  {
    var n3, n2 := 100 * a + 10 * b + c, 10 * a + b;
    assert 1000 * a + 100 * b + 10 * c + e == 10 * n3 + e && n3 == 10 * n2 + c;
    Tens(n3, e);
    Tens(n2, c);
    Tens(a, b);
    if a > 0 {
      assert Digits(a) == [Digit(a)];
    } else if b > 0 {
      assert Digits(b) == [Digit(b)];
    } else if c > 0 {
      assert Digits(c) == [Digit(c)];
    }
  }

  lemma TwoDigitsOf(n: nat) returns (a: nat, b: nat)
    requires n < 100
    ensures a <= 9 && b <= 9 && n == 10 * a + b
  {
    a, b := n / 10, n % 10;
  }

  lemma FourDigitsOf(n: nat) returns (a: nat, b: nat, c: nat, e: nat)
    requires n < 10_000
    ensures a <= 9 && b <= 9 && c <= 9 && e <= 9 && n == 1000 * a + 100 * b + 10 * c + e
  {
    a, b := TwoDigitsOf(n / 100);
    c, e := TwoDigitsOf(n % 100);
  }

  /** `strict_day`: the shape first, then the ranges. */
  predicate StrictDay(s: seq<byte>) {
    && |s| == 10 && s[4] == DASH && s[7] == DASH
    && (forall i :: 0 <= i < 10 && i != 4 && i != 7 ==> IsDigit(s[i]))
    && var year, month, day := Value(s[0..4]), Value(s[5..7]), Value(s[8..10]);
       && 1 <= month <= 12
       && year >= 0
       && 1 <= day <= DaysInMonth(year, month)
  }

  function Parse(s: seq<byte>): Date
    requires StrictDay(s)
  {
    Date(Value(s[0..4]), Value(s[5..7]), Value(s[8..10]))
  }

  lemma ValueTwo(a: nat, b: nat)
    requires a <= 9 && b <= 9
    ensures Value(Two(a, b)) == 10 * a + b
  {
    assert Two(a, b)[..1] == [Digit(a)];
    assert Value([Digit(a)]) == Value([]) * 10 + a;
  }

  lemma ValueFour(a: nat, b: nat, c: nat, e: nat)
    requires a <= 9 && b <= 9 && c <= 9 && e <= 9
    ensures Value(Two(a, b) + Two(c, e)) == 1000 * a + 100 * b + 10 * c + e
  {
    var s := Two(a, b) + Two(c, e);
    assert s[..3][..2] == Two(a, b);
    assert s[..3][2] == Digit(c) && s[3] == Digit(e);
    ValueTwo(a, b);
    assert Value(s[..3]) == Value(Two(a, b)) * 10 + c;
  }

  lemma TwoReadsBack(a: nat, b: nat)
    requires a <= 9 && b <= 9
    ensures 0 <= Value(Two(a, b)) <= 99 && Padded(Value(Two(a, b)), 2) == Two(a, b)
  {
    ValueTwo(a, b);
    PaddedTwo(a, b);
  }

  /** Two digits are the padded form of their value. */
  lemma ReadTwo(s: seq<byte>)
    requires |s| == 2 && IsDigit(s[0]) && IsDigit(s[1])
    ensures 0 <= Value(s) <= 99 && Padded(Value(s), 2) == s
  {
    assert s == Two(s[0] - ZERO, s[1] - ZERO);
    TwoReadsBack(s[0] - ZERO, s[1] - ZERO);
  }

  lemma ReadFour(s: seq<byte>)
    requires |s| == 4 && forall i :: 0 <= i < 4 ==> IsDigit(s[i])
    ensures 0 <= Value(s) <= 9999 && Padded(Value(s), 4) == s
  {
    var a, b, c, e := s[0] - ZERO, s[1] - ZERO, s[2] - ZERO, s[3] - ZERO;
    assert s == Two(a, b) + Two(c, e);
    ValueFour(a, b, c, e);
    PaddedFour(a, b, c, e);
  }

  lemma WriteTwo(n: nat)
    requires n < 100
    ensures var s := Padded(n, 2); |s| == 2 && IsDigit(s[0]) && IsDigit(s[1]) && Value(s) == n
  {
    var a, b := TwoDigitsOf(n);
    PaddedTwo(a, b);
    ValueTwo(a, b);
  }

  lemma WriteFour(n: nat)
    requires n < 10_000
    ensures var s := Padded(n, 4); |s| == 4 && Value(s) == n && forall i :: 0 <= i < 4 ==> IsDigit(s[i])
  {
    var a, b, c, e := FourDigitsOf(n);
    PaddedFour(a, b, c, e);
    ValueFour(a, b, c, e);
  }

  /** Every printed date of years 0 to 9999 is accepted, and read back. */
  lemma PrintedIsStrict(d: Date)
    requires IsDate(d) && d.year <= 9999
    ensures StrictDay(Print(d)) && Parse(Print(d)) == d
  {
    WriteFour(d.year);
    WriteTwo(d.month);
    WriteTwo(d.day);
    var s := Print(d);
    assert s[0..4] == Padded(d.year, 4) && s[5..7] == Padded(d.month, 2) && s[8..10] == Padded(d.day, 2);
    forall i | 0 <= i < 10 && i != 4 && i != 7 ensures IsDigit(s[i]) {
      if i < 4 {
        assert s[i] == Padded(d.year, 4)[i];
      } else if i < 7 {
        assert s[i] == Padded(d.month, 2)[i - 5];
      } else {
        assert s[i] == Padded(d.day, 2)[i - 8];
      }
    }
  }

  /** `strict_day` accepts exactly the printed Gregorian dates of years 0000 to 9999. */
  lemma StrictDayIsPrintedDate(s: seq<byte>)
    ensures StrictDay(s) <==> exists d: Date :: IsDate(d) && d.year <= 9999 && Print(d) == s
    ensures StrictDay(s) ==> |s| == 10 && forall i :: 0 <= i < 10 ==> if i == 4 || i == 7 then s[i] == 45 else 48 <= s[i] <= 57
  {
    if StrictDay(s) {
      var d := Parse(s);
      ReadFour(s[0..4]);
      ReadTwo(s[5..7]);
      ReadTwo(s[8..10]);
      assert s == s[0..4] + [s[4]] + s[5..7] + [s[7]] + s[8..10];
      assert IsDate(d) && d.year <= 9999 && Print(d) == s;
    }
    if d: Date :| IsDate(d) && d.year <= 9999 && Print(d) == s { PrintedIsStrict(d); }
  }

  // ------------------------------------------------------------------------------ string order

  /** Rust's `<` on strings: bytes from the left. */
  predicate Less(a: seq<byte>, b: seq<byte>) {
    if b == [] then false
    else if a == [] then true
    else a[0] < b[0] || (a[0] == b[0] && Less(a[1..], b[1..]))
  }

  /** Equally long first parts decide, unless they are equal. */
  lemma {:induction false} LessParts(p: seq<byte>, q: seq<byte>, a: seq<byte>, b: seq<byte>)
    requires |p| == |q|
    ensures Less(p + a, q + b) <==> Less(p, q) || (p == q && Less(a, b))
  {
    if p == [] {
      assert p + a == a && q + b == b;
    } else {
      assert (p + a)[1..] == p[1..] + a && (q + b)[1..] == q[1..] + b;
      LessParts(p[1..], q[1..], a, b);
      assert p == [p[0]] + p[1..] && q == [q[0]] + q[1..];
    }
  }

  lemma {:induction false} NotLessSelf(a: seq<byte>)
    ensures !Less(a, a)
  {
    if a != [] { NotLessSelf(a[1..]); }
  }

  lemma LessPair(a: nat, b: nat, c: nat, e: nat)
    requires a <= 9 && b <= 9 && c <= 9 && e <= 9
    ensures Less(Two(a, b), Two(c, e)) <==> 10 * a + b < 10 * c + e
    ensures Two(a, b) == Two(c, e) <==> 10 * a + b == 10 * c + e
  {
    assert Two(a, b)[0] == Digit(a) && Two(a, b)[1..] == [Digit(b)] && [Digit(b)][1..] == [];
    assert Two(c, e)[0] == Digit(c) && Two(c, e)[1..] == [Digit(e)] && [Digit(e)][1..] == [];
    assert Less([Digit(b)], [Digit(e)]) <==> b < e;
  }

  lemma LessTwo(m: nat, n: nat)
    requires m < 100 && n < 100
    ensures Less(Padded(m, 2), Padded(n, 2)) <==> m < n
    ensures Padded(m, 2) == Padded(n, 2) <==> m == n
  {
    var a, b := TwoDigitsOf(m);
    var c, e := TwoDigitsOf(n);
    PaddedTwo(a, b);
    PaddedTwo(c, e);
    LessPair(a, b, c, e);
  }

  lemma LessFour(m: nat, n: nat)
    requires m < 10_000 && n < 10_000
    ensures Less(Padded(m, 4), Padded(n, 4)) <==> m < n
    ensures Padded(m, 4) == Padded(n, 4) <==> m == n
  {
    var a, b, c, e := FourDigitsOf(m);
    var a', b', c', e' := FourDigitsOf(n);
    PaddedFour(a, b, c, e);
    PaddedFour(a', b', c', e');
    LessPair(a, b, a', b');
    LessPair(c, e, c', e');
    WriteFour(m);
    WriteFour(n);
    LessParts(Two(a, b), Two(a', b'), Two(c, e), Two(c', e'));
  }

  /** String order on printed dates is calendar order. */
  lemma PrintedOrderIsCalendarOrder(a: Date, b: Date)
    requires IsDate(a) && IsDate(b) && a.year <= 9999 && b.year <= 9999
    ensures Less(Print(a), Print(b)) <==> Earlier(a, b)
  {
    LessFour(a.year, b.year);
    LessTwo(a.month, b.month);
    LessTwo(a.day, b.day);
    WriteFour(a.year);
    WriteFour(b.year);
    WriteTwo(a.month);
    WriteTwo(b.month);
    LessDashed(Padded(a.year, 4), Padded(a.month, 2), Padded(a.day, 2), Padded(b.year, 4), Padded(b.month, 2), Padded(b.day, 2));
    NotLessSelf(Padded(a.year, 4));
    NotLessSelf(Padded(a.month, 2));
  }

  lemma LessDashed(y: seq<byte>, m: seq<byte>, d: seq<byte>, y': seq<byte>, m': seq<byte>, d': seq<byte>)
    requires |y| == |y'| && |m| == |m'|
    ensures Less(y + [DASH] + m + [DASH] + d, y' + [DASH] + m' + [DASH] + d')
        <==> Less(y, y') || (y == y' && (Less(m, m') || (m == m' && Less(d, d'))))
  {
    var r, r' := [DASH] + m + [DASH] + d, [DASH] + m' + [DASH] + d';
    assert y + [DASH] + m + [DASH] + d == y + r && y' + [DASH] + m' + [DASH] + d' == y' + r';
    LessParts(y, y', r, r');
    var t, t' := [DASH] + d, [DASH] + d';
    assert r == [DASH] + (m + t) && r' == [DASH] + (m' + t');
    LessParts([DASH], [DASH], m + t, m' + t');
    LessParts(m, m', t, t');
    LessParts([DASH], [DASH], d, d');
    NotLessSelf([DASH]);
  }

  // ---------------------------------------------------------------------------------- the cutoff

  /** Days from January 1st of year 0 to the Unix epoch, 1970-01-01. */
  const EPOCH_DAY := 719_528

  lemma NextMultiple(n: nat, k: nat)
    requires k in {4, 100, 400}
    ensures (n + 1) / k == n / k + if (n + 1) % k == 0 then 1 else 0
  {
    if k == 4 {
    } else if k == 100 {
    } else {
    }
  }

  function LeapsThrough(year: nat): int { year / 4 - year / 100 + year / 400 }

  lemma {:induction false} DaysBeforeYearClosed(year: nat)
    ensures DaysBeforeYear(year + 1) == 365 * (year + 1) + LeapsThrough(year) + 1
  {
    if year > 0 {
      DaysBeforeYearClosed(year - 1);
      NextMultiple(year - 1, 4);
      NextMultiple(year - 1, 100);
      NextMultiple(year - 1, 400);
      Multiples(year);
      assert DaysBeforeYear(year + 1) == DaysBeforeYear(year) + YearLength(year);
    } else {
      assert DaysBeforeYear(1) == DaysBeforeYear(0) + YearLength(0);
    }
  }

  lemma MultipleOf(m: nat)
    ensures (100 * m) % 100 == 0 && (4 * m) % 4 == 0
  {
  }

  lemma Multiples(n: nat)
    ensures n % 400 == 0 ==> n % 100 == 0
    ensures n % 100 == 0 ==> n % 4 == 0
  {
    MultipleOf(4 * (n / 400));
    MultipleOf(25 * (n / 100));
  }

  function Day(seconds: nat): nat { EPOCH_DAY + seconds / SECONDS_PER_DAY }

  /** The clock starts on 1 January 1970 and a day has 86,400 seconds. */
  lemma EpochDay(seconds: nat)
    ensures Day(seconds) == DayNumber(Date(1970, 1, 1)) + seconds / 86_400
  {
    DaysBeforeYearClosed(1969);
  }

  /** `utc_day` of a time given in seconds since the epoch; earlier times are refused. */
  function UtcDay(seconds: int): Option<seq<byte>> {
    if seconds < 0 then None else Some(Print(DateOf(Day(seconds))))
  }

  /** The cutoff of `cleanup_retention`. */
  function Cutoff(now: nat): Option<seq<byte>> {
    UtcDay(now - RETENTION_DAYS * SECONDS_PER_DAY)
  }

  /** The test of `cleanup_retention` that makes an entry a candidate. */
  predicate IsExpired(name: seq<byte>, cutoff: seq<byte>) {
    StrictDay(name) && Less(name, cutoff)
  }

  /** While the cutoff has a four-digit year, the string test expires an entry exactly when
      its day is more than 32 days before today. */
  lemma ExpiredMeansOlderThanRetention(name: seq<byte>, now: nat)
    requires StrictDay(name) && Cutoff(now).Some?
    requires DateOf(Day(now - RETENTION_DAYS * SECONDS_PER_DAY)).year <= 9999
    ensures IsExpired(name, Cutoff(now).value) <==> DayNumber(Parse(name)) < Day(now) - 32
  {
    var limit := Day(now - RETENTION_DAYS * SECONDS_PER_DAY);
    assert limit == Day(now) - RETENTION_DAYS;
    StrictDayIsPrintedDate(name);
    var d: Date :| IsDate(d) && d.year <= 9999 && Print(d) == name;
    PrintedIsStrict(d);
    PrintedOrderIsCalendarOrder(d, DateOf(limit));
    OrderIsDayOrder(d, DateOf(limit));
    DayNumberOfDate(limit);
  }

  const NINES: seq<byte> := [57, 57, 57, 57]

  lemma {:induction false} DigitsLong(n: nat)
    ensures n >= 10_000 ==> |Digits(n)| >= 5
    ensures n >= 1000 ==> |Digits(n)| >= 4
    ensures n >= 100 ==> |Digits(n)| >= 3
    ensures n >= 10 ==> |Digits(n)| >= 2
  {
    if n >= 10 { DigitsLong(n / 10); }
  }

  /** Against a longer year the comparison stops within its first four digits: every strict
      name of at most those digits is before it, and no other is. */
  lemma LessThanLongYear(name: seq<byte>, limit: Date)
    requires StrictDay(name) && IsDate(limit) && limit.year >= 10_000
    ensures |Digits(limit.year)| >= 5
    ensures Less(name, Print(limit)) <==> Less(name[..4], Digits(limit.year)[..4]) || name[..4] == Digits(limit.year)[..4]
  {
    DigitsLong(limit.year);
    var digits := Digits(limit.year);
    assert Print(limit) == digits[..4] + (digits[4..] + [DASH] + Padded(limit.month, 2) + [DASH] + Padded(limit.day, 2));
    assert name == name[..4] + name[4..];
    LessParts(name[..4], digits[..4], name[4..], digits[4..] + [DASH] + Padded(limit.month, 2) + [DASH] + Padded(limit.day, 2));
  }

  lemma NothingAboveNines(s: seq<byte>)
    requires |s| == 4 && forall i :: 0 <= i < 4 ==> IsDigit(s[i])
    ensures Less(s, NINES) || s == NINES
    ensures !Less(NINES, s)
  {
    ReadFour(s);
    ReadFour(NINES);
    LessFour(Value(s), 9999);
    LessFour(9999, Value(s));
    assert NINES == Two(9, 9) + Two(9, 9);
    ValueFour(9, 9, 9, 9);
  }

  /** Exactly when the string test is right about every strict name: the cutoff's year has four
      digits, or begins with 9999. */
  lemma StringTestIsRight(now: nat)
    requires Cutoff(now).Some?
    ensures var limit := DateOf(Day(now - RETENTION_DAYS * SECONDS_PER_DAY));
            (forall name :: StrictDay(name) ==> (IsExpired(name, Cutoff(now).value) <==> DayNumber(Parse(name)) < Day(now) - 32))
            <==> limit.year <= 9999 || NINES <= Digits(limit.year)
  {
    var limit := DateOf(Day(now - RETENTION_DAYS * SECONDS_PER_DAY));
    if limit.year <= 9999 {
      forall name | StrictDay(name)
        ensures IsExpired(name, Cutoff(now).value) <==> DayNumber(Parse(name)) < Day(now) - RETENTION_DAYS
      {
        ExpiredMeansOlderThanRetention(name, now);
      }
    } else {
      forall name | StrictDay(name)
        ensures DayNumber(Parse(name)) < Day(now) - RETENTION_DAYS
        ensures NINES <= Digits(limit.year) ==> Less(name, Print(limit))
      {
        DayNumberOfDate(Day(now - RETENTION_DAYS * SECONDS_PER_DAY));
        AllNamesAreOlder(name, limit);
      }
      if !(NINES <= Digits(limit.year)) { LastNameIsMissed(limit); }
    }
  }

  lemma AllNamesAreOlder(name: seq<byte>, limit: Date)
    requires StrictDay(name) && IsDate(limit) && limit.year >= 10_000
    ensures DayNumber(Parse(name)) < DayNumber(limit)
    ensures NINES <= Digits(limit.year) ==> Less(name, Print(limit))
  {
    ReadFour(name[0..4]);
    OrderIsDayOrder(Parse(name), limit);
    LessThanLongYear(name, limit);
    NothingAboveNines(name[..4]);
    if NINES <= Digits(limit.year) { assert Digits(limit.year)[..4] == NINES; }
  }

  lemma LastNameIsMissed(limit: Date)
    requires IsDate(limit) && limit.year >= 10_000 && !(NINES <= Digits(limit.year))
    ensures StrictDay(Print(Date(9999, 12, 31))) && !Less(Print(Date(9999, 12, 31)), Print(limit))
  {
    var last := Date(9999, 12, 31);
    PrintedIsStrict(last);
    LessThanLongYear(Print(last), limit);
    PaddedFour(9, 9, 9, 9);
    assert Print(last)[..4] == NINES;
    NothingAboveNines(Digits(limit.year)[..4]);
    NotBoth(NINES, Digits(limit.year)[..4]);
  }

  lemma {:induction false} NotBoth(a: seq<byte>, b: seq<byte>)
    ensures !(Less(a, b) && Less(b, a))
  {
    if a != [] && b != [] { NotBoth(a[1..], b[1..]); }
  }

  /** A clock whose cutoff falls on 1 January of the year 10000. */
  const FIVE_DIGIT_CLOCK: nat := (3_652_425 + RETENTION_DAYS - EPOCH_DAY) * SECONDS_PER_DAY

  lemma YearTenThousand()
    ensures DayNumber(Date(10_000, 1, 1)) == 3_652_425
  {
    DaysBeforeYearClosed(9999);
  }

  /** Such a clock exists: from the year 10000 on the string test keeps names it should expire. */
  lemma StringTestCanFail()
    ensures Cutoff(FIVE_DIGIT_CLOCK).Some?
    ensures exists name :: StrictDay(name) && !IsExpired(name, Cutoff(FIVE_DIGIT_CLOCK).value)
                           && DayNumber(Parse(name)) < Day(FIVE_DIGIT_CLOCK) - 32
  {
    CutoffIsTenThousand();
    TenThousandDigits();
    LastNameIsMissed(Date(10_000, 1, 1));
    AllNamesAreOlder(Print(Date(9999, 12, 31)), Date(10_000, 1, 1));
    YearTenThousand();
  }

  lemma CutoffIsTenThousand()
    ensures Day(FIVE_DIGIT_CLOCK) - RETENTION_DAYS == 3_652_425
    ensures Cutoff(FIVE_DIGIT_CLOCK) == Some(Print(Date(10_000, 1, 1)))
  {
    YearTenThousand();
    CutoffIs(FIVE_DIGIT_CLOCK, Date(10_000, 1, 1));
  }

  lemma CutoffIs(now: nat, limit: Date)
    requires IsDate(limit) && DayNumber(limit) == Day(now) - RETENTION_DAYS && now >= RETENTION_DAYS * SECONDS_PER_DAY
    ensures Cutoff(now) == Some(Print(limit))
  {
    var n := Day(now - RETENTION_DAYS * SECONDS_PER_DAY);
    DayNumberOfDate(n);
    OrderIsDayOrder(DateOf(n), limit);
  }

  lemma TenThousandDigits()
    ensures !(NINES <= Digits(10_000))
  {
    assert Digits(10) == [49, 48];
    assert Digits(1000) == Digits(100) + [48] == Digits(10) + [48] + [48];
    assert Digits(10_000) == Digits(1000) + [48];
    assert Digits(10_000)[0] == 49;
  }
}
