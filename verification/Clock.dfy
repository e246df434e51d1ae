/** Instants of UTC time in microseconds, their calendar fields, and their ISO 8601 text. */
module Clock {
  import opened Text

  /** The fields of a timezone-aware datetime already converted to UTC. */
  datatype Fields = Fields(year: nat, month: nat, day: nat, hour: nat, minute: nat, second: nat, micro: nat)

  predicate Leap(y: nat) {
    y % 4 == 0 && (y % 100 != 0 || y % 400 == 0)
  }

  function DaysInMonth(y: nat, m: nat): nat {
    if m == 2 then (if Leap(y) then 29 else 28)
    else if m in {4, 6, 9, 11} then 30
    else 31
  }

  predicate ValidFields(d: Fields) {
    && 1 <= d.year <= 9999 && 1 <= d.month <= 12 && 1 <= d.day <= DaysInMonth(d.year, d.month)
    && d.hour < 24 && d.minute < 60 && d.second < 60 && d.micro < 1_000_000
  }

  type DateTime = d: Fields | ValidFields(d) witness Fields(1, 1, 1, 0, 0, 0, 0)

  // Durations in microseconds.
  const MINUTE: int := 60_000_000
  const HOUR: int := 3_600_000_000
  const DAY: int := 86_400_000_000

  /** A UTC datetime, as the microseconds since the day before 0001-01-01; every instant of the
      years 1 to 9999. Differences of instants are timedeltas. */
  type Instant = t: int | 86_400_000_000 <= t < 315_537_984_000_000_000 witness 86_400_000_000

  // ----- the calendar -----

  function DaysBeforeYear(y: nat): nat
    requires 1 <= y
  {
    if y == 1 then 0 else DaysBeforeYear(y - 1) + if Leap(y - 1) then 366 else 365
  }

  function DaysBeforeMonth(y: nat, m: nat): nat
    requires 1 <= m
  {
    if m == 1 then 0 else DaysBeforeMonth(y, m - 1) + DaysInMonth(y, m - 1)
  }

  function Ordinal(d: Fields): nat
    requires 1 <= d.year && 1 <= d.month
  {
    DaysBeforeYear(d.year) + DaysBeforeMonth(d.year, d.month) + d.day
  }

  /** The instant the fields of `d` name. */
  function Micros(d: DateTime): int {
    Ordinal(d) * 86_400_000_000 + d.hour * 3_600_000_000 + d.minute * 60_000_000 + d.second * 1_000_000 + d.micro
  }

  /** The order Python gives two UTC datetimes: field by field. */
  predicate Before(a: Fields, b: Fields) {
    a.year < b.year || (a.year == b.year &&
    (a.month < b.month || (a.month == b.month &&
    (a.day < b.day || (a.day == b.day &&
    (a.hour < b.hour || (a.hour == b.hour &&
    (a.minute < b.minute || (a.minute == b.minute &&
    (a.second < b.second || (a.second == b.second && a.micro < b.micro)))))))))))
  }

  lemma {:induction false} YearsAscend(y: nat, z: nat)
    requires 1 <= y < z
    ensures DaysBeforeYear(y) + (if Leap(y) then 366 else 365) <= DaysBeforeYear(z)
  {
    if y + 1 < z {
      YearsAscend(y, z - 1);
    }
  }

  lemma {:induction false} MonthsAscend(y: nat, m: nat, n: nat)
    requires 1 <= m < n
    ensures DaysBeforeMonth(y, m) + DaysInMonth(y, m) <= DaysBeforeMonth(y, n)
  {
    if m + 1 < n {
      MonthsAscend(y, m, n - 1);
    }
  }

  lemma {:induction false} YearHoldsItsMonths(y: nat)
    ensures DaysBeforeMonth(y, 12) + 31 == if Leap(y) then 366 else 365
  {
    assert DaysBeforeMonth(y, 2) == 31;
    assert DaysBeforeMonth(y, 3) == DaysInMonth(y, 2) + 31;
    assert DaysBeforeMonth(y, 5) == DaysInMonth(y, 2) + 92;
    assert DaysBeforeMonth(y, 7) == DaysInMonth(y, 2) + 153;
    assert DaysBeforeMonth(y, 9) == DaysInMonth(y, 2) + 215;
    assert DaysBeforeMonth(y, 11) == DaysInMonth(y, 2) + 276;
  }

  lemma DayInYear(d: DateTime)
    ensures DaysBeforeMonth(d.year, d.month) + d.day <= if Leap(d.year) then 366 else 365
  {
    YearHoldsItsMonths(d.year);
    if d.month < 12 {
      MonthsAscend(d.year, d.month, 12);
    }
  }

  lemma OrdinalsAscend(a: DateTime, b: DateTime)
    requires a.year < b.year || (a.year == b.year && (a.month < b.month || (a.month == b.month && a.day < b.day)))
    ensures Ordinal(a) < Ordinal(b)
  {
    if a.year < b.year {
      YearsAscend(a.year, b.year);
      DayInYear(a);
    } else if a.month < b.month {
      MonthsAscend(a.year, a.month, b.month);
    }
  }

  lemma InstantsAscend(a: DateTime, b: DateTime)
    requires Before(a, b)
    ensures Micros(a) < Micros(b)
  {
    if a.year == b.year && a.month == b.month && a.day == b.day {
    } else {
      OrdinalsAscend(a, b);
    }
  }

  lemma BeforeTotal(a: Fields, b: Fields)
    ensures Before(a, b) || a == b || Before(b, a)
  {
  }

  /** Field order and instant order are one order, so an instant names one datetime. */
  lemma BeforeIsInstantOrder(a: DateTime, b: DateTime)
    ensures Before(a, b) <==> Micros(a) < Micros(b)
    ensures Micros(a) == Micros(b) ==> a == b
  {
    BeforeTotal(a, b);
    if Before(a, b) {
      InstantsAscend(a, b);
    } else if Before(b, a) {
      InstantsAscend(b, a);
    }
  }

  // ----- text -----

  /** `datetime.isoformat()`: six fractional digits, or none when they are all zero. */
  function Fraction(micro: nat): string {
    (if micro == 0 then "" else "." + Pad(micro, 6)) + "+00:00"
  }

  function TimeText(d: Fields): string {
    Pad(d.hour, 2) + (":" + (Pad(d.minute, 2) + (":" + (Pad(d.second, 2) + Fraction(d.micro)))))
  }

  function IsoFormat(d: DateTime): string {
    Pad(d.year, 4) + ("-" + (Pad(d.month, 2) + ("-" + (Pad(d.day, 2) + ("T" + TimeText(d))))))
  }

  lemma Powers()
    ensures Pow10(2) == 100 && Pow10(4) == 10_000 && Pow10(6) == 1_000_000
  {
    assert Pow10(3) == 1000;
  }

  /** The step that needs '+' to sort before '.': the fraction may be missing on one side. */
  lemma FractionOrder(m: nat, n: nat)
    requires m < 1_000_000 && n < 1_000_000
    ensures Less(Fraction(m), Fraction(n)) <==> m < n
  {
    Powers();
    if m == 0 && n == 0 {
      LessIrreflexive(Fraction(0));
    } else if m == 0 || n == 0 {
      assert '+' < '.';
      var z, f := if m == 0 then Fraction(m) else Fraction(n), if m == 0 then Fraction(n) else Fraction(m);
      assert z[0] == '+' && f[0] == '.';
    } else {
      assert Fraction(m) == "." + (Pad(m, 6) + "+00:00") && Fraction(n) == "." + (Pad(n, 6) + "+00:00");
      LessAfterPrefix(".", Pad(m, 6) + "+00:00", Pad(n, 6) + "+00:00");
      FieldOrder(m, n, 6, "+00:00", "+00:00");
      LessIrreflexive("+00:00");
    }
  }

  lemma TimeTextOrder(a: DateTime, b: DateTime)
    ensures Less(TimeText(a), TimeText(b)) <==>
            a.hour < b.hour || (a.hour == b.hour &&
            (a.minute < b.minute || (a.minute == b.minute &&
            (a.second < b.second || (a.second == b.second && a.micro < b.micro)))))
  {
    Powers();
    var x2, y2 := Pad(a.second, 2) + Fraction(a.micro), Pad(b.second, 2) + Fraction(b.micro);
    var x1, y1 := Pad(a.minute, 2) + (":" + x2), Pad(b.minute, 2) + (":" + y2);
    FractionOrder(a.micro, b.micro);
    FieldOrder(a.second, b.second, 2, Fraction(a.micro), Fraction(b.micro));
    LessAfterPrefix(":", x2, y2);
    FieldOrder(a.minute, b.minute, 2, ":" + x2, ":" + y2);
    LessAfterPrefix(":", x1, y1);
    FieldOrder(a.hour, b.hour, 2, ":" + x1, ":" + y1);
  }

  lemma FieldsTextOrder(a: DateTime, b: DateTime)
    ensures Less(IsoFormat(a), IsoFormat(b)) <==> Micros(a) < Micros(b)
  {
    Powers();
    BeforeIsInstantOrder(a, b);
    var x2, y2 := Pad(a.day, 2) + ("T" + TimeText(a)), Pad(b.day, 2) + ("T" + TimeText(b));
    var x1, y1 := Pad(a.month, 2) + ("-" + x2), Pad(b.month, 2) + ("-" + y2);
    TimeTextOrder(a, b);
    LessAfterPrefix("T", TimeText(a), TimeText(b));
    FieldOrder(a.day, b.day, 2, "T" + TimeText(a), "T" + TimeText(b));
    LessAfterPrefix("-", x2, y2);
    FieldOrder(a.month, b.month, 2, "-" + x2, "-" + y2);
    LessAfterPrefix("-", x1, y1);
    FieldOrder(a.year, b.year, 4, "-" + x1, "-" + y1);
  }

  // ----- parsing -----

  datatype Parsed = NotIso | Iso(value: int)

  function ParseFields(s: string): Fields
    requires |s| == 25 || |s| == 32
  {
    Fields(ParseDigits(s[0..4]), ParseDigits(s[5..7]), ParseDigits(s[8..10]),
           ParseDigits(s[11..13]), ParseDigits(s[14..16]), ParseDigits(s[17..19]),
           if |s| == 32 then ParseDigits(s[20..26]) else 0)
  }

  predicate Laid(s: string) {
    && (|s| == 25 || (|s| == 32 && s[19] == '.'))
    && s[4] == '-' && s[7] == '-' && s[10] == 'T' && s[13] == ':' && s[16] == ':'
    && s[|s| - 6..] == "+00:00"
  }

  /** `datetime.fromisoformat`, on the one layout `isoformat` prints for UTC. */
  function ParseIso(s: string): Parsed {
    if Laid(s) && ValidFields(ParseFields(s)) then Iso(Micros(ParseFields(s))) else NotIso
  }

  lemma TimeLayout(d: Fields, t: string)
    requires t == TimeText(d)
    ensures |t| == 8 + |Fraction(d.micro)|
    ensures t[0..2] == Pad(d.hour, 2) && t[3..5] == Pad(d.minute, 2) && t[6..8] == Pad(d.second, 2)
    ensures t[2] == ':' && t[5] == ':' && t[8..] == Fraction(d.micro)
  {
  }

  lemma DateLayout(d: Fields, t: string, s: string)
    requires s == Pad(d.year, 4) + ("-" + (Pad(d.month, 2) + ("-" + (Pad(d.day, 2) + ("T" + t)))))
    ensures |s| == 11 + |t| && s[11..] == t
    ensures s[0..4] == Pad(d.year, 4) && s[5..7] == Pad(d.month, 2) && s[8..10] == Pad(d.day, 2)
    ensures s[4] == '-' && s[7] == '-' && s[10] == 'T'
  {
  }

  lemma {:induction false} FractionLayout(micro: nat, f: string)
    requires f == Fraction(micro)
    ensures if micro == 0 then |f| == 6 else |f| == 13 && f[0] == '.' && f[1..7] == Pad(micro, 6)
    ensures f[|f| - 6..] == "+00:00"
  {
  }

  lemma SliceOfTail(s: string, t: string, at: nat, i: nat, j: nat)
    requires at <= |s| && s[at..] == t && i <= j <= |t|
    ensures s[at + i..at + j] == t[i..j]
  {
    var l, r := s[at + i..at + j], t[i..j];
    assert |s| == at + |t| && |l| == |r|;
    forall k | 0 <= k < |l|
      ensures l[k] == r[k]
    {
      assert s[at..][i + k] == s[at + i + k];
    }
  }

  lemma FieldsPrinted(d: DateTime, s: string)
    requires s == IsoFormat(d)
    ensures Laid(s)
    ensures s[0..4] == Pad(d.year, 4) && s[5..7] == Pad(d.month, 2) && s[8..10] == Pad(d.day, 2)
    ensures s[11..13] == Pad(d.hour, 2) && s[14..16] == Pad(d.minute, 2) && s[17..19] == Pad(d.second, 2)
    ensures if d.micro == 0 then |s| == 25 else |s| == 32 && s[20..26] == Pad(d.micro, 6)
  {
    var t, f := TimeText(d), Fraction(d.micro);
    DateLayout(d, t, s);
    TimeLayout(d, t);
    FractionLayout(d.micro, f);
    SliceOfTail(s, t, 11, 0, 2);
    SliceOfTail(s, t, 11, 3, 5);
    SliceOfTail(s, t, 11, 6, 8);
    SliceOfTail(s, t, 11, 8, |t|);
    assert s[13] == t[2] && s[16] == t[5];
    SliceOfTail(s, f, 19, |f| - 6, |f|);
    if d.micro != 0 {
      SliceOfTail(s, f, 19, 1, 7);
      assert s[19] == f[0];
    }
  }

  lemma FieldsParsed(d: DateTime)
    ensures ParseIso(IsoFormat(d)) == Iso(Micros(d))
  {
    Powers();
    FieldsPrinted(d, IsoFormat(d));
    ParseDigitsPad(d.year, 4);
    ParseDigitsPad(d.month, 2);
    ParseDigitsPad(d.day, 2);
    ParseDigitsPad(d.hour, 2);
    ParseDigitsPad(d.minute, 2);
    ParseDigitsPad(d.second, 2);
    if d.micro != 0 {
      ParseDigitsPad(d.micro, 6);
    }
  }

  // ----- from instants to fields -----

  lemma {:induction false} NextQuotients(n: nat)
    ensures (n + 1) / 4 == n / 4 + (if (n + 1) % 4 == 0 then 1 else 0)
    ensures (n + 1) / 100 == n / 100 + (if (n + 1) % 100 == 0 then 1 else 0)
    ensures (n + 1) / 400 == n / 400 + (if (n + 1) % 400 == 0 then 1 else 0)
    ensures (n + 1) % 400 == 0 ==> (n + 1) % 100 == 0
    ensures (n + 1) % 100 == 0 ==> (n + 1) % 4 == 0
  {
  }

  /** The Gregorian day count in closed form. */
  lemma {:induction false} DayCount(y: nat)
    requires 1 <= y
    ensures DaysBeforeYear(y) == 365 * (y - 1) + (y - 1) / 4 - (y - 1) / 100 + (y - 1) / 400
  {
    if y > 1 {
      DayCount(y - 1);
      NextQuotients(y - 2);
    }
  }

  /** The year that contains day `day` of the calendar, looking from year `y` on. */
  function YearAt(day: nat, y: nat): (r: nat)
    requires 1 <= y <= 9999 && DaysBeforeYear(y) < day <= DaysBeforeYear(10_000)
    ensures y <= r <= 9999 && DaysBeforeYear(r) < day <= DaysBeforeYear(r + 1)
    decreases 9999 - y
  {
    if day <= DaysBeforeYear(y + 1) then y else YearAt(day, y + 1)
  }

  /** The month of year `y` that contains day `day` of the year, looking from month `m` on. */
  function MonthAt(y: nat, day: nat, m: nat): (r: nat)
    requires 1 <= m <= 12 && DaysBeforeMonth(y, m) < day <= DaysBeforeMonth(y, 13)
    ensures m <= r <= 12 && DaysBeforeMonth(y, r) < day <= DaysBeforeMonth(y, r) + DaysInMonth(y, r)
    decreases 12 - m
  {
    if day <= DaysBeforeMonth(y, m + 1) then m else MonthAt(y, day, m + 1)
  }

  lemma {:induction false} DayInRange(t: Instant)
    ensures 1 <= t / 86_400_000_000 <= DaysBeforeYear(10_000)
  {
    DayCount(10_000);
  }

  lemma {:induction false} YearFull(y: nat)
    requires 1 <= y
    ensures DaysBeforeMonth(y, 13) == DaysBeforeYear(y + 1) - DaysBeforeYear(y)
  {
    YearHoldsItsMonths(y);
  }

  lemma {:induction false} TimeOfDay(rest: nat)
    requires rest < 86_400_000_000
    ensures rest / 3_600_000_000 < 24
    ensures rest == rest / 3_600_000_000 * 3_600_000_000 + rest / 60_000_000 % 60 * 60_000_000
                    + rest / 1_000_000 % 60 * 1_000_000 + rest % 1_000_000
  {
    var seconds := rest / 1_000_000;
    assert rest == seconds * 1_000_000 + rest % 1_000_000;
    assert rest / 60_000_000 == seconds / 60 && rest / 3_600_000_000 == seconds / 3600;
    var minutes := seconds / 60;
    assert seconds == minutes * 60 + seconds % 60;
    assert seconds / 3600 == minutes / 60;
    assert minutes == minutes / 60 * 60 + minutes % 60;
  }

  /** The calendar fields of an instant. */
  function FieldsOf(t: Instant): (d: Fields)
    ensures ValidFields(d) && Micros(d) == t
  {
    DayInRange(t);
    var day, rest := t / 86_400_000_000, t % 86_400_000_000;
    var year := YearAt(day, 1);
    YearFull(year);
    TimeOfDay(rest);
    var month := MonthAt(year, day - DaysBeforeYear(year), 1);
    Fields(year, month, day - DaysBeforeYear(year) - DaysBeforeMonth(year, month),
           rest / 3_600_000_000, rest / 60_000_000 % 60, rest / 1_000_000 % 60, rest % 1_000_000)
  }

  /** `isoformat()` of the datetime at an instant. */
  function IsoText(t: Instant): string {
    IsoFormat(FieldsOf(t))
  }

  /** The printed layout: `YYYY-MM-DDTHH:MM:SS`, six fractional digits unless they are all zero, and
      the UTC offset. */
  lemma {:induction false} IsoLayout(t: Instant)
    ensures var s, d := IsoText(t), FieldsOf(t);
            && |s| == (if d.micro == 0 then 25 else 32)
            && s[4] == '-' && s[7] == '-' && s[10] == 'T' && s[13] == ':' && s[16] == ':' && (d.micro != 0 ==> s[19] == '.')
            && s[|s| - 6..] == "+00:00"
            && s[0..4] == Pad(d.year, 4) && s[5..7] == Pad(d.month, 2) && s[8..10] == Pad(d.day, 2)
            && s[11..13] == Pad(d.hour, 2) && s[14..16] == Pad(d.minute, 2) && s[17..19] == Pad(d.second, 2)
            && (d.micro != 0 ==> s[20..26] == Pad(d.micro, 6))
  {
    FieldsPrinted(FieldsOf(t), IsoText(t));
  }

  /** Comparing the stored text compares the instants, for every year 1 to 9999. */
  lemma {:induction false} IsoOrder(a: Instant, b: Instant)
    ensures Less(IsoText(a), IsoText(b)) <==> a < b
  {
    FieldsTextOrder(FieldsOf(a), FieldsOf(b));
  }

  /** Parsing inverts printing. */
  lemma {:induction false} ParsePrinted(t: Instant)
    ensures ParseIso(IsoText(t)) == Iso(t)
  {
    FieldsParsed(FieldsOf(t));
  }
}
