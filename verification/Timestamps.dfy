/** Timestamps as the SQLite backend stores them: RFC 3339 text with a four-digit year
    (past 9999 a signed and wider one), 0, 3, 6 or 9 fraction digits (the shortest that is
    exact) and the offset `+00:00`.
    The sweepers and the due lists compare these columns as text, so everything they
    decide rests on text order being time order. */
module Timestamps {
  import opened Calendar
  import opened Decimals
  import opened Wrappers

  /** Byte-wise order of text columns. */
  predicate Before(s: string, t: string) {
    if t == [] then false
    else if s == [] then true
    else if s[0] != t[0] then s[0] < t[0]
    else Before(s[1..], t[1..])
  }

  predicate AtOrBefore(s: string, t: string) { s == t || Before(s, t) }

  const UTC := "+00:00"

  function Nano(t: nat): nat { TimeOfDay(t) % 1_000_000_000 }

  function SecondOfDay(t: nat): nat { TimeOfDay(t) / 1_000_000_000 }

  /** Instants whose year has four digits; the only ones a text column can hold in order. */
  predicate Writable(t: int) {
    0 <= t && DateOf(DayOf(t)).year <= 9999
  }

  /** That is every instant before the year `y` = 10 000: the first 3 652 425 days. */
  lemma WritableInstants(t: nat, y: nat)
    requires y == 10_000
    ensures Writable(t) <==> DayOf(t) < 3_652_425
  {
    hide DaysBeforeYear, DaysBeforeMonth, DayNumber, DateOf;
    YearsInClosedForm(y);
    var d := DateOf(DayOf(t));
    DayNumberInYear(d);
    if d.year < y { YearsMonotone(d.year + 1, y); } else { YearsMonotone(y, d.year); }
  }

  /** Four digits, or a sign and as many as it takes. */
  function YearText(y: nat): (s: string)
    ensures y <= 9999 ==> |s| == 4
  {
    if y <= 9999 then Digits(y, 4) else "+" + Decimal(y)
  }

  function DateText(d: Date): (s: string)
    ensures d.year <= 9999 ==> |s| == 10
  {
    YearText(d.year) + ("-" + (Digits(d.month, 2) + ("-" + Digits(d.day, 2))))
  }

  datatype Clock = Clock(hour: nat, minute: nat, second: nat)

  function ClockOf(sec: nat): (c: Clock)
    ensures c.minute < 60 && c.second < 60 && c.hour * 3600 + c.minute * 60 + c.second == sec
  {
    var minutes := sec / 60;
    Clock(minutes / 60, minutes % 60, sec % 60)
  }

  function ClockText(c: Clock): (s: string)
    ensures |s| == 8
  {
    Digits(c.hour, 2) + (":" + (Digits(c.minute, 2) + (":" + Digits(c.second, 2))))
  }

  /** The shortest of 0, 3, 6 and 9 digits that loses nothing. */
  function FractionWidth(nano: nat): nat {
    if nano == 0 then 0 else if nano % 1_000_000 == 0 then 3 else if nano % 1_000 == 0 then 6 else 9
  }

  function Scaled(nano: nat): nat {
    if nano == 0 then 0
    else if nano % 1_000_000 == 0 then nano / 1_000_000
    else if nano % 1_000 == 0 then nano / 1_000
    else nano
  }

  function FractionText(nano: nat): string {
    if nano == 0 then "" else "." + Digits(Scaled(nano), FractionWidth(nano))
  }

  /** A timestamp field by field. */
  datatype Fields = Fields(date: Date, clock: Clock, nano: nat) {
    predicate Valid() {
      date.Valid() && clock.hour < 24 && clock.minute < 60 && clock.second < 60 && nano < 1_000_000_000
    }

    function Text(): string {
      DateText(date) + ("T" + (ClockText(clock) + (FractionText(nano) + UTC)))
    }

    function Instant(): int
      requires Valid()
    {
      DayStart(DayNumber(date)) + (clock.hour * 3600 + clock.minute * 60 + clock.second) * 1_000_000_000 + nano
    }
  }

  function FieldsOf(t: nat): Fields {
    Fields(DateOf(DayOf(t)), ClockOf(SecondOfDay(t)), Nano(t))
  }

  function Format(t: nat): string { FieldsOf(t).Text() }

  // ---- text order ----------------------------------------------------------------

  lemma {:induction false} CommonPrefix(p: string, s: string, t: string)
    ensures Before(p + s, p + t) <==> Before(s, t)
  {
    if p == [] {
      assert p + s == s && p + t == t;
    } else {
      assert (p + s)[1..] == p[1..] + s && (p + t)[1..] == p[1..] + t;
      CommonPrefix(p[1..], s, t);
    }
  }

  lemma {:induction false} BeforeAsymmetric(s: string, t: string)
    ensures !(Before(s, t) && Before(t, s))
    ensures !Before(s, s)
  {
    if s != [] {
      BeforeAsymmetric(s[1..], if t == [] then [] else t[1..]);
    }
  }

  lemma {:induction false} SmallerNumber(x: nat, y: nat, w: nat, s: string, t: string)
    requires x < y < Pow10(w)
    ensures Before(Digits(x, w) + s, Digits(y, w) + t)
  {
    var s', t' := [Digit(x % 10)] + s, [Digit(y % 10)] + t;
    assert Digits(x, w) + s == Digits(x / 10, w - 1) + s';
    assert Digits(y, w) + t == Digits(y / 10, w - 1) + t';
    if x / 10 == y / 10 {
      CommonPrefix(Digits(x / 10, w - 1), s', t');
    } else {
      SmallerNumber(x / 10, y / 10, w - 1, s', t');
    }
  }

  lemma LastThree(n: nat, w: nat)
    ensures Digits(n, w + 3)
         == Digits(n / 1000, w) + [Digit(n / 100 % 10), Digit(n / 10 % 10), Digit(n % 10)]
  {
    assert n / 10 / 10 / 10 == n / 1000 && n / 10 / 10 == n / 100;
    assert Digits(n, w + 3) == Digits(n / 10, w + 2) + [Digit(n % 10)];
    assert Digits(n / 10, w + 2) == Digits(n / 100, w + 1) + [Digit(n / 10 % 10)];
    assert Digits(n / 100, w + 1) == Digits(n / 1000, w) + [Digit(n / 100 % 10)];
  }

  /** A shorter fraction sorts before every longer one that extends it: `+` precedes
      the digits. `s` continues the longer number. */
  lemma ShorterFraction(x: nat, y: nat, w: nat, s: string)
    requires x <= y < Pow10(w) && s != [] && '0' <= s[0]
    ensures Before(Digits(x, w) + UTC, Digits(y, w) + s)
  {
    if x == y {
      CommonPrefix(Digits(x, w), UTC, s);
    } else {
      SmallerNumber(x, y, w, UTC, s);
    }
  }

  lemma LongerFraction(x: nat, y: nat, w: nat, s: string)
    requires x < y < Pow10(w)
    ensures Before(Digits(x, w) + s, Digits(y, w) + UTC)
  {
    SmallerNumber(x, y, w, s, UTC);
  }

  /** The digits of `n` after the first `w`, where `n` is written with three or six more. */
  lemma Longer(n: nat, w: nat, more: nat) returns (s: string)
    requires more == 3 || more == 6
    ensures Digits(n, w + more) == Digits(if more == 3 then n / 1000 else n / 1_000_000, w) + s
    ensures s != [] && '0' <= s[0]
  {
    s := [Digit(n / 100 % 10), Digit(n / 10 % 10), Digit(n % 10)];
    LastThree(n, w + more - 3);
    if more == 6 {
      var z := n / 1000;
      LastThree(z, w);
      s := [Digit(z / 100 % 10), Digit(z / 10 % 10), Digit(z % 10)] + s;
    }
  }

  lemma FractionDigits(m: nat, n: nat)
    requires 0 < m < n < 1_000_000_000
    ensures Before(Digits(Scaled(m), FractionWidth(m)) + UTC, Digits(Scaled(n), FractionWidth(n)) + UTC)
  {
    var v, w, x, y := FractionWidth(m), FractionWidth(n), Scaled(m), Scaled(n);
    assert Pow10(3) == 1_000 && Pow10(6) == 1_000_000 && Pow10(9) == 1_000_000_000;
    if v == w {
      SmallerNumber(x, y, w, UTC, UTC);
    } else if v < w {
      var s := Longer(y, v, w - v);
      var z := if w - v == 3 then y / 1000 else y / 1_000_000;
      assert Digits(y, w) + UTC == Digits(z, v) + (s + UTC);
      ShorterFraction(x, z, v, s + UTC);
    } else {
      var s := Longer(x, w, v - w);
      var z := if v - w == 3 then x / 1000 else x / 1_000_000;
      assert Digits(x, v) + UTC == Digits(z, w) + (s + UTC);
      LongerFraction(z, y, w, s + UTC);
    }
  }

  lemma FractionIncreasing(m: nat, n: nat)
    requires m < n < 1_000_000_000
    ensures Before(FractionText(m) + UTC, FractionText(n) + UTC)
  {
    var s := Digits(Scaled(n), FractionWidth(n)) + UTC;
    assert FractionText(n) + UTC == "." + s;
    if m > 0 {
      FractionDigits(m, n);
      var r := Digits(Scaled(m), FractionWidth(m)) + UTC;
      assert FractionText(m) + UTC == "." + r;
      CommonPrefix(".", r, s);
    } else {
      assert FractionText(m) + UTC == UTC;
    }
  }

  /** Two equal-width fields with a separator compare like pairs of numbers. */
  lemma NextField(x: nat, y: nat, w: nat, sep: string, s: string, t: string)
    requires x <= y < Pow10(w)
    requires x == y ==> Before(s, t)
    ensures Before(Digits(x, w) + (sep + s), Digits(y, w) + (sep + t))
  {
    if x == y {
      CommonPrefix(sep, s, t);
      CommonPrefix(Digits(x, w), sep + s, sep + t);
    } else {
      SmallerNumber(x, y, w, sep + s, sep + t);
    }
  }

  lemma DateIncreasing(a: Date, b: Date, s: string, t: string)
    requires a.Valid() && b.Valid() && a.year <= 9999 && b.year <= 9999 && Earlier(a, b)
    ensures Before(DateText(a) + s, DateText(b) + t)
  {
    assert Pow10(2) == 100 && Pow10(4) == 10_000;
    var ad, bd := Digits(a.day, 2) + s, Digits(b.day, 2) + t;
    var am, bm := Digits(a.month, 2) + ("-" + ad), Digits(b.month, 2) + ("-" + bd);
    assert DateText(a) + s == Digits(a.year, 4) + ("-" + am);
    assert DateText(b) + t == Digits(b.year, 4) + ("-" + bm);
    if a.year == b.year {
      if a.month == b.month { SmallerNumber(a.day, b.day, 2, s, t); }
      NextField(a.month, b.month, 2, "-", ad, bd);
    }
    NextField(a.year, b.year, 4, "-", am, bm);
  }

  lemma ClockIncreasing(a: Clock, b: Clock, s: string, t: string)
    requires a.hour <= b.hour < 24 && a.minute < 60 && b.minute < 60 && a.second < 60 && b.second < 60
    requires a.hour == b.hour ==> a.minute <= b.minute
    requires a.hour == b.hour && a.minute == b.minute ==> a.second < b.second
    ensures Before(ClockText(a) + s, ClockText(b) + t)
  {
    assert Pow10(2) == 100;
    var ac, bc := Digits(a.second, 2) + s, Digits(b.second, 2) + t;
    var am, bm := Digits(a.minute, 2) + (":" + ac), Digits(b.minute, 2) + (":" + bc);
    assert ClockText(a) + s == Digits(a.hour, 2) + (":" + am);
    assert ClockText(b) + t == Digits(b.hour, 2) + (":" + bm);
    if a.hour == b.hour {
      if a.minute == b.minute { SmallerNumber(a.second, b.second, 2, s, t); }
      NextField(a.minute, b.minute, 2, ":", ac, bc);
    }
    NextField(a.hour, b.hour, 2, ":", am, bm);
  }

  predicate ClockEarlier(a: Clock, b: Clock) {
    a.hour < b.hour
    || (a.hour == b.hour && (a.minute < b.minute || (a.minute == b.minute && a.second < b.second)))
  }

  predicate FieldsEarlier(a: Fields, b: Fields) {
    Earlier(a.date, b.date)
    || (a.date == b.date && (ClockEarlier(a.clock, b.clock) || (a.clock == b.clock && a.nano < b.nano)))
  }

  lemma FieldsIncreasing(a: Fields, b: Fields)
    requires a.Valid() && b.Valid() && a.date.year <= 9999 && b.date.year <= 9999
    requires FieldsEarlier(a, b)
    ensures Before(a.Text(), b.Text())
  {
    var fa, fb := FractionText(a.nano) + UTC, FractionText(b.nano) + UTC;
    var ca, cb := ClockText(a.clock) + fa, ClockText(b.clock) + fb;
    if a.date == b.date {
      if a.clock == b.clock {
        FractionIncreasing(a.nano, b.nano);
        CommonPrefix(ClockText(a.clock), fa, fb);
      } else {
        ClockIncreasing(a.clock, b.clock, fa, fb);
      }
      CommonPrefix("T", ca, cb);
      CommonPrefix(DateText(a.date), "T" + ca, "T" + cb);
    } else {
      DateIncreasing(a.date, b.date, "T" + ca, "T" + cb);
    }
  }

  /** An instant is its date, its time of day and its nanosecond, and nothing else. */
  lemma FieldsOfInstant(t: nat)
    ensures FieldsOf(t).Valid() && FieldsOf(t).Instant() == t
  {
    var c := ClockOf(SecondOfDay(t));
    assert t == DayStart(DayOf(t)) + SecondOfDay(t) * 1_000_000_000 + Nano(t);
    assert SecondOfDay(t) < 86_400;
  }

  lemma FieldOrder(a: Fields, b: Fields)
    requires a.Valid() && b.Valid() && a.Instant() < b.Instant()
    ensures FieldsEarlier(a, b)
  {
    DayNumberOrder(a.date, b.date);
    if Earlier(b.date, a.date) {
      DayNumberOrder(b.date, a.date);
    }
  }

  lemma FormatIncreasing(a: nat, b: nat)
    requires Writable(a) && Writable(b) && a < b
    ensures Before(Format(a), Format(b))
  {
    FieldsOfInstant(a);
    FieldsOfInstant(b);
    FieldOrder(FieldsOf(a), FieldsOf(b));
    FieldsIncreasing(FieldsOf(a), FieldsOf(b));
  }

  /** Text order of stored timestamps is time order, so `<`, `<=` and `ORDER BY` on the
      columns mean what they mean on instants. */
  lemma TextOrderIsTimeOrder(a: nat, b: nat)
    requires Writable(a) && Writable(b)
    ensures Before(Format(a), Format(b)) <==> a < b
    ensures AtOrBefore(Format(a), Format(b)) <==> a <= b
    ensures Format(a) == Format(b) <==> a == b
    ensures Format(a) != ""
  {
    BeforeAsymmetric(Format(a), Format(b));
    if a < b {
      FormatIncreasing(a, b);
    } else if b < a {
      FormatIncreasing(b, a);
      BeforeAsymmetric(Format(b), Format(a));
    }
  }

  lemma {:induction false} FirstDigit(n: nat, w: nat)
    requires w > 0
    ensures '0' <= Digits(n, w)[0]
  {
    if w > 1 { FirstDigit(n / 10, w - 1); }
  }

  lemma YearFirst(f: Fields, w: nat)
    requires w == 4
    ensures f.Text() != "" && if f.date.year <= 9999 then '0' <= f.Text()[0] else f.Text()[0] == '+'
  {
    FirstDigit(f.date.year, w);
    assert YearText(f.date.year) != "" && f.Text()[0] == YearText(f.date.year)[0];
  }

  /** Past year 9999 the text is signed, and the sign sorts before every digit: text order
      stays time order exactly up to there. */
  lemma FourDigitsNeeded(a: nat, b: nat)
    requires Writable(a) && a < b
    ensures Before(Format(a), Format(b)) <==> Writable(b)
    ensures !Writable(b) ==> Before(Format(b), Format(a))
  {
    if Writable(b) {
      TextOrderIsTimeOrder(a, b);
    } else {
      YearFirst(FieldsOf(a), 4);
      YearFirst(FieldsOf(b), 4);
      BeforeAsymmetric(Format(a), Format(b));
    }
  }

  // ---- reading a timestamp back --------------------------------------------------

  function ParseFraction(rest: string): Option<nat> {
    if rest == UTC then Some(0)
    else if |rest| !in {10, 13, 16} || rest[0] != '.' || rest[|rest| - 6..] != UTC then None
    else
      match Value(rest[1..|rest| - 6])
      case None => None
      case Some(v) =>
        Some(v * (if |rest| == 10 then 1_000_000 else if |rest| == 13 then 1_000 else 1))
  }

  function ParseDate(s: string): Option<Date>
    requires |s| == 10
  {
    match (Value(s[..4]), Value(s[5..7]), Value(s[8..]))
    case (Some(y), Some(m), Some(d)) =>
      if s[4] == '-' && s[7] == '-' && Date(y, m, d).Valid() then Some(Date(y, m, d)) else None
    case _ => None
  }

  function ParseClock(s: string): Option<Clock>
    requires |s| == 8
  {
    match (Value(s[..2]), Value(s[3..5]), Value(s[6..]))
    case (Some(h), Some(m), Some(c)) =>
      if s[2] == ':' && s[5] == ':' && h < 24 && m < 60 && c < 60
      then Some(Clock(h, m, c)) else None
    case _ => None
  }

  function Parse(s: string): Option<nat> {
    if |s| < 25 || s[10] != 'T' then None
    else match (ParseDate(s[..10]), ParseClock(s[11..19]), ParseFraction(s[19..]))
         case (Some(d), Some(c), Some(nano)) =>
           var f := Fields(d, c, nano);
           if f.Valid() && f.Instant() >= 0 then Some(f.Instant()) else None
         case _ => None
  }

  lemma FractionFits(nano: nat)
    requires nano < 1_000_000_000
    ensures Scaled(nano) < Pow10(FractionWidth(nano))
  {
    assert Pow10(3) == 1_000 && Pow10(6) == 1_000_000 && Pow10(9) == 1_000_000_000;
  }

  lemma FractionRoundTrip(nano: nat)
    requires nano < 1_000_000_000
    ensures ParseFraction(FractionText(nano) + UTC) == Some(nano)
  {
    hide Digits, Pow10;
    FractionFits(nano);
    var rest := FractionText(nano) + UTC;
    if nano == 0 {
      assert rest == UTC;
    } else {
      var v, w := Scaled(nano), FractionWidth(nano);
      ValueOfDigits(v, w);
      assert rest == "." + Digits(v, w) + UTC;
      assert rest[1..|rest| - 6] == Digits(v, w) && rest[|rest| - 6..] == UTC;
    }
  }

  lemma DateRoundTrip(d: Date)
    requires d.Valid() && d.year <= 9999
    ensures ParseDate(DateText(d)) == Some(d)
  {
    assert Pow10(2) == 100 && Pow10(4) == 10_000;
    ValueOfDigits(d.year, 4);
    ValueOfDigits(d.month, 2);
    ValueOfDigits(d.day, 2);
    var s := DateText(d);
    assert s[..4] == Digits(d.year, 4) && s[5..7] == Digits(d.month, 2) && s[8..] == Digits(d.day, 2);
  }

  lemma ClockRoundTrip(c: Clock)
    requires c.hour < 24 && c.minute < 60 && c.second < 60
    ensures ParseClock(ClockText(c)) == Some(c)
  {
    assert Pow10(2) == 100;
    ValueOfDigits(c.hour, 2);
    ValueOfDigits(c.minute, 2);
    ValueOfDigits(c.second, 2);
    var s := ClockText(c);
    assert s[..2] == Digits(c.hour, 2) && s[3..5] == Digits(c.minute, 2) && s[6..] == Digits(c.second, 2);
  }

  lemma FieldsRoundTrip(f: Fields)
    requires f.Valid() && f.date.year <= 9999
    ensures f.Instant() >= 0 ==> Parse(f.Text()) == Some(f.Instant())
  {
    DateRoundTrip(f.date);
    ClockRoundTrip(f.clock);
    FractionRoundTrip(f.nano);
    var s := f.Text();
    assert s[..10] == DateText(f.date);
    assert s[11..19] == ClockText(f.clock);
    assert s[19..] == FractionText(f.nano) + UTC;
    assert s[10] == 'T';
  }

  /** Reading a stored timestamp gives back the instant that was written, to the
      nanosecond. */
  lemma TimestampRoundTrip(t: nat)
    requires Writable(t)
    ensures Parse(Format(t)) == Some(t)
  {
    FieldsOfInstant(t);
    FieldsRoundTrip(FieldsOf(t));
  }

  /** A stored timestamp reads `yyyy-mm-ddThh:mm:ss`, then `.` and 3, 6 or 9 digits unless
      it is a whole second, then `+00:00`; and its numbers are the instant's fields. */
  lemma FormatShape(t: nat)
    requires Writable(t)
    ensures var s, d := Format(t), DateOf(DayOf(t));
            |s| == 19 + (if t % 1_000_000_000 == 0 then 0
                         else if t % 1_000_000 == 0 then 4
                         else if t % 1_000 == 0 then 7 else 10) + 6
            && s[4] == s[7] == '-' && s[10] == 'T' && s[13] == s[16] == ':' && s[|s| - 6..] == "+00:00"
            && (|s| > 25 ==> s[19] == '.')
            && Value(s[..4]) == Some(d.year) && Value(s[5..7]) == Some(d.month) && Value(s[8..10]) == Some(d.day)
            && Value(s[11..13]) == Some(t / 3_600_000_000_000 % 24)
            && Value(s[14..16]) == Some(t / 60_000_000_000 % 60)
            && Value(s[17..19]) == Some(t / 1_000_000_000 % 60)
  {
    hide DateText, ClockText, FractionText, FractionWidth, Value, ClockOf, DayOf, DateOf, TimeOfDay;
    var f := FieldsOf(t);
    FieldsOfInstant(t);
    DateFields(f.date);
    ClockFields(f.clock);
    ClockParts(t);
    WholeParts(t);
    FractionShape(f.nano);
    TextParts(DateText(f.date), ClockText(f.clock), FractionText(f.nano), Format(t));
  }

  lemma TextParts(date: string, clock: string, fraction: string, s: string)
    requires s == date + ("T" + (clock + (fraction + "+00:00"))) && |date| == 10 && |clock| == 8
    ensures |s| == 25 + |fraction| && s[..4] == date[..4] && s[5..7] == date[5..7] && s[8..10] == date[8..]
    ensures s[11..13] == clock[..2] && s[14..16] == clock[3..5] && s[17..19] == clock[6..]
    ensures s[4] == date[4] && s[7] == date[7] && s[10] == 'T' && s[13] == clock[2] && s[16] == clock[5]
    ensures s[|s| - 6..] == "+00:00" && (fraction != "" ==> s[19] == fraction[0])
  {
  }

  lemma FractionShape(nano: nat)
    ensures |FractionText(nano)| == if nano == 0 then 0 else if nano % 1_000_000 == 0 then 4
                                    else if nano % 1_000 == 0 then 7 else 10
    ensures nano != 0 ==> FractionText(nano)[0] == '.'
  {
  }

  lemma DateFields(d: Date)
    requires d.Valid() && d.year <= 9999
    ensures var s := DateText(d);
            s[4] == s[7] == '-' && Value(s[..4]) == Some(d.year) && Value(s[5..7]) == Some(d.month)
            && Value(s[8..]) == Some(d.day)
  {
    DateRoundTrip(d);
  }

  lemma ClockFields(c: Clock)
    requires c.hour < 24 && c.minute < 60 && c.second < 60
    ensures var s := ClockText(c);
            s[2] == s[5] == ':' && Value(s[..2]) == Some(c.hour) && Value(s[3..5]) == Some(c.minute)
            && Value(s[6..]) == Some(c.second)
  {
    ClockRoundTrip(c);
  }

  lemma ClockParts(t: nat)
    ensures var c := ClockOf(SecondOfDay(t));
            c.hour == t / 3_600_000_000_000 % 24 && c.minute == t / 60_000_000_000 % 60
            && c.second == t / 1_000_000_000 % 60
  {
    var day, sec := DayOf(t), SecondOfDay(t);
    assert t / 1_000_000_000 == day * 86_400 + sec;
    assert t / 60_000_000_000 == day * 1_440 + sec / 60;
    assert t / 3_600_000_000_000 == day * 24 + sec / 3600;
    assert sec / 60 / 60 == sec / 3600;
  }

  lemma WholeParts(t: nat)
    ensures Nano(t) == t % 1_000_000_000
    ensures Nano(t) % 1_000_000 == t % 1_000_000 && Nano(t) % 1_000 == t % 1_000
  {
    var nano, sec := Nano(t), DayOf(t) * 86_400 + SecondOfDay(t);
    assert t == sec * 1_000_000_000 + nano;
    Remainder(t, sec, nano);
  }

  lemma Remainder(t: nat, sec: nat, nano: nat)
    requires t == sec * 1_000_000_000 + nano && nano < 1_000_000_000
    ensures nano == t % 1_000_000_000 && nano % 1_000_000 == t % 1_000_000 && nano % 1_000 == t % 1_000
  {
    SameRemainder(t, sec, nano, 1_000_000_000);
    SameRemainder(t, sec * 1_000 + nano / 1_000_000, nano % 1_000_000, 1_000_000);
    SameRemainder(t, sec * 1_000_000 + nano / 1_000, nano % 1_000, 1_000);
  }

  lemma SameRemainder(t: nat, q: nat, r: nat, m: nat)
    requires t == q * m + r && r < m
    ensures t % m == r
  {
    assert t == t / m * m + t % m;
    assert (t / m - q) * m == r - t % m;
    SmallMultiple(t / m - q, m);
  }

  lemma SmallMultiple(k: int, m: int)
    requires -m < k * m < m
    ensures k == 0
  {
  }

  // ---- columns -------------------------------------------------------------------

  /** Column text `s` was written for instant `t`. */
  ghost predicate Written(s: string, t: int) { 0 <= t && Writable(t) && s == Format(t) }

  lemma ColumnOrder(r: string, a: int, s: string, b: int)
    requires Written(r, a) && Written(s, b)
    ensures Before(r, s) <==> a < b
    ensures AtOrBefore(r, s) <==> a <= b
    ensures r == s <==> a == b
    ensures r != ""
  {
    TextOrderIsTimeOrder(a, b);
  }

  lemma ColumnReads(s: string, t: int)
    requires Written(s, t)
    ensures Parse(s) == Some(t)
  {
    TimestampRoundTrip(t);
  }
}
