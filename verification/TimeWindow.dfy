/** Minute windows: aligning event times, naming windows, and reading the names back. */
module TimeWindow {
  import opened Common
  import opened CatalogModel
  import opened Calendar
  import opened Strings

  const MINUTE_MS := 60_000
  const DAY_MS := 86_400_000

  function WindowStart(t: int): int {
    t / MINUTE_MS * MINUTE_MS
  }

  datatype Moment = Moment(date: Date, hour: int, minute: int)

  predicate ValidMoment(m: Moment) {
    ValidDate(m.date) && 0 <= m.hour < 24 && 0 <= m.minute < 60
  }

  function EpochMs(m: Moment): int {
    DaysFromCivil(m.date) * DAY_MS + m.hour * 3_600_000 + m.minute * 60_000
  }

  function MomentOf(ms: int): Moment {
    var secs := ms / 1000;
    var rem := secs % 86_400;
    Moment(CivilFromDays(secs / 86_400), rem / 3600, (rem % 3600) / 60)
  }

  /** The minute that contains `ms`, for every integer. */
  lemma MomentIsRight(ms: int)
    ensures ValidMoment(MomentOf(ms)) && EpochMs(MomentOf(ms)) == WindowStart(ms)
    ensures WindowStart(ms) <= ms < WindowStart(ms) + MINUTE_MS && WindowStart(ms) % MINUTE_MS == 0
  {
    var days, hour, minute, rest := Clock(ms);
    CivilIsValid(days);
  }

  lemma Clock(ms: int) returns (days: int, hour: int, minute: int, rest: int)
    ensures days == ms / 1000 / 86_400 && hour == ms / 1000 % 86_400 / 3600
            && minute == (ms / 1000 % 86_400) % 3600 / 60
    ensures 0 <= hour < 24 && 0 <= minute < 60 && 0 <= rest < MINUTE_MS
    ensures ms == days * DAY_MS + hour * 3_600_000 + minute * 60_000 + rest
    ensures WindowStart(ms) == ms - rest && WindowStart(ms) % MINUTE_MS == 0
  {
    var secs := ms / 1000;
    days, hour, minute := secs / 86_400, secs % 86_400 / 3600, (secs % 86_400) % 3600 / 60;
    rest := ms - days * DAY_MS - hour * 3_600_000 - minute * 60_000;
    var total := days * 1440 + hour * 60 + minute;
    Quotient(ms, MINUTE_MS, total);
    Remainder(total * MINUTE_MS, MINUTE_MS, total, 0);
  }

  // ---------------------------------------------------------------- decimal text

  function Digit(d: int): char
    requires 0 <= d < 10
  {
    '0' + d as char
  }

  function Decimal(n: nat): string {
    if n < 10 then [Digit(n)] else Decimal(n / 10) + [Digit(n % 10)]
  }

  /** Decimal text with leading zeros up to `width` characters, the sign included. */
  function Padded(n: int, width: nat): string {
    if n < 0 then "-" + Zeros(Decimal(-n), if width == 0 then 0 else width - 1) else Zeros(Decimal(n), width)
  }

  function Zeros(s: string, width: nat): string
    decreases width - |s|
  {
    if |s| >= width then s else Zeros("0" + s, width)
  }

  function MomentText(m: Moment): string {
    Padded(m.date.year, 4) + "-" + Padded(m.date.month, 2) + "-" + Padded(m.date.day, 2)
    + "T" + Padded(m.hour, 2) + ":" + Padded(m.minute, 2)
  }

  function FormatWindow(start: int): string {
    MomentText(MomentOf(start))
  }

  // ---------------------------------------------------------------- reading a name back

  /** The text before and after the first `c`. */
  function SplitOnce(s: string, c: char): Option<(string, string)> {
    if s == "" then None
    else if s[0] == c then Some(("", s[1..]))
    else match SplitOnce(s[1..], c)
      case None => None
      case Some((a, b)) => Some(([s[0]] + a, b))
  }

  /** The `n`-th of the pieces that `c` separates. */
  function Piece(s: string, c: char, n: nat): Option<string>
    decreases n
  {
    match SplitOnce(s, c)
    case None => if n == 0 then Some(s) else None
    case Some((a, b)) => if n == 0 then Some(a) else Piece(b, c, n - 1)
  }

  predicate AllDigits(s: string) {
    forall i | 0 <= i < |s| :: '0' <= s[i] <= '9'
  }

  function Value(s: string): nat
    requires AllDigits(s)
  {
    if s == "" then 0 else Value(s[..|s| - 1]) * 10 + (s[|s| - 1] - '0') as nat
  }

  const I64_MAX := 0x7FFF_FFFF_FFFF_FFFF

  /** A decimal number with an optional sign that fits 64 bits. */
  function ParseInt(s: string): Option<int> {
    var negative := s != "" && s[0] == '-';
    var digits := if s != "" && s[0] in {'-', '+'} then s[1..] else s;
    if digits == "" || !AllDigits(digits) then None
    else
      var n: int := if negative then -(Value(digits) as int) else Value(digits);
      if -I64_MAX - 1 <= n <= I64_MAX then Some(n) else None
  }

  function Number(piece: Option<string>): Option<int> {
    if piece.None? then None else ParseInt(piece.value)
  }

  function ParseWindow(w: string): Option<int> {
    match SplitOnce(w, 'T')
    case None => None
    case Some((date, time)) =>
      var y, mo, day := Number(Piece(date, '-', 0)), Number(Piece(date, '-', 1)), Number(Piece(date, '-', 2));
      var h, mi := Number(Piece(time, ':', 0)), Number(Piece(time, ':', 1));
      if y.None? || mo.None? || day.None? || h.None? || mi.None? then None
      else Some(EpochMs(Moment(Date(y.value, mo.value, day.value), h.value, mi.value)))
  }

  // ---------------------------------------------------------------- decimal text is read back

  lemma {:induction false} DecimalValue(n: nat)
    ensures AllDigits(Decimal(n)) && Value(Decimal(n)) == n && Decimal(n) != ""
  {
    if n >= 10 {
      DecimalValue(n / 10);
      assert Decimal(n)[..|Decimal(n)| - 1] == Decimal(n / 10);
    }
  }

  lemma {:induction false} LeadingZero(s: string)
    requires AllDigits(s)
    ensures AllDigits("0" + s) && Value("0" + s) == Value(s)
    decreases |s|
  {
    var t := "0" + s;
    if s == "" {
      assert t == "0" && t[..0] == "";
    } else {
      LeadingZero(s[..|s| - 1]);
      assert t[..|t| - 1] == "0" + s[..|s| - 1];
    }
  }

  lemma {:induction false} ZerosValue(s: string, width: nat)
    requires AllDigits(s) && s != ""
    ensures var z := Zeros(s, width); z != "" && AllDigits(z) && Value(z) == Value(s)
    decreases width - |s|
  {
    if |s| < width {
      LeadingZero(s);
      ZerosValue("0" + s, width);
    }
  }

  lemma PaddedReads(n: nat, width: nat)
    requires n <= I64_MAX
    ensures AllDigits(Padded(n, width)) && ParseInt(Padded(n, width)) == Some(n)
  {
    DecimalValue(n);
    ZerosValue(Decimal(n), width);
    var s := Padded(n, width);
    assert s[0] in s;
  }

  lemma {:induction false} SplitAt(a: string, c: char, b: string)
    requires c !in a
    ensures SplitOnce(a + [c] + b, c) == Some((a, b))
    decreases |a|
  {
    var s := a + [c] + b;
    if a == "" {
      assert s[0] == c && s[1..] == b;
    } else {
      assert s[0] == a[0] && s[1..] == a[1..] + [c] + b;
      SplitAt(a[1..], c, b);
      assert [a[0]] + a[1..] == a;
    }
  }

  lemma {:induction false} NoSplit(a: string, c: char)
    requires c !in a
    ensures SplitOnce(a, c) == None
    decreases |a|
  {
    if a != "" { NoSplit(a[1..], c); }
  }

  lemma DateReads(y: string, m: string, d: string)
    requires '-' !in y && '-' !in m && '-' !in d
    ensures var s := y + "-" + m + "-" + d;
            Piece(s, '-', 0) == Some(y) && Piece(s, '-', 1) == Some(m) && Piece(s, '-', 2) == Some(d)
  {
    var s := y + "-" + m + "-" + d;
    assert s == y + ['-'] + (m + ['-'] + d);
    SplitAt(y, '-', m + ['-'] + d);
    SplitAt(m, '-', d);
    NoSplit(d, '-');
  }

  lemma TimeReads(h: string, m: string)
    requires ':' !in h && ':' !in m
    ensures var s := h + ":" + m; Piece(s, ':', 0) == Some(h) && Piece(s, ':', 1) == Some(m)
  {
    SplitAt(h, ':', m);
    NoSplit(m, ':');
  }

  lemma TextReads(y: string, mo: string, d: string, h: string, mi: string)
    requires AllDigits(y) && AllDigits(mo) && AllDigits(d) && AllDigits(h) && AllDigits(mi)
    ensures var w := y + "-" + mo + "-" + d + "T" + h + ":" + mi;
            SplitOnce(w, 'T') == Some((y + "-" + mo + "-" + d, h + ":" + mi))
  {
    var date := y + "-" + mo + "-" + d;
    forall c | c in date ensures c != 'T' {
      assert c in y || c == '-' || c in mo || c in d;
    }
    SplitAt(date, 'T', h + ":" + mi);
    assert y + "-" + mo + "-" + d + "T" + h + ":" + mi == date + ['T'] + (h + ":" + mi);
  }

  lemma MomentReads(m: Moment)
    requires ValidMoment(m) && 0 <= m.date.year <= I64_MAX
    ensures ParseWindow(MomentText(m)) == Some(EpochMs(m))
  {
    var y, mo, d := Padded(m.date.year, 4), Padded(m.date.month, 2), Padded(m.date.day, 2);
    var h, mi := Padded(m.hour, 2), Padded(m.minute, 2);
    PaddedReads(m.date.year, 4);
    PaddedReads(m.date.month, 2);
    PaddedReads(m.date.day, 2);
    PaddedReads(m.hour, 2);
    PaddedReads(m.minute, 2);
    TextReads(y, mo, d, h, mi);
    DateReads(y, mo, d);
    TimeReads(h, mi);
  }

  lemma NegativeYearUnreadable(m: Moment)
    requires ValidMoment(m) && m.date.year < 0
    ensures ParseWindow(MomentText(m)) == None
  {
    var w := MomentText(m);
    assert w[0] == '-';
    match SplitOnce(w, 'T') {
      case None =>
      case Some((date, time)) =>
        SplitPrefix(w, 'T');
        assert date[0] == '-' && SplitOnce(date, '-') == Some(("", date[1..]));
        assert Piece(date, '-', 0) == Some("");
    }
  }

  lemma SplitPrefix(s: string, c: char)
    requires s != "" && s[0] != c && SplitOnce(s, c).Some?
    ensures SplitOnce(s, c).value.0 != "" && SplitOnce(s, c).value.0[0] == s[0]
  {
  }

  lemma Aligned(start: int)
    requires start % MINUTE_MS == 0
    ensures WindowStart(start) == start
  {
    Quotient(start, MINUTE_MS, start / MINUTE_MS);
  }

  lemma YearBound(d: Date)
    requires ValidDate(d)
    ensures 365 * (d.year - 1) <= DaysFromCivil(d) + 719468 || d.year < 1
  {
    var y := if d.month <= 2 then d.year - 1 else d.year;
    var yoe := y - y / 400 * 400;
    assert 0 <= yoe < 400;
    assert yoe / 4 >= yoe / 100;
  }

  lemma YearFits(start: int)
    requires start <= I64_MAX
    ensures MomentOf(start).date.year <= I64_MAX
  {
    MomentIsRight(start);
    var m := MomentOf(start);
    YearBound(m.date);
    assert DaysFromCivil(m.date) * DAY_MS <= start;
  }

  /** A 64-bit window start is read back from its name exactly when its year is not negative. */
  lemma WindowRoundTripIff(start: int)
    requires start % MINUTE_MS == 0 && start <= I64_MAX
    ensures ParseWindow(FormatWindow(start)) == Some(start) <==> MomentOf(start).date.year >= 0
  {
    MomentIsRight(start);
    Aligned(start);
    YearFits(start);
    if MomentOf(start).date.year >= 0 {
      MomentReads(MomentOf(start));
    } else {
      NegativeYearUnreadable(MomentOf(start));
    }
  }

  // ---------------------------------------------------------------- names are ordered like times

  function Pair(n: int): string
    requires 0 <= n < 100
  {
    [Digit(n / 10), Digit(n % 10)]
  }

  lemma TwoDigits(n: int)
    requires 0 <= n < 100
    ensures Padded(n, 2) == Pair(n)
  {
    if n < 10 {
      assert Zeros("0" + Decimal(n), 2) == "0" + Decimal(n);
    } else {
      assert Decimal(n) == Decimal(n / 10) + [Digit(n % 10)] && Decimal(n / 10) == [Digit(n / 10)];
    }
  }

  lemma {:induction false} ZerosAppend(s: string, t: string, width: nat)
    ensures Zeros(s + t, width + |t|) == Zeros(s, width) + t
    decreases width - |s|
  {
    if |s| < width {
      assert "0" + (s + t) == ("0" + s) + t;
      ZerosAppend("0" + s, t, width);
    }
  }

  lemma WideZeros(s: string)
    requires 1 <= |s| <= 2
    ensures Zeros(s, 4) == "00" + Zeros(s, 2)
  {
    if |s| == 1 {
      var a, b := "0" + s, "0" + ("0" + s);
      assert Zeros(s, 4) == Zeros(a, 4) == Zeros(b, 4) == Zeros("0" + b, 4) == "0" + b;
      assert Zeros(s, 2) == Zeros(a, 2) == a;
      assert "0" + b == "00" + a;
    } else {
      var a := "0" + s;
      assert Zeros(s, 4) == Zeros(a, 4) == Zeros("0" + a, 4) == "0" + a;
      assert "0" + a == "00" + s;
    }
  }

  lemma ShortDecimal(n: int)
    requires 0 <= n < 100
    ensures 1 <= |Decimal(n)| <= 2
  {
  }

  lemma FourDigits(n: int)
    requires 0 <= n < 10000
    ensures Padded(n, 4) == Pair(n / 100) + Pair(n % 100)
  {
    if n < 100 {
      ShortDecimal(n);
      WideZeros(Decimal(n));
      TwoDigits(n);
      assert Pair(0) == "00";
    } else {
      assert n / 10 / 10 == n / 100 && n / 10 % 10 == n % 100 / 10 && n % 10 == n % 100 % 10;
      assert Decimal(n) == Decimal(n / 100) + [Digit(n / 10 % 10)] + [Digit(n % 10)];
      assert Decimal(n) == Decimal(n / 100) + Pair(n % 100);
      ZerosAppend(Decimal(n / 100), Pair(n % 100), 2);
      TwoDigits(n / 100);
    }
  }

  lemma {:induction false} FirstDifference(a: string, b: string, i: nat)
    requires i < |a| && i < |b| && a[..i] == b[..i] && a[i] < b[i]
    ensures Less(a, b)
    decreases i
  {
    if i > 0 {
      assert a[0] == a[..i][0] == b[0];
      assert a[1..][..i - 1] == a[..i][1..] && b[1..][..i - 1] == b[..i][1..];
      FirstDifference(a[1..], b[1..], i - 1);
    }
  }

  predicate FourDigitYear(m: Moment) {
    ValidMoment(m) && 0 <= m.date.year <= 9999
  }

  function DateChars(d: Date, rest: string): string
    requires ValidDate(d) && 0 <= d.year <= 9999
  {
    Pair(d.year / 100) + "" + (Pair(d.year % 100) + "-" + (Pair(d.month) + "-" + (Pair(d.day) + "T" + rest)))
  }

  function TimeChars(h: int, m: int): string
    requires 0 <= h < 24 && 0 <= m < 60
  {
    Pair(h) + ":" + (Pair(m) + "" + "")
  }

  function Chars(m: Moment): string
    requires FourDigitYear(m)
  {
    DateChars(m.date, TimeChars(m.hour, m.minute))
  }

  lemma TextIsChars(m: Moment)
    requires FourDigitYear(m)
    ensures MomentText(m) == Chars(m)
  {
    FourDigits(m.date.year);
    TwoDigits(m.date.month);
    TwoDigits(m.date.day);
    TwoDigits(m.hour);
    TwoDigits(m.minute);
  }

  predicate Earlier(a: Moment, b: Moment) {
    Before(a.date, b.date) || (a.date == b.date && (a.hour < b.hour || (a.hour == b.hour && a.minute < b.minute)))
  }

  lemma {:induction false} SamePrefix(p: string, a: string, b: string)
    ensures Less(a, b) ==> Less(p + a, p + b)
    decreases |p|
  {
    if p == "" {
      assert p + a == a && p + b == b;
    } else {
      assert (p + a)[1..] == p[1..] + a && (p + b)[1..] == p[1..] + b;
      SamePrefix(p[1..], a, b);
    }
  }

  /** Two digits decide, or, if they are equal, what follows them. */
  lemma PairThen(x: int, y: int, sep: string, a: string, b: string)
    requires 0 <= x < 100 && 0 <= y < 100
    ensures x < y || (x == y && Less(a, b)) ==> Less(Pair(x) + sep + a, Pair(y) + sep + b)
  {
    var v, w := Pair(x) + sep + a, Pair(y) + sep + b;
    assert v[0] == Digit(x / 10) && v[1] == Digit(x % 10) && w[0] == Digit(y / 10) && w[1] == Digit(y % 10);
    if x == y {
      SamePrefix(Pair(x) + sep, a, b);
    } else if x / 10 < y / 10 {
      FirstDifference(v, w, 0);
    } else if x < y {
      assert v[..1] == [v[0]] && w[..1] == [w[0]];
      FirstDifference(v, w, 1);
    }
  }

  lemma EarlierTime(h: int, m: int, i: int, n: int)
    requires 0 <= h < 24 && 0 <= m < 60 && 0 <= i < 24 && 0 <= n < 60
    ensures h < i || (h == i && m < n) ==> Less(TimeChars(h, m), TimeChars(i, n))
  {
    PairThen(m, n, "", "", "");
    PairThen(h, i, ":", Pair(m) + "" + "", Pair(n) + "" + "");
  }

  lemma EarlierDate(d: Date, e: Date, a: string, b: string)
    requires ValidDate(d) && ValidDate(e) && 0 <= d.year <= 9999 && 0 <= e.year <= 9999
    ensures Before(d, e) || (d == e && Less(a, b)) ==> Less(DateChars(d, a), DateChars(e, b))
  {
    var d1, e1 := Pair(d.day) + "T" + a, Pair(e.day) + "T" + b;
    var d2, e2 := Pair(d.month) + "-" + d1, Pair(e.month) + "-" + e1;
    var d3, e3 := Pair(d.year % 100) + "-" + d2, Pair(e.year % 100) + "-" + e2;
    PairThen(d.day, e.day, "T", a, b);
    PairThen(d.month, e.month, "-", d1, e1);
    PairThen(d.year % 100, e.year % 100, "-", d2, e2);
    PairThen(d.year / 100, e.year / 100, "", d3, e3);
  }

  lemma EarlierText(a: Moment, b: Moment)
    requires FourDigitYear(a) && FourDigitYear(b) && Earlier(a, b)
    ensures Less(Chars(a), Chars(b))
  {
    EarlierTime(a.hour, a.minute, b.hour, b.minute);
    EarlierDate(a.date, b.date, TimeChars(a.hour, a.minute), TimeChars(b.hour, b.minute));
  }

  lemma EarlierMoment(a: Moment, b: Moment)
    requires ValidMoment(a) && ValidMoment(b) && EpochMs(a) < EpochMs(b)
    ensures Earlier(a, b)
  {
    var m, n := DaysFromCivil(a.date), DaysFromCivil(b.date);
    if m < n {
      EarlierDayEarlierDate(a.date, b.date);
    } else {
      assert m == n;
      SameDaySameDate(a.date, b.date);
    }
  }

  /** Window names sort as the windows do. */
  lemma NamesInOrder(a: int, b: int)
    requires a % MINUTE_MS == 0 && b % MINUTE_MS == 0 && a < b
    requires 0 <= MomentOf(a).date.year <= 9999 && 0 <= MomentOf(b).date.year <= 9999
    ensures Less(FormatWindow(a), FormatWindow(b))
  {
    MomentIsRight(a);
    MomentIsRight(b);
    Quotient(a, MINUTE_MS, a / MINUTE_MS);
    Quotient(b, MINUTE_MS, b / MINUTE_MS);
    EarlierMoment(MomentOf(a), MomentOf(b));
    TextIsChars(MomentOf(a));
    TextIsChars(MomentOf(b));
    EarlierText(MomentOf(a), MomentOf(b));
  }
}
