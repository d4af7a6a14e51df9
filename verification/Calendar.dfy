/**
 Civil dates and RFC 3339 timestamps (section 5.6 of RFC 3339).

 Two day counts live in the program: one for maintenance windows (milliseconds, any offset) and
 one for release manifests (seconds, `Z` only). Both are checked against counting days.
 Fixed-width arithmetic is explicit: `Overflow` stands for a value that leaves its machine type.
 */
module Calendar {
  import opened Prelude

  datatype TimeError = MissingT | Year | Month | Day | Hour | Minute | Second | BadYmd | BeforeEpoch
                     | MissingOffset | OffsetHour | OffsetMinute | OffsetFormat | NotZulu | Overflow

  const I64_LIMIT := 0x8000_0000_0000_0000
  const U32_LIMIT := 0x1_0000_0000

  predicate FitsI64(x: int) {
    -I64_LIMIT <= x < I64_LIMIT
  }

  // ---- The Gregorian calendar ------------------------------------------------------------

  datatype Date = Date(year: int, month: int, day: int)

  predicate IsLeap(y: int) {
    y % 4 == 0 && (y % 100 != 0 || y % 400 == 0)
  }

  function DaysInMonth(y: int, m: int): int {
    if m == 2 then if IsLeap(y) then 29 else 28
    else if m == 4 || m == 6 || m == 9 || m == 11 then 30
    else 31
  }

  predicate IsDate(d: Date) {
    1 <= d.month <= 12 && 1 <= d.day <= DaysInMonth(d.year, d.month)
  }

  function NextDay(d: Date): (n: Date)
    requires IsDate(d)
    ensures IsDate(n)
  {
    if d.day < DaysInMonth(d.year, d.month) then d.(day := d.day + 1)
    else if d.month < 12 then Date(d.year, d.month + 1, 1)
    else Date(d.year + 1, 1, 1)
  }

  predicate Before(a: Date, b: Date) {
    || a.year < b.year
    || (a.year == b.year && a.month < b.month)
    || (a.year == b.year && a.month == b.month && a.day < b.day)
  }

  const EPOCH := Date(1970, 1, 1)

  /** The date reached by stepping `n` days forward from the epoch. */
  function DaysAfterEpoch(n: nat): (d: Date)
    ensures IsDate(d)
  {
    if n == 0 then EPOCH else NextDay(DaysAfterEpoch(n - 1))
  }

  // ---- The two day counts ----------------------------------------------------------------

  /** Maintenance windows: Euclidean division, month and day range checked. */
  function DaysFromCivil(year: int, month: int, day: int): Result<int, TimeError> {
    if !(1 <= month <= 12) || !(1 <= day <= 31) then Err(BadYmd)
    else
      var y := if month <= 2 then year - 1 else year;
      var era := y / 400;
      var yoe := y % 400;
      var mp := if month > 2 then month - 3 else month + 9;
      var doy := (153 * mp + 2) / 5 + day - 1;
      var doe := yoe * 365 + yoe / 4 - yoe / 100 + doy;
      Ok(era * 146097 + doe - 719468)
  }

  /** Division rounding toward zero. */
  function TruncDiv(a: int, b: int): int
    requires b > 0
  {
    if a >= 0 then a / b else -((-a) / b)
  }

  /** Release manifests: truncating division, no range check, day of year unsigned. */
  function ManifestDays(year: int, month: nat, day: nat): Result<int, TimeError> {
    var y := if month <= 2 then year - 1 else year;
    var era := TruncDiv(if y >= 0 then y else y - 399, 400);
    var yoe := y - era * 400;
    var mp := if month > 2 then month - 3 else month + 9;
    var doy := (153 * mp + 2) / 5 + day - 1;
    if doy < 0 then Err(Overflow)
    else
      var doe := yoe * 365 + yoe / 4 - yoe / 100 + doy;
      Ok(era * 146097 + doe - 719468)
  }

  /** The two counts agree on every year, month and day the checking one accepts. */
  lemma {:induction false} DayCountsAgree(year: int, month: nat, day: nat)
    requires DaysFromCivil(year, month, day).Ok?
    ensures ManifestDays(year, month, day) == DaysFromCivil(year, month, day)
  {
    var y := if month <= 2 then year - 1 else year;
    TruncatedEra(y);
  }

  /** The second algorithm fails on nothing but a day zero of March, whose day of the year is below zero. */
  lemma {:induction false} FailsOnDayZeroOfMarch(year: int, month: nat, day: nat)
    ensures ManifestDays(year, month, day).Err? <==> month == 3 && day == 0
  {
    hide TruncDiv;
    var mp := if month > 2 then month - 3 else month + 9;
    assert (153 * mp + 2) / 5 >= 0 && (mp > 0 ==> (153 * mp + 2) / 5 >= 1);
  }

  lemma {:induction false} TruncatedEra(y: int)
    ensures TruncDiv(if y >= 0 then y else y - 399, 400) == y / 400
    ensures y - y / 400 * 400 == y % 400
  {
    if y < 0 {
      assert (399 - y) / 400 == -(y / 400);
    }
  }

  function DayNumber(d: Date): int
    requires IsDate(d)
  {
    DaysFromCivil(d.year, d.month, d.day).value
  }

  // ---- The count counts days -------------------------------------------------------------

  /** Days before year `y`'s first of March, up to a constant. */
  function YearStart(y: int): int {
    y / 400 * 146097 + y % 400 * 365 + y % 400 / 4 - y % 400 / 100
  }

  lemma {:induction false} YearStartClosedForm(y: int)
    ensures YearStart(y) == 365 * y + y / 4 - y / 100 + y / 400
  {
    var e, r := y / 400, y % 400;
    assert y == 400 * e + r;
    assert y / 4 == 100 * e + r / 4;
    assert y / 100 == 4 * e + r / 100;
  }

  lemma {:induction false} YearLength(y: int)
    ensures YearStart(y) - YearStart(y - 1) == if IsLeap(y) then 366 else 365
  {
    hide YearStart, IsLeap;
    YearStartClosedForm(y);
    YearStartClosedForm(y - 1);
    DivStep(y, 4);
    DivStep(y, 100);
    DivStep(y, 400);
    LeapByDivisors(y);
  }

  lemma {:induction false} LeapByDivisors(y: int)
    ensures IsLeap(y) <==> Divides(y, 4) - Divides(y, 100) + Divides(y, 400) == 1
    ensures Divides(y, 4) - Divides(y, 100) + Divides(y, 400) >= 0
  {
    if y % 400 == 0 {
      MultipleOf400(y / 400);
    }
    if y % 100 == 0 {
      MultipleOf100(y / 100);
    }
  }

  function Divides(y: int, k: int): int
    requires k > 0
  {
    if y % k == 0 then 1 else 0
  }

  lemma {:induction false} MultipleOf400(q: int)
    ensures (400 * q) % 100 == 0
  {
    assert 400 * q == 100 * (4 * q);
  }

  lemma {:induction false} MultipleOf100(q: int)
    ensures (100 * q) % 4 == 0
  {
    assert 100 * q == 4 * (25 * q);
  }

  lemma {:induction false} DivStep(y: int, k: int)
    requires k == 4 || k == 100 || k == 400
    ensures y / k - (y - 1) / k == if y % k == 0 then 1 else 0
  {
  }

  lemma {:induction false} DayNumberByMonth(d: Date)
    requires IsDate(d)
    ensures DayNumber(d) ==
            YearStart(if d.month <= 2 then d.year - 1 else d.year)
            + (153 * (if d.month > 2 then d.month - 3 else d.month + 9) + 2) / 5 + d.day - 1 - 719468
  {
  }

  lemma {:induction false} MonthStep(y: int, m: int)
    requires 1 <= m <= 12
    ensures DayNumber(if m < 12 then Date(y, m + 1, 1) else Date(y + 1, 1, 1))
         == DayNumber(Date(y, m, 1)) + DaysInMonth(y, m)
  {
    hide DayNumber, YearStart;
    var next := if m < 12 then Date(y, m + 1, 1) else Date(y + 1, 1, 1);
    DayNumberByMonth(Date(y, m, 1));
    DayNumberByMonth(next);
    if m == 2 {
      YearLength(y);
    }
  }

  lemma {:induction false} WithinMonth(d: Date)
    requires IsDate(d)
    ensures IsDate(d.(day := 1)) && DayNumber(d) == DayNumber(d.(day := 1)) + d.day - 1
  {
    DayNumberByMonth(d);
    DayNumberByMonth(d.(day := 1));
  }

  /** The day after any date has the next number, and the epoch has number zero. */
  lemma {:induction false} NextDayIsNextNumber(d: Date)
    requires IsDate(d)
    ensures DayNumber(NextDay(d)) == DayNumber(d) + 1
    ensures DayNumber(EPOCH) == 0
  {
    EpochIsZero();
    hide DayNumber, DaysInMonth;
    WithinMonth(d);
    WithinMonth(NextDay(d));
    MonthStep(d.year, d.month);
  }

  lemma {:induction false} EpochIsZero()
    ensures DayNumber(EPOCH) == 0
  {
  }

  /** The number of a date is the number of days stepped from the epoch. */
  lemma {:induction false} CountsDays(n: nat)
    ensures DayNumber(DaysAfterEpoch(n)) == n
  {
    NextDayIsNextNumber(EPOCH);
    if n > 0 {
      CountsDays(n - 1);
      NextDayIsNextNumber(DaysAfterEpoch(n - 1));
    }
  }

  function MonthStart(k: int): Date {
    Date(k / 12, k % 12 + 1, 1)
  }

  lemma {:induction false} LaterMonths(j: int, k: int)
    requires j < k
    ensures DayNumber(MonthStart(j)) + DaysInMonth(MonthStart(j).year, MonthStart(j).month) <= DayNumber(MonthStart(k))
    decreases k - j
  {
    hide DayNumber;
    var here := MonthStart(k - 1);
    MonthStep(here.year, here.month);
    assert MonthStart(k) == if here.month < 12 then Date(here.year, here.month + 1, 1) else Date(here.year + 1, 1, 1);
    if j < k - 1 {
      LaterMonths(j, k - 1);
    }
  }

  /** Later dates have larger numbers, so a number names at most one date. */
  lemma {:induction false} StrictlyMonotone(a: Date, b: Date)
    requires IsDate(a) && IsDate(b)
    ensures Before(a, b) <==> DayNumber(a) < DayNumber(b)
    ensures DayNumber(a) == DayNumber(b) ==> a == b
  {
    if Before(a, b) {
      LaterIsLarger(a, b);
    } else if Before(b, a) {
      LaterIsLarger(b, a);
    } else {
      assert a == b;
    }
  }

  lemma {:induction false} LaterIsLarger(a: Date, b: Date)
    requires IsDate(a) && IsDate(b) && Before(a, b)
    ensures DayNumber(a) < DayNumber(b)
  {
    hide DayNumber;
    var j, k := 12 * a.year + a.month - 1, 12 * b.year + b.month - 1;
    assert MonthStart(j) == a.(day := 1);
    assert MonthStart(k) == b.(day := 1);
    WithinMonth(a);
    WithinMonth(b);
    if j < k {
      LaterMonths(j, k);
    }
  }

  // ---- Text ------------------------------------------------------------------------------

  predicate IsSpace(c: char) {
    IsWhiteSpace(c as int)
  }

  function TrimStart(s: string): string {
    if s != "" && IsSpace(s[0]) then TrimStart(s[1..]) else s
  }

  function TrimEnd(s: string): string {
    if s != "" && IsSpace(s[|s| - 1]) then TrimEnd(s[..|s| - 1]) else s
  }

  function Trim(s: string): string {
    TrimEnd(TrimStart(s))
  }

  /** Position of the first `c`. */
  function Find(s: string, c: char): (i: Option<nat>)
    ensures i.Some? ==> i.value < |s| && s[i.value] == c && c !in s[..i.value]
    ensures i.None? ==> c !in s
  {
    if s == "" then None
    else if s[0] == c then Some(0)
    else
      var i := Find(s[1..], c);
      if i.None? then None
      else
        assert s[..i.value + 1] == [s[0]] + s[1..][..i.value];
        Some(i.value + 1)
  }

  /** Position of the last `c`. */
  function RFind(s: string, c: char): (i: Option<nat>)
    ensures i.Some? ==> i.value < |s| && s[i.value] == c && c !in s[i.value + 1..]
    ensures i.None? ==> c !in s
  {
    if s == "" then None
    else if s[|s| - 1] == c then Some(|s| - 1)
    else
      var i := RFind(s[..|s| - 1], c);
      if i.None? then None
      else
        assert s[i.value + 1..] == s[..|s| - 1][i.value + 1..] + [s[|s| - 1]];
        i
  }

  /** The pieces between separators; there is always at least one. */
  function Split(s: string, c: char): (pieces: seq<string>)
    ensures pieces != []
    decreases |s|
  {
    var i := Find(s, c);
    if i.None? then [s] else [s[..i.value]] + Split(s[i.value + 1..], c)
  }

  function Digits(s: string): (n: Option<nat>) {
    if s == "" then Some(0)
    else
      var high := Digits(s[..|s| - 1]);
      var c := s[|s| - 1];
      if high.Some? && '0' <= c <= '9' then Some(high.value * 10 + (c as int - '0' as int)) else None
  }

  function ParseI64(s: string): (n: Option<int>)
    ensures n.Some? ==> s != "" && FitsI64(n.value)
  {
    var body := if s != "" && (s[0] == '+' || s[0] == '-') then s[1..] else s;
    if body == "" then None
    else match Digits(body)
      case None => None
      case Some(v) =>
        var n: int := if s[0] == '-' then -(v as int) else v;
        if FitsI64(n) then Some(n) else None
  }

  function ParseU32(s: string): (n: Option<nat>)
    ensures n.Some? ==> s != "" && n.value < U32_LIMIT
  {
    var body := if s != "" && s[0] == '+' then s[1..] else s;
    if body == "" then None
    else match Digits(body)
      case None => None
      case Some(v) => if v < U32_LIMIT then Some(v) else None
  }

  // ---- Timestamps ------------------------------------------------------------------------

  datatype Stamp = Stamp(year: int, month: nat, day: nat, hour: nat, minute: nat, second: nat, frac: Option<string>)

  /** The first three pieces parsed, or the error of the first that is missing or malformed. */
  function ReadStamp(date: string, time: string): (r: Result<Stamp, TimeError>)
    ensures r.Ok? ==> FitsI64(r.value.year) && r.value.month < U32_LIMIT && r.value.day < U32_LIMIT
    ensures r.Ok? ==> r.value.hour < U32_LIMIT && r.value.minute < U32_LIMIT && r.value.second < U32_LIMIT
  {
    var d := Split(date, '-');
    var year := ParseI64(d[0]);
    if year.None? then Err(Year)
    else if |d| < 2 || ParseU32(d[1]).None? then Err(Month)
    else if |d| < 3 || ParseU32(d[2]).None? then Err(Day)
    else
      var dot := Find(time, '.');
      var main := if dot.Some? then time[..dot.value] else time;
      var frac := if dot.Some? then Some(time[dot.value + 1..]) else None;
      var t := Split(main, ':');
      if ParseU32(t[0]).None? then Err(Hour)
      else if |t| < 2 || ParseU32(t[1]).None? then Err(Minute)
      else if |t| < 3 || ParseU32(t[2]).None? then Err(Second)
      else Ok(Stamp(year.value, ParseU32(d[1]).value, ParseU32(d[2]).value,
                    ParseU32(t[0]).value, ParseU32(t[1]).value, ParseU32(t[2]).value, frac))
  }

  /** At most three characters of the fraction, filled up with zeros. */
  function Millis(frac: Option<string>): nat {
    match frac
    case None => 0
    case Some(f) =>
      var digits := if |f| < 3 then f else f[..3];
      var padded := digits + seq(3 - |digits|, _ => '0');
      var n := ParseU32(padded);
      if n.Some? then n.value else 0
  }

  function ParseOffset(text: string): Result<int, TimeError> {
    var s := TrimPlus(text);
    var colon := Find(s, ':');
    if colon.Some? then OffsetOf(s[..colon.value], s[colon.value + 1..])
    else if |s| == 4 then OffsetOf(s[..2], s[2..])
    else Err(OffsetFormat)
  }

  function TrimPlus(s: string): string {
    if s != "" && s[0] == '+' then TrimPlus(s[1..]) else s
  }

  function OffsetOf(hours: string, minutes: string): Result<int, TimeError> {
    var h, m := ParseI64(hours), ParseI64(minutes);
    if h.None? then Err(OffsetHour)
    else if m.None? then Err(OffsetMinute)
    else if !FitsI64(h.value * 3_600_000) || !FitsI64(m.value * 60_000) then Err(Overflow)
    else if !FitsI64(h.value * 3_600_000 + m.value * 60_000) then Err(Overflow)
    else Ok(h.value * 3_600_000 + m.value * 60_000)
  }

  /** The part before the offset, and the offset in milliseconds. A sign belongs to the date up to position ten. */
  function SplitOffset(s: string): Result<(string, int), TimeError> {
    var plus := RFind(s, '+');
    var minus := RFind(s, '-');
    if plus.Some? && plus.value > 10 then
      match ParseOffset(s[plus.value..])
      case Err(e) => Err(e)
      case Ok(off) => Ok((s[..plus.value], off))
    else if minus.Some? && minus.value > 10 then
      match ParseOffset("+" + s[minus.value + 1..])
      case Err(e) => Err(e)
      case Ok(off) => if FitsI64(-off) then Ok((s[..minus.value], -off)) else Err(Overflow)
    else Err(MissingOffset)
  }

  function TimeOfDayMs(st: Stamp): int {
    st.hour * 3_600_000 + st.minute * 60_000 + st.second * 1000 + Millis(st.frac)
  }

  function StampMs(st: Stamp, offset: int): Result<nat, TimeError> {
    match DaysFromCivil(st.year, st.month, st.day)
    case Err(e) => Err(e)
    case Ok(days) =>
      var local := days * 86_400_000 + TimeOfDayMs(st);
      if !FitsI64(days * 86_400_000) || !FitsI64(local) || !FitsI64(local - offset) then Err(Overflow)
      else if local - offset < 0 then Err(BeforeEpoch)
      else Ok(local - offset)
  }

  function ParseRfc3339Ms(text: string): (r: Result<nat, TimeError>) {
    var s := Trim(text);
    var normalized := if s != "" && s[|s| - 1] == 'Z' then s[..|s| - 1] + "+00:00" else s;
    match SplitOffset(normalized)
    case Err(e) => Err(e)
    case Ok((datetime, offset)) =>
      var t := Find(datetime, 'T');
      if t.None? then Err(MissingT)
      else
        match ReadStamp(datetime[..t.value], datetime[t.value + 1..])
        case Err(e) => Err(e)
        case Ok(st) => StampMs(st, offset)
  }

  function StampSecs(st: Stamp): Result<nat, TimeError> {
    match ManifestDays(st.year, st.month, st.day)
    case Err(e) => Err(e)
    case Ok(days) =>
      var secs := days * 86400 + st.hour * 3600 + st.minute * 60 + st.second;
      if !FitsI64(days * 86400) || !FitsI64(secs) then Err(Overflow)
      else if secs < 0 then Err(BeforeEpoch)
      else Ok(secs)
  }

  /** The fields of a `Z` timestamp. */
  function ZuluStamp(text: string): Result<Stamp, TimeError> {
    var s := Trim(text);
    if s == "" || s[|s| - 1] != 'Z' then Err(NotZulu)
    else
      var body := s[..|s| - 1];
      var t := Find(body, 'T');
      if t.None? then Err(NotZulu) else ReadStamp(body[..t.value], body[t.value + 1..])
  }

  function ParseRfc3339Secs(text: string): (r: Result<nat, TimeError>) {
    match ZuluStamp(text)
    case Err(e) => Err(e)
    case Ok(st) => StampSecs(st)
  }

  // ---- The two parsers agree on Z timestamps ---------------------------------------------

  lemma {:induction false} ThreePieces(s: string, c: char)
    requires |Split(s, c)| >= 3
    requires Split(s, c)[0] != "" && Split(s, c)[1] != "" && Split(s, c)[2] != ""
    ensures |s| >= 5
  {
    hide Find;
    var i := Find(s, c).value;
    var s1 := s[i + 1..];
    assert Split(s, c)[1..] == Split(s1, c);
    var j := Find(s1, c).value;
    var s2 := s1[j + 1..];
    assert Split(s1, c)[1..] == Split(s2, c);
    assert Split(s2, c)[0] == Split(s, c)[2];
  }

  lemma {:induction false} ReadStampIsLong(date: string, time: string)
    requires ReadStamp(date, time).Ok?
    ensures |date| >= 5 && |time| >= 5
  {
    ThreePieces(date, '-');
    var dot := Find(time, '.');
    ThreePieces(if dot.Some? then time[..dot.value] else time, ':');
  }

  lemma {:induction false} ZeroOffset()
    ensures ParseOffset("+00:00") == Ok(0)
  {
    assert TrimPlus("+00:00") == TrimPlus("00:00") == "00:00";
    assert Find("00:00", ':') == Some(2) by {
      assert "00:00"[1..] == "0:00" && "0:00"[1..] == ":00";
    }
    assert "00:00"[..2] == "00" && "00:00"[3..] == "00";
    assert "00"[..1] == "0" && "0"[..0] == "";
    assert Digits("00") == Some(0);
  }

  /** In a normalized timestamp the last plus sign is the one that was appended, and no minus follows it. */
  lemma {:induction false} AppendedSign(body: string)
    ensures RFind(body + "+00:00", '+') == Some(|body|)
    ensures RFind(body + "+00:00", '-').Some? ==> RFind(body + "+00:00", '-').value < |body|
  {
    hide RFind;
    var s := body + "+00:00";
    assert forall k :: |body| <= k < |s| ==> s[k] == "+00:00"[k - |body|];
    assert s[|body|] == '+';
  }

  lemma {:induction false} NormalizedOffset(body: string)
    requires |body| > 10
    ensures SplitOffset(body + "+00:00") == Ok((body, 0))
  {
    hide RFind, ParseOffset;
    var s := body + "+00:00";
    AppendedSign(body);
    assert s[|body|..] == "+00:00" && s[..|body|] == body;
    ZeroOffset();
  }

  lemma {:induction false} MillisBelowSecond(frac: Option<string>)
    ensures Millis(frac) < 1000
  {
    if frac.Some? {
      var f := frac.value;
      var digits := if |f| < 3 then f else f[..3];
      var padded := digits + seq(3 - |digits|, _ => '0');
      SmallDigits(if padded[0] == '+' then padded[1..] else padded);
    }
  }

  function Power10(n: nat): nat {
    if n == 0 then 1 else 10 * Power10(n - 1)
  }

  lemma {:induction false} DigitsBound(s: string)
    ensures Digits(s).Some? ==> Digits(s).value < Power10(|s|)
  {
    if s != "" {
      DigitsBound(s[..|s| - 1]);
    }
  }

  lemma {:induction false} SmallDigits(s: string)
    requires |s| <= 3
    ensures Digits(s).Some? ==> Digits(s).value < 1000
  {
    DigitsBound(s);
    assert Power10(|s|) <= 1000 by {
      assert Power10(3) == 10 * Power10(2) && Power10(2) == 10 * Power10(1) && Power10(1) == 10;
    }
  }

  /** For a date the checking count accepts, the two conversions differ only by the fraction. */
  lemma {:induction false} StampsAgree(st: Stamp)
    requires DaysFromCivil(st.year, st.month, st.day).Ok?
    requires FitsI64(DaysFromCivil(st.year, st.month, st.day).value * 86_400_000)
    requires FitsI64(DaysFromCivil(st.year, st.month, st.day).value * 86_400_000 + TimeOfDayMs(st))
    requires st.hour < U32_LIMIT && st.minute < U32_LIMIT && st.second < U32_LIMIT
    ensures StampMs(st, 0).Ok? <==> StampSecs(st).Ok?
    ensures StampMs(st, 0).Ok? ==> StampMs(st, 0).value / 1000 == StampSecs(st).value
  {
    DayCountsAgree(st.year, st.month, st.day);
    MillisBelowSecond(st.frac);
    var days := DaysFromCivil(st.year, st.month, st.day).value;
    var secs := days * 86400 + st.hour * 3600 + st.minute * 60 + st.second;
    assert days * 86_400_000 + TimeOfDayMs(st) == 1000 * secs + Millis(st.frac);
  }

  /** The milliseconds parser can represent this stamp's date and time. */
  predicate Representable(st: Stamp) {
    && 1 <= st.month <= 12 && 1 <= st.day <= 31
    && FitsI64(DaysFromCivil(st.year, st.month, st.day).value * 86_400_000)
    && FitsI64(DaysFromCivil(st.year, st.month, st.day).value * 86_400_000 + TimeOfDayMs(st))
  }

  lemma {:induction false} ZuluMs(text: string)
    requires Trim(text) != "" && Trim(text)[|Trim(text)| - 1] == 'Z'
    ensures ZuluStamp(text).Err? ==> ParseRfc3339Ms(text).Err?
    ensures ZuluStamp(text).Ok? ==> ParseRfc3339Ms(text) == StampMs(ZuluStamp(text).value, 0)
  {
    hide Trim, SplitOffset, ReadStamp, Find;
    var s := Trim(text);
    var body := s[..|s| - 1];
    if |body| > 10 {
      NormalizedOffset(body);
    } else {
      ShortBodyFails(body);
      if ZuluStamp(text).Ok? {
        var t := Find(body, 'T').value;
        ReadStampIsLong(body[..t], body[t + 1..]);
      }
    }
  }

  lemma {:induction false} ShortBodyFails(body: string)
    requires |body| <= 10
    ensures SplitOffset(body + "+00:00").Err?
  {
    hide RFind, ParseOffset;
    AppendedSign(body);
  }

  /**
   On `Z` timestamps the milliseconds parser succeeds exactly when the seconds parser does and
   the month, day and magnitude are in range; then its result, cut to seconds, is the other's.
   */
  lemma {:induction false} ParsersAgreeOnZulu(text: string)
    requires Trim(text) != "" && Trim(text)[|Trim(text)| - 1] == 'Z'
    ensures ParseRfc3339Ms(text).Ok? <==> ParseRfc3339Secs(text).Ok? && Representable(ZuluStamp(text).value)
    ensures ParseRfc3339Ms(text).Ok? ==> ParseRfc3339Ms(text).value / 1000 == ParseRfc3339Secs(text).value
  {
    ZuluMs(text);
    if ZuluStamp(text).Ok? && Representable(ZuluStamp(text).value) {
      StampsAgree(ZuluStamp(text).value);
    }
  }

  /** A `Z` timestamp with month thirteen: only the seconds parser takes it, as a date of the next year. */
  lemma {:induction false} OnlySecondsTakesMonthThirteen()
    ensures ParseRfc3339Secs("1970-13-01T00:00:00Z") == Ok(31_536_000)
    ensures ParseRfc3339Ms("1970-13-01T00:00:00Z") == Err(BadYmd)
  {
    hide ParseRfc3339Secs, ParseRfc3339Ms, Render, Millis;
    var st := Stamp(1970, 13, 1, 0, 0, 0, None);
    MonthThirteenText();
    RenderedParses(st);
  }

  lemma {:induction false} MonthThirteenText()
    ensures Render(Stamp(1970, 13, 1, 0, 0, 0, None)) == "1970-13-01T00:00:00Z"
  {
    var st := Stamp(1970, 13, 1, 0, 0, 0, None);
    MonthThirteenParts(st);
    hide RenderDate, RenderTime;
  }

  lemma {:induction false} MonthThirteenParts(st: Stamp)
    requires st == Stamp(1970, 13, 1, 0, 0, 0, None)
    ensures RenderDate(st) == "1970-13-01" && RenderTime(st) == "00:00:00"
  {
    hide Padded, DigitChar;
    Year1970();
    TwoDigits(1, 3, 13);
    TwoDigits(0, 1, 1);
    TwoDigits(0, 0, 0);
    SomeDigitChars();
  }

  lemma {:induction false} SomeDigitChars()
    ensures DigitChar(0) == '0' && DigitChar(1) == '1' && DigitChar(3) == '3' && DigitChar(7) == '7'
            && DigitChar(9) == '9'
  {
  }

  lemma {:induction false} Year1970()
    ensures Padded(1970, 4) == "1970"
  {
    hide Padded, DigitChar;
    SomeDigitChars();
    TwoDigits(1, 9, 19);
    PaddedStep(197, 3);
    PaddedStep(1970, 4);
  }

  lemma {:induction false} TwoDigits(a: nat, b: nat, n: nat)
    requires a < 10 && b < 10 && n == 10 * a + b
    ensures Padded(n, 2) == [DigitChar(a), DigitChar(b)]
  {
    hide Padded, DigitChar;
    assert n / 10 == a && n % 10 == b;
    PaddedStep(a, 1);
    PaddedStep(n, 2);
  }

  // ---- Timestamps that were written are read back ----------------------------------------

  function DigitChar(d: nat): (c: char)
    requires d < 10
    ensures '0' <= c <= '9' && c as int - '0' as int == d
  {
    ('0' as int + d) as char
  }

  /** Decimal digits of `n`, filled up with leading zeros to at least `width`. */
  function Padded(n: nat, width: nat): (s: string)
    ensures |s| >= width
    ensures forall i :: 0 <= i < |s| ==> '0' <= s[i] <= '9'
    decreases n + width
  {
    if n == 0 && width == 0 then ""
    else Padded(n / 10, if width == 0 then 0 else width - 1) + [DigitChar(n % 10)]
  }

  lemma {:induction false} PaddedStep(n: nat, width: nat)
    requires width > 0
    ensures Padded(0, 0) == "" && Padded(n, width) == Padded(n / 10, width - 1) + [DigitChar(n % 10)]
  {
  }

  lemma {:induction false} OneDigitMore(high: string, v: nat, d: nat)
    requires Digits(high) == Some(v) && d < 10
    ensures Digits(high + [DigitChar(d)]) == Some(v * 10 + d)
  {
    hide DigitChar;
    assert (high + [DigitChar(d)])[..|high|] == high;
  }

  lemma {:induction false} PaddedReads(n: nat, width: nat)
    ensures Digits(Padded(n, width)) == Some(n)
    decreases n + width
  {
    if n > 0 || width > 0 {
      var shorter := if width == 0 then 0 else width - 1;
      PaddedReads(n / 10, shorter);
      assert Padded(n, width) == Padded(n / 10, shorter) + [DigitChar(n % 10)];
      hide Padded, Digits, DigitChar;
      OneDigitMore(Padded(n / 10, shorter), n / 10, n % 10);
    }
  }

  function RenderDate(st: Stamp): string
    requires st.year >= 0
  {
    Padded(st.year, 4) + ['-'] + (Padded(st.month, 2) + ['-'] + Padded(st.day, 2))
  }

  function RenderClock(st: Stamp): string {
    Padded(st.hour, 2) + [':'] + (Padded(st.minute, 2) + [':'] + Padded(st.second, 2))
  }

  function RenderTime(st: Stamp): string {
    if st.frac.Some? then RenderClock(st) + ['.'] + st.frac.value else RenderClock(st)
  }

  /** The timestamp as it is published: four-digit year, two-digit fields, any fraction, `Z`. */
  function Render(st: Stamp): string
    requires st.year >= 0
  {
    RenderDate(st) + ['T'] + RenderTime(st) + ['Z']
  }

  predicate InRange(st: Stamp) {
    && 0 <= st.year < I64_LIMIT && st.month < U32_LIMIT && st.day < U32_LIMIT
    && st.hour < U32_LIMIT && st.minute < U32_LIMIT && st.second < U32_LIMIT
  }

  lemma {:induction false} FindFirst(a: string, c: char, b: string)
    requires c !in a
    ensures Find(a + [c] + b, c) == Some(|a|)
  {
    hide Find;
    var s := a + [c] + b;
    assert s[|a|] == c;
    assert forall j :: 0 <= j < |a| ==> s[j] == a[j];
    assert forall i :: |a| < i <= |s| ==> s[..i][|a|] == c;
  }

  lemma {:induction false} FindNothing(s: string, c: char)
    requires c !in s
    ensures Find(s, c) == None
  {
    hide Find;
  }

  lemma {:induction false} SplitThree(a: string, b: string, d: string, c: char)
    requires c !in a && c !in b && c !in d
    ensures Split(a + [c] + (b + [c] + d), c) == [a, b, d]
  {
    hide Find;
    var tail := b + [c] + d;
    var s := a + [c] + tail;
    FindFirst(a, c, tail);
    assert s[..|a|] == a && s[|a| + 1..] == tail;
    FindFirst(b, c, d);
    assert tail[..|b|] == b && tail[|b| + 1..] == d;
    FindNothing(d, c);
    assert Split(d, c) == [d];
    assert Split(tail, c) == [b] + [d];
  }

  lemma {:induction false} FieldReads(n: nat, width: nat)
    requires width > 0
    ensures ParseU32(Padded(n, width)) == if n < U32_LIMIT then Some(n) else None
    ensures ParseI64(Padded(n, width)) == if n < I64_LIMIT then Some(n) else None
  {
    hide Padded, Digits;
    PaddedReads(n, width);
    assert '0' <= Padded(n, width)[0] <= '9';
  }

  /** Numbers are read with a sign in front, as far as their type has one, up to its limits. */
  lemma {:induction false} SignedReads(n: nat, width: nat)
    requires width > 0
    ensures ParseU32("+" + Padded(n, width)) == if n < 0x1_0000_0000 then Some(n) else None
    ensures ParseU32("-" + Padded(n, width)) == None
    ensures ParseI64("+" + Padded(n, width)) == if n < 0x8000_0000_0000_0000 then Some(n) else None
    ensures ParseI64("-" + Padded(n, width)) == if n <= 0x8000_0000_0000_0000 then Some(-(n as int)) else None
  {
    hide Padded, Digits;
    var s := Padded(n, width);
    PaddedReads(n, width);
    assert ("+" + s)[1..] == s && ("-" + s)[1..] == s;
    NoNumber("-" + s, 0);
  }

  /** A timestamp that ends early is refused at the field that is missing. */
  lemma {:induction false} MissingFields(st: Stamp, time: string)
    requires InRange(st)
    ensures ReadStamp("", time) == Err(Year)
    ensures ReadStamp(Padded(st.year, 4), time) == Err(Month)
    ensures ReadStamp(Padded(st.year, 4) + "-" + Padded(st.month, 2), time) == Err(Day)
    ensures ReadStamp(RenderDate(st), "") == Err(Hour)
    ensures ReadStamp(RenderDate(st), Padded(st.hour, 2)) == Err(Minute)
    ensures ReadStamp(RenderDate(st), Padded(st.hour, 2) + ":" + Padded(st.minute, 2)) == Err(Second)
  {
    hide Padded, Find, RenderDate, ParseU32, ParseI64, Split;
    var y, mo, h, mi := Padded(st.year, 4), Padded(st.month, 2), Padded(st.hour, 2), Padded(st.minute, 2);
    FieldReads(st.year, 4);
    FieldReads(st.month, 2);
    FieldReads(st.day, 2);
    FieldReads(st.hour, 2);
    FieldReads(st.minute, 2);
    DateReads(st);
    EmptyField();
    OnePiece("", '-');
    OnePiece("", ':');
    DigitsOnly(st.year, 4, '-');
    DigitsOnly(st.month, 2, '-');
    DigitsOnly(st.hour, 2, ':');
    DigitsOnly(st.minute, 2, ':');
    DigitsOnly(st.hour, 2, '.');
    DigitsOnly(st.minute, 2, '.');
    OnePiece(y, '-');
    OnePiece(h, ':');
    TwoPieces(y, mo, '-');
    TwoPieces(h, mi, ':');
    FindNothing("", '.');
    FindNothing(h, '.');
    FindNothing(h + ":" + mi, '.');
  }

  lemma {:induction false} EmptyField()
    ensures ParseI64("") == None && ParseU32("") == None
  {
  }

  lemma {:induction false} OnePiece(s: string, c: char)
    requires c !in s
    ensures Split(s, c) == [s]
  {
    hide Find;
    FindNothing(s, c);
  }

  lemma {:induction false} TwoPieces(a: string, b: string, c: char)
    requires c !in a && c !in b
    ensures Split(a + [c] + b, c) == [a, b]
  {
    hide Find;
    FindFirst(a, c, b);
    OnePiece(b, c);
    assert (a + [c] + b)[..|a|] == a && (a + [c] + b)[|a| + 1..] == b;
  }

  lemma {:induction false} DigitsOnly(n: nat, width: nat, c: char)
    requires !('0' <= c <= '9')
    ensures c !in Padded(n, width)
  {
    hide Padded;
  }

  lemma {:induction false} DateReads(st: Stamp)
    requires InRange(st)
    ensures Split(RenderDate(st), '-') == [Padded(st.year, 4), Padded(st.month, 2), Padded(st.day, 2)]
    ensures 'T' !in RenderDate(st)
  {
    hide Padded, Split;
    DigitsOnly(st.year, 4, '-');
    DigitsOnly(st.month, 2, '-');
    DigitsOnly(st.day, 2, '-');
    SplitThree(Padded(st.year, 4), Padded(st.month, 2), Padded(st.day, 2), '-');
    DigitsOnly(st.year, 4, 'T');
    DigitsOnly(st.month, 2, 'T');
    DigitsOnly(st.day, 2, 'T');
  }

  lemma {:induction false} ClockReads(st: Stamp)
    ensures Split(RenderClock(st), ':') == [Padded(st.hour, 2), Padded(st.minute, 2), Padded(st.second, 2)]
    ensures '.' !in RenderClock(st)
  {
    hide Padded, Split;
    DigitsOnly(st.hour, 2, ':');
    DigitsOnly(st.minute, 2, ':');
    DigitsOnly(st.second, 2, ':');
    SplitThree(Padded(st.hour, 2), Padded(st.minute, 2), Padded(st.second, 2), ':');
    DigitsOnly(st.hour, 2, '.');
    DigitsOnly(st.minute, 2, '.');
    DigitsOnly(st.second, 2, '.');
  }

  lemma {:induction false} TimeReads(st: Stamp)
    ensures var time := RenderTime(st);
            var dot := Find(time, '.');
            && (if dot.Some? then time[..dot.value] else time) == RenderClock(st)
            && (if dot.Some? then Some(time[dot.value + 1..]) else None) == st.frac
  {
    hide Find, RenderClock;
    ClockReads(st);
    var clock := RenderClock(st);
    if st.frac.Some? {
      FindFirst(clock, '.', st.frac.value);
      var time := clock + ['.'] + st.frac.value;
      assert time[..|clock|] == clock && time[|clock| + 1..] == st.frac.value;
    } else {
      FindNothing(clock, '.');
    }
  }

  /** Every published stamp is read back field by field, whatever its fraction. */
  lemma {:induction false} StampReadsBack(st: Stamp)
    requires InRange(st)
    ensures ReadStamp(RenderDate(st), RenderTime(st)) == Ok(st)
  {
    hide Padded, Split, Find, RenderDate, RenderTime, RenderClock, ParseU32, ParseI64;
    DateReads(st);
    ClockReads(st);
    TimeReads(st);
    FieldReads(st.year, 4);
    FieldReads(st.month, 2);
    FieldReads(st.day, 2);
    FieldReads(st.hour, 2);
    FieldReads(st.minute, 2);
    FieldReads(st.second, 2);
  }

  /** White space around a text is trimmed away. */
  lemma {:induction false} TrimsBlanks(before: string, s: string, after: string)
    requires s != "" && !IsSpace(s[0]) && !IsSpace(s[|s| - 1])
    requires forall i :: 0 <= i < |before| ==> IsSpace(before[i])
    requires forall i :: 0 <= i < |after| ==> IsSpace(after[i])
    ensures Trim(before + s + after) == s
  {
    hide IsSpace;
    TrimsBefore(before, s + after);
    assert before + s + after == before + (s + after);
    TrimsAfter(s, after);
  }

  lemma {:induction false} TrimsBefore(before: string, s: string)
    requires s != "" && !IsSpace(s[0]) && forall i :: 0 <= i < |before| ==> IsSpace(before[i])
    ensures TrimStart(before + s) == s
  {
    hide IsSpace;
    if before == "" {
      assert before + s == s;
    } else {
      TrimsBefore(before[1..], s);
      assert (before + s)[1..] == before[1..] + s;
    }
  }

  lemma {:induction false} TrimsAfter(s: string, after: string)
    requires s != "" && !IsSpace(s[|s| - 1]) && forall i :: 0 <= i < |after| ==> IsSpace(after[i])
    ensures TrimEnd(s + after) == s
  {
    hide IsSpace;
    var n := |after|;
    if n == 0 {
      assert s + after == s;
    } else {
      TrimsAfter(s, after[..n - 1]);
      assert (s + after)[..|s| + n - 1] == s + after[..n - 1];
    }
  }

  lemma {:induction false} NothingToTrim(s: string)
    requires s != "" && !IsSpace(s[0]) && !IsSpace(s[|s| - 1])
    ensures Trim(s) == s
  {
  }

  lemma {:induction false} RenderedZulu(st: Stamp)
    requires InRange(st)
    ensures Trim(Render(st)) == Render(st) && Render(st) != "" && Render(st)[|Render(st)| - 1] == 'Z'
    ensures ZuluStamp(Render(st)) == Ok(st)
  {
    hide Trim, ReadStamp, Find, RenderTime, Padded;
    var date, time, text := RenderDate(st), RenderTime(st), Render(st);
    assert text[0] == Padded(st.year, 4)[0];
    NothingToTrim(text);
    var body := date + ['T'] + time;
    assert text[..|text| - 1] == body;
    DateReads(st);
    FindFirst(date, 'T', time);
    assert body[..|date|] == date && body[|date| + 1..] == time;
    StampReadsBack(st);
  }

  /** Both parsers read a published stamp as the instant its fields name. */
  lemma {:induction false} RenderedParses(st: Stamp)
    requires InRange(st)
    ensures ParseRfc3339Ms(Render(st)) == StampMs(st, 0)
    ensures ParseRfc3339Secs(Render(st)) == StampSecs(st)
  {
    hide Trim, ZuluStamp, Render, ParseRfc3339Ms, StampMs, StampSecs;
    RenderedZulu(st);
    ZuluMs(Render(st));
  }

  // ---- Fractions and offsets that were written are read back -----------------------------

  lemma {:induction false} ThreeDigits(a: nat, b: nat, c: nat)
    requires a < 10 && b < 10 && c < 10
    ensures Digits([DigitChar(a), DigitChar(b), DigitChar(c)]) == Some(100 * a + 10 * b + c)
  {
    hide Digits, DigitChar;
    assert Digits("") == Some(0) by {
      NoDigits();
    }
    assert "" + [DigitChar(a)] == [DigitChar(a)];
    OneDigitMore("", 0, a);
    OneDigitMore([DigitChar(a)], a, b);
    assert [DigitChar(a)] + [DigitChar(b)] == [DigitChar(a), DigitChar(b)];
    OneDigitMore([DigitChar(a), DigitChar(b)], 10 * a + b, c);
    assert [DigitChar(a), DigitChar(b)] + [DigitChar(c)] == [DigitChar(a), DigitChar(b), DigitChar(c)];
  }

  lemma {:induction false} NoDigits()
    ensures Digits("") == Some(0)
  {
  }

  /** A fraction's first three digits are milliseconds; missing ones count as zero, later ones for nothing. */
  lemma {:induction false} FractionMillis(a: nat, b: nat, c: nat, rest: string)
    requires a < 10 && b < 10 && c < 10
    ensures Millis(None) == 0
    ensures Millis(Some([DigitChar(a)])) == 100 * a
    ensures Millis(Some([DigitChar(a), DigitChar(b)])) == 100 * a + 10 * b
    ensures Millis(Some([DigitChar(a), DigitChar(b), DigitChar(c)] + rest)) == 100 * a + 10 * b + c
  {
    var x, y, z := DigitChar(a), DigitChar(b), DigitChar(c);
    hide DigitChar, Digits;
    assert DigitChar(0) == '0';
    ThreeDigits(a, 0, 0);
    ThreeDigits(a, b, 0);
    ThreeDigits(a, b, c);
    assert [x] + seq(2, _ => '0') == [x, '0', '0'];
    assert [x, y] + seq(1, _ => '0') == [x, y, '0'];
    assert ([x, y, z] + rest)[..3] == [x, y, z] && [x, y, z] + seq(0, _ => '0') == [x, y, z];
  }

  lemma {:induction false} NoNumber(s: string, i: nat)
    requires i < |s| && !('0' <= s[i] <= '9')
    ensures Digits(s) == None
  {
    if i < |s| - 1 {
      NoNumber(s[..|s| - 1], i);
    }
  }

  /** A fraction with anything else among its first three characters counts as zero. */
  lemma {:induction false} BadFractionIsZero(f: string, i: nat)
    requires i < 3 && i < |f| && !('0' <= f[i] <= '9') && (i == 0 ==> f[0] != '+')
    ensures Millis(Some(f)) == 0
  {
    hide Digits;
    var digits := if |f| < 3 then f else f[..3];
    var padded := digits + seq(3 - |digits|, _ => '0');
    assert padded[i] == f[i];
    if padded[0] == '+' {
      NoNumber(padded[1..], i - 1);
    } else {
      NoNumber(padded, i);
    }
  }

  /** An offset east or west of Greenwich, with or without the colon. */
  function RenderOffset(east: bool, hours: nat, minutes: nat, colon: bool): string {
    [if east then '+' else '-'] + RenderSpan(hours, minutes, colon)
  }

  function RenderSpan(hours: nat, minutes: nat, colon: bool): string {
    if colon then Padded(hours, 2) + [':'] + Padded(minutes, 2) else Padded(hours, 2) + Padded(minutes, 2)
  }

  lemma {:induction false} PaddedTwo(n: nat)
    requires n < 100
    ensures |Padded(n, 2)| == 2
  {
    hide DigitChar;
    TwoDigits(n / 10, n % 10, n);
  }

  /** The span in milliseconds, or what does not fit in 64 bits. */
  function SpanMs(hours: nat, minutes: nat): Result<int, TimeError> {
    if hours >= I64_LIMIT then Err(OffsetHour)
    else if minutes >= I64_LIMIT then Err(OffsetMinute)
    else if (hours * 60 + minutes) * 60_000 >= I64_LIMIT then Err(Overflow)
    else Ok((hours * 60 + minutes) * 60_000)
  }

  lemma {:induction false} SpanChars(hours: nat, minutes: nat, colon: bool)
    ensures var span := RenderSpan(hours, minutes, colon);
            |span| >= 4 && forall i :: 0 <= i < |span| ==> '0' <= span[i] <= '9' || span[i] == ':'
  {
    hide Padded;
  }

  lemma {:induction false} OffsetOfSpan(hours: nat, minutes: nat)
    ensures OffsetOf(Padded(hours, 2), Padded(minutes, 2)) == SpanMs(hours, minutes)
  {
    hide Padded, ParseI64;
    FieldReads(hours, 2);
    FieldReads(minutes, 2);
  }

  lemma {:induction false} SpanReads(hours: nat, minutes: nat, colon: bool)
    requires colon || (hours < 100 && minutes < 100)
    ensures ParseOffset("+" + RenderSpan(hours, minutes, colon)) == SpanMs(hours, minutes)
  {
    hide Padded, Find, OffsetOf, SpanMs;
    var h, m := Padded(hours, 2), Padded(minutes, 2);
    var span := RenderSpan(hours, minutes, colon);
    OffsetOfSpan(hours, minutes);
    SpanChars(hours, minutes, colon);
    PlusTrimmed(span);
    DigitsOnly(hours, 2, ':');
    DigitsOnly(minutes, 2, ':');
    if colon {
      FindFirst(h, ':', m);
      assert span[..|h|] == h && span[|h| + 1..] == m;
    } else {
      PaddedTwo(hours);
      PaddedTwo(minutes);
      FindNothing(span, ':');
      assert span[..2] == h && span[2..] == m;
    }
  }

  lemma {:induction false} PlusTrimmed(s: string)
    requires s != "" && s[0] != '+'
    ensures TrimPlus("+" + s) == s
  {
    assert ("+" + s)[1..] == s;
  }

  /** The last sign is the offset's. */
  lemma {:induction false} OffsetSplits(body: string, east: bool, hours: nat, minutes: nat, colon: bool)
    requires |body| > 10 && (colon || (hours < 100 && minutes < 100)) && (east || '+' !in body)
    ensures SplitOffset(body + RenderOffset(east, hours, minutes, colon)) ==
            match SpanMs(hours, minutes)
            case Err(e) => Err(e)
            case Ok(span) => Ok((body, if east then span else -span))
  {
    hide RFind, ParseOffset, RenderSpan;
    var span := RenderSpan(hours, minutes, colon);
    var s := body + RenderOffset(east, hours, minutes, colon);
    SpanReads(hours, minutes, colon);
    SpanChars(hours, minutes, colon);
    LastSign(body, if east then '+' else '-', span);
    assert s == body + [if east then '+' else '-'] + span;
    if east {
      assert s[|body|..] == "+" + span;
    } else {
      NoSign(body, span);
    }
  }

  lemma {:induction false} LastSign(body: string, sign: char, span: string)
    requires sign !in span
    ensures var s := body + [sign] + span;
            RFind(s, sign) == Some(|body|) && s[..|body|] == body && s[|body| + 1..] == span
  {
    hide RFind;
    var s := body + [sign] + span;
    assert s[|body| + 1..] == span;
    LastIs(s, sign, |body|);
  }

  lemma {:induction false} NoSign(body: string, span: string)
    requires '+' !in body && '+' !in span
    ensures RFind(body + ['-'] + span, '+') == None
  {
    hide RFind;
  }

  /** A sign up to position ten is not an offset's. */
  lemma {:induction false} EarlySign(body: string, east: bool, hours: nat, minutes: nat, colon: bool)
    requires |body| <= 10
    ensures SplitOffset(body + RenderOffset(east, hours, minutes, colon)) == Err(MissingOffset)
  {
    hide RFind, ParseOffset, RenderSpan;
    SpanChars(hours, minutes, colon);
    var span := RenderSpan(hours, minutes, colon);
    var s := body + RenderOffset(east, hours, minutes, colon);
    assert forall k :: |body| < k < |s| ==> s[k] == span[k - |body| - 1];
  }

  lemma {:induction false} LastIs(s: string, c: char, i: nat)
    requires i < |s| && s[i] == c && c !in s[i + 1..]
    ensures RFind(s, c) == Some(i)
  {
    hide RFind;
    assert forall k :: 0 < k <= i ==> s[k..][i - k] == c;
    assert forall j :: i < j < |s| ==> s[j] == s[i + 1..][j - i - 1];
  }

  /** The body of a published stamp: date and time without an offset. */
  function RenderBody(st: Stamp): string
    requires st.year >= 0
  {
    RenderDate(st) + ['T'] + RenderTime(st)
  }

  lemma {:induction false} BodyHasNoPlus(st: Stamp)
    requires InRange(st) && (st.frac.Some? ==> '+' !in st.frac.value)
    ensures '+' !in RenderBody(st)
  {
    hide Padded;
    DigitsOnly(st.year, 4, '+');
    DigitsOnly(st.month, 2, '+');
    DigitsOnly(st.day, 2, '+');
    NotBetween(Padded(st.year, 4), Padded(st.month, 2), Padded(st.day, 2), '-');
    DigitsOnly(st.hour, 2, '+');
    DigitsOnly(st.minute, 2, '+');
    DigitsOnly(st.second, 2, '+');
    NotBetween(Padded(st.hour, 2), Padded(st.minute, 2), Padded(st.second, 2), ':');
    hide RenderDate, RenderClock;
    assert '+' !in RenderTime(st);
  }

  lemma {:induction false} NotBetween(a: string, b: string, c: string, separator: char)
    requires '+' !in a && '+' !in b && '+' !in c && separator != '+'
    ensures '+' !in a + [separator] + (b + [separator] + c)
  {
  }

  lemma {:induction false} BodyReads(st: Stamp)
    requires InRange(st)
    ensures var body := RenderBody(st);
            && |body| > 10 && !IsSpace(body[0])
            && Find(body, 'T') == Some(|RenderDate(st)|)
            && body[..|RenderDate(st)|] == RenderDate(st) && body[|RenderDate(st)| + 1..] == RenderTime(st)
  {
    hide Padded, Find, RenderTime;
    var date, time := RenderDate(st), RenderTime(st);
    DateReads(st);
    FindFirst(date, 'T', time);
    assert '0' <= Padded(st.year, 4)[0] <= '9';
    assert RenderBody(st)[0] == Padded(st.year, 4)[0];
  }

  /**
   A stamp published with any offset is the instant whose local time, that far east or west, has the stamp's fields:
   days since the epoch, time of day and fraction, less an eastern offset, plus a western one. Without a colon an
   offset has four digits. With a western offset the fraction must hold no plus sign, which would be taken for the
   offset's.
   */
  lemma {:induction false} OffsetParses(st: Stamp, east: bool, hours: nat, minutes: nat, colon: bool)
    requires InRange(st) && IsDate(Date(st.year, st.month, st.day)) && (colon || (hours < 100 && minutes < 100))
    requires !east && st.frac.Some? ==> '+' !in st.frac.value
    ensures var days := DayNumber(Date(st.year, st.month, st.day));
            var local := ((days * 24 + st.hour) * 60 + st.minute) * 60_000 + st.second * 1000 + Millis(st.frac);
            var span := (hours * 60 + minutes) * 60_000;
            var instant := if east then local - span else local + span;
            ParseRfc3339Ms(RenderBody(st) + RenderOffset(east, hours, minutes, colon)) ==
              if SpanMs(hours, minutes).Err? then Err(SpanMs(hours, minutes).error)
              else if !FitsI64(days * 86_400_000) || !FitsI64(local) || !FitsI64(instant) then Err(Overflow)
              else if instant < 0 then Err(BeforeEpoch)
              else Ok(instant)
  {
    hide Trim, SplitOffset, ReadStamp, Find, RenderTime, RenderDate, RenderBody, RenderSpan, StampMs, DayNumber;
    var body, offset := RenderBody(st), RenderOffset(east, hours, minutes, colon);
    var text := body + offset;
    BodyReads(st);
    SpanChars(hours, minutes, colon);
    assert text[0] == body[0] && text[|text| - 1] == offset[|offset| - 1];
    NothingToTrim(text);
    if !east {
      BodyHasNoPlus(st);
    }
    OffsetSplits(body, east, hours, minutes, colon);
    StampReadsBack(st);
    StampInstant(st, if east then (hours * 60 + minutes) * 60_000 else -((hours * 60 + minutes) * 60_000));
  }

  lemma {:induction false} StampInstant(st: Stamp, offset: int)
    requires IsDate(Date(st.year, st.month, st.day))
    ensures var days := DayNumber(Date(st.year, st.month, st.day));
            var local := ((days * 24 + st.hour) * 60 + st.minute) * 60_000 + st.second * 1000 + Millis(st.frac);
            StampMs(st, offset) ==
              if !FitsI64(days * 86_400_000) || !FitsI64(local) || !FitsI64(local - offset) then Err(Overflow)
              else if local - offset < 0 then Err(BeforeEpoch)
              else Ok(local - offset)
  {
    hide Millis;
  }

  lemma {:induction false} StampSeconds(st: Stamp)
    requires IsDate(Date(st.year, st.month, st.day))
    ensures var days := DayNumber(Date(st.year, st.month, st.day));
            var secs := ((days * 24 + st.hour) * 60 + st.minute) * 60 + st.second;
            StampSecs(st) ==
              if !FitsI64(days * 86_400) || !FitsI64(secs) then Err(Overflow)
              else if secs < 0 then Err(BeforeEpoch)
              else Ok(secs)
  {
    hide ManifestDays;
    DayCountsAgree(st.year, st.month, st.day);
  }

  /** A published `Z` timestamp is the instant of its fields, in milliseconds and in seconds. */
  lemma {:induction false} ZuluParses(st: Stamp)
    requires InRange(st) && IsDate(Date(st.year, st.month, st.day))
    ensures var days := DayNumber(Date(st.year, st.month, st.day));
            var secs := ((days * 24 + st.hour) * 60 + st.minute) * 60 + st.second;
            var ms := secs * 1000 + Millis(st.frac);
            && ParseRfc3339Ms(Render(st)) ==
               (if !FitsI64(days * 86_400_000) || !FitsI64(ms) then Err(Overflow)
                else if ms < 0 then Err(BeforeEpoch)
                else Ok(ms))
            && ParseRfc3339Secs(Render(st)) ==
               (if !FitsI64(days * 86_400) || !FitsI64(secs) then Err(Overflow)
                else if secs < 0 then Err(BeforeEpoch)
                else Ok(secs))
  {
    hide ParseRfc3339Ms, ParseRfc3339Secs, Render, StampMs, StampSecs, DayNumber, Millis;
    RenderedParses(st);
    StampInstant(st, 0);
    StampSeconds(st);
  }
}
