/** The age renderer `humanDuration` (main.go:131-160): how long a merge
    request has been open, as "just now", minutes, hours, or days with the
    hour remainder and an escalating warning glyph.

    Times and durations are integers of nanoseconds, as Go's `time.Duration`;
    the clock is the explicit parameter `now` instead of `time.Since`. */
module AgeText {
  import opened Wrappers
  import opened Decimal

  const Minute: int := 60_000_000_000
  const Hour: int := 60 * Minute
  const Day: int := 24 * Hour

  /** The bucket an elapsed time falls into. */
  datatype Age =
    | JustNow
    | Minutes(minutes: nat)
    | Hours(hours: nat)
    | Days(days: nat, remainder: nat)

  /** The buckets the renderer can produce: whole minutes under an hour, whole
      hours under a day, and at least one day with 0..23 remaining hours. */
  predicate WellFormed(a: Age) {
    match a
    case JustNow => true
    case Minutes(m) => 1 <= m <= 59
    case Hours(h) => 1 <= h <= 23
    case Days(n, h) => n >= 1 && h <= 23
  }

  /** The elapsed time `d` lies in the interval that bucket `a` stands for;
      each interval is one unit wide, so truncation picks it. */
  predicate InBucket(d: int, a: Age) {
    match a
    case JustNow => d < Minute
    case Minutes(m) => m * Minute <= d < (m + 1) * Minute
    case Hours(h) => h * Hour <= d < (h + 1) * Hour
    case Days(n, h) => (n * 24 + h) * Hour <= d < (n * 24 + h + 1) * Hour
  }

  /** The `switch` of main.go:134-153 without the formatting: under a minute
      (negative elapsed times included), whole minutes, whole hours, or whole
      days with the remaining whole hours. */
  function Classify(d: int): Age {
    if d < Minute then JustNow
    else if d < Hour then Minutes(d / Minute)
    else if d < Day then Hours(d / Hour)
    else
      var total := d / Hour;
      Days(total / 24, total % 24)
  }

  /** Classify yields a well-formed bucket that holds `d`. */
  lemma ClassifySound(d: int)
    ensures WellFormed(Classify(d)) && InBucket(d, Classify(d))
  {
  }

  /** Two well-formed buckets that share an elapsed time are the same bucket. */
  lemma BucketsDisjoint(d: int, a: Age, b: Age)
    requires WellFormed(a) && WellFormed(b)
    requires InBucket(d, a) && InBucket(d, b)
    ensures a == b
  {
    if a.Days? && b.Days? {
      var k, l := a.days * 24 + a.remainder, b.days * 24 + b.remainder;
      assert k == l;
    }
  }

  /** Classify picks exactly the well-formed bucket containing `d`. */
  lemma ClassifyExact(d: int, a: Age)
    requires WellFormed(a)
    ensures Classify(d) == a <==> InBucket(d, a)
  {
    ClassifySound(d);
    if InBucket(d, a) {
      BucketsDisjoint(d, a, Classify(d));
    }
  }

  /** The glyph of main.go:144-153, each later test overriding the earlier. */
  function Warning(days: int): (w: string)
    ensures days <= 2 ==> w == ""
    ensures days == 3 ==> w == "❓"
    ensures 4 <= days <= 5 ==> w == "😳"
    ensures days >= 6 ==> w == "💀"
  {
    var w0 := "";
    var w1 := if days > 2 then "❓" else w0;
    var w2 := if days > 3 then "😳" else w1;
    if days > 5 then "💀" else w2
  }

  /** The escalation order of the glyphs. */
  function Severity(w: string): nat {
    if w == "💀" then 3
    else if w == "😳" then 2
    else if w == "❓" then 1
    else 0
  }

  /** Older never means a milder glyph. */
  lemma WarningMonotone(d1: int, d2: int)
    requires d1 <= d2
    ensures Severity(Warning(d1)) <= Severity(Warning(d2))
  {
  }

  /** The glyph a bucket carries: only day buckets have one. */
  function WarningOf(a: Age): string {
    if a.Days? then Warning(a.days) else ""
  }

  /** A longer elapsed time never gets a milder glyph. */
  lemma WarningEscalates(d1: int, d2: int)
    requires d1 <= d2
    ensures Severity(WarningOf(Classify(d1))) <= Severity(WarningOf(Classify(d2)))
  {
    if d1 >= Day {
      assert d1 / Hour <= d2 / Hour;
      assert (d1 / Hour) / 24 <= (d2 / Hour) / 24;
      WarningMonotone((d1 / Hour) / 24, (d2 / Hour) / 24);
    }
  }

  /** The text main.go:136-158 writes for a bucket; with no glyph the day form
      keeps its trailing space. */
  function Render(a: Age): string {
    match a
    case JustNow => "just now"
    case Minutes(m) => NatToString(m) + "m"
    case Hours(h) => NatToString(h) + "h"
    case Days(n, h) =>
      if h == 0 then NatToString(n) + "d " + Warning(n)
      else NatToString(n) + "d " + NatToString(h) + "h " + Warning(n)
  }

  /** Reads a rendered age back into its bucket; None for any other text. */
  function ParseAge(s: string): Option<Age> {
    if s == "just now" then Some(JustNow)
    else
      var (ds, rest) := SplitDigits(s);
      if ds == [] then None else ParseUnit(DecimalValue(ds), rest)
  }

  /** What follows the leading number `n`: a unit, or a day tail. */
  function ParseUnit(n: nat, rest: string): Option<Age> {
    if rest == "m" then Some(Minutes(n))
    else if rest == "h" then Some(Hours(n))
    else if |rest| >= 2 && rest[..2] == "d " then ParseDayTail(n, rest[2..])
    else None
  }

  /** What follows "{n}d ": the glyph alone, or "{h}h " and the glyph. */
  function ParseDayTail(n: nat, tail: string): Option<Age> {
    if tail == Warning(n) then Some(Days(n, 0))
    else
      var (hs, glyph) := SplitDigits(tail);
      if hs != [] && glyph == "h " + Warning(n) then Some(Days(n, DecimalValue(hs)))
      else None
  }

  /** No glyph begins with a digit. */
  lemma WarningNotDigit(days: int)
    ensures Warning(days) == [] || !IsDigit(Warning(days)[0])
  {
  }

  /** A numeral followed by a suffix that starts with a non-digit reads back
      as that number followed by the suffix. */
  lemma SplitNumeral(n: nat, rest: string)
    requires rest == [] || !IsDigit(rest[0])
    ensures SplitDigits(NatToString(n) + rest) == (NatToString(n), rest)
    ensures DecimalValue(NatToString(n)) == n
  {
    SplitDigitsAt(NatToString(n), rest);
    ValueOfNatToString(n);
  }

  /** The tail after "{n}d " reads back as the day bucket. */
  lemma DayTailRoundTrip(n: nat, h: nat)
    ensures var w := Warning(n);
      ParseDayTail(n, if h == 0 then w else NatToString(h) + ("h " + w)) == Some(Days(n, h))
  {
    var w := Warning(n);
    if h != 0 {
      var tail := NatToString(h) + ("h " + w);
      WarningNotDigit(n);
      assert tail != w by {
        assert IsDigit(tail[0]);
      }
      SplitNumeral(h, "h " + w);
    }
  }

  /** The text of a day bucket reads back as that bucket. */
  lemma DaysRoundTrip(n: nat, h: nat)
    ensures ParseAge(Render(Days(n, h))) == Some(Days(n, h))
  {
    var w := Warning(n);
    var tail := if h == 0 then w else NatToString(h) + ("h " + w);
    var s := Render(Days(n, h));
    assert s == NatToString(n) + ("d " + tail);
    assert s != "just now" by {
      assert IsDigit(s[0]);
    }
    SplitNumeral(n, "d " + tail);
    assert ("d " + tail)[2..] == tail;
    assert ("d " + tail)[..2] == "d ";
    DayTailRoundTrip(n, h);
  }

  /** Every bucket's text reads back as that bucket. */
  lemma RenderRoundTrip(a: Age)
    ensures ParseAge(Render(a)) == Some(a)
  {
    match a
    case JustNow =>
    case Minutes(m) => SplitNumeral(m, "m");
    case Hours(h) => SplitNumeral(h, "h");
    case Days(n, h) => DaysRoundTrip(n, h);
  }

  /** Distinct buckets never render to the same text. */
  lemma RenderInjective(a: Age, b: Age)
    ensures Render(a) == Render(b) <==> a == b
  {
    RenderRoundTrip(a);
    RenderRoundTrip(b);
  }

  /** `humanDuration(t)` with `time.Since(t)` written as `now - t`. */
  function HumanDuration(now: int, t: int): string {
    Render(Classify(now - t))
  }

  /** The text reads back as the well-formed bucket that holds the elapsed
      time, so it says how old the merge request is to within one unit. */
  lemma HumanDurationReadsBack(now: int, t: int)
    ensures ParseAge(HumanDuration(now, t)).Some?
    ensures var a := ParseAge(HumanDuration(now, t)).value;
      WellFormed(a) && InBucket(now - t, a)
  {
    ClassifySound(now - t);
    RenderRoundTrip(Classify(now - t));
  }

  /** Under a minute, and only then, the text is "just now" (main.go:135-136). */
  lemma JustNowIff(now: int, t: int)
    ensures HumanDuration(now, t) == "just now" <==> now - t < Minute
  {
    RenderInjective(Classify(now - t), JustNow);
  }

  /** Between one minute and one hour: "{m}m" with m the truncated minutes
      (main.go:137-138). */
  lemma MinutesText(now: int, t: int)
    requires Minute <= now - t < Hour
    ensures var m := (now - t) / Minute;
      1 <= m <= 59 && HumanDuration(now, t) == NatToString(m) + "m"
  {
  }

  /** Between one hour and one day: "{h}h" with h the truncated hours
      (main.go:139-140). */
  lemma HoursText(now: int, t: int)
    requires Hour <= now - t < Day
    ensures var h := (now - t) / Hour;
      1 <= h <= 23 && HumanDuration(now, t) == NatToString(h) + "h"
  {
  }

  /** From one day on: whole days and the 0..23 remaining hours make up the
      truncated hours, and the text is "{d}d {glyph}" or "{d}d {h}h {glyph}"
      (main.go:141-158). */
  lemma DaysText(now: int, t: int)
    requires now - t >= Day
    ensures var total := (now - t) / Hour;
      var days, hours := total / 24, total % 24;
      && days >= 1 && 0 <= hours <= 23 && days * 24 + hours == total
      && HumanDuration(now, t) ==
           if hours == 0 then NatToString(days) + "d " + Warning(days)
           else NatToString(days) + "d " + NatToString(hours) + "h " + Warning(days)
  {
  }
}
