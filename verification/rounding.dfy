/** `round_time_down_15` and `round_time_up_15` of `poopy/poopy.py`, on
    times in whole seconds since 1970-01-01 00:00. The naive clock has no
    leap seconds and no daylight saving, so every hour starts at a multiple
    of 3600 seconds. */
module Rounding {

  /** The minute of the hour, `time.minute`. */
  function Minute(t: int): (m: int)
    ensures 0 <= m < 60
  {
    (t % 3600) / 60
  }

  /** The start of the hour `t` falls in. */
  function HourStart(t: int): (h: int)
    ensures h % 3600 == 0 && h <= t < h + 3600
  {
    t - t % 3600
  }

  /** The clock arithmetic the rounding rests on: the hour starts at a
      multiple of 3600, the minute covers sixty seconds from it, and the
      next hour starts 3600 seconds later. */
  lemma Clock(t: int)
    ensures HourStart(t) == 3600 * (t / 3600)
    ensures 60 * Minute(t) <= t - HourStart(t) < 60 * Minute(t) + 60
    ensures HourStart(t + 3600) == HourStart(t) + 3600
  {
    assert (t + 3600) / 3600 == t / 3600 + 1;
  }

  /** Whole quarters of an hour from a whole hour fall on a quarter. */
  lemma QuarterSteps(k: int, q: int)
    ensures (3600 * k + 900 * q) % 900 == 0
  {
    assert 3600 * k + 900 * q == 900 * (4 * k + q);
  }

  /** Less than an hour past the start of an hour is still in that hour. */
  lemma SameHour(k: int, x: int)
    requires 0 <= x < 3600
    ensures HourStart(3600 * k + x) == 3600 * k
  {
    assert (3600 * k + x) / 3600 == k;
  }

  /** A time on a quarter hour: zero seconds and minute 0, 15, 30 or 45. */
  predicate OnQuarter(t: int) {
    t % 900 == 0
  }

  /** `round_time_down_15`: the minute is brought down to 0, 15, 30 or 45
      within the same hour, and seconds are zeroed. */
  function RoundDown15(t: int): (r: int)
    ensures OnQuarter(r) && HourStart(r) == HourStart(t)
    ensures r <= t < r + 900
  {
    var minutes := Minute(t);
    var m := if minutes < 15 then 0 else if minutes < 30 then 15 else if minutes < 45 then 30 else 45;
    Clock(t);
    QuarterSteps(t / 3600, m / 15);
    SameHour(t / 3600, m * 60);
    HourStart(t) + m * 60
  }

  /** `round_time_up_15`: the minute is brought up to 15, 30 or 45 within
      the hour, or to 0 of the next hour from minute 45 on. */
  function RoundUp15(t: int): (r: int)
    ensures OnQuarter(r)
    ensures t < r <= t + 900
  {
    var minutes := Minute(t);
    Clock(t);
    if minutes < 45 then
      var m := if minutes < 15 then 15 else if minutes < 30 then 30 else 45;
      QuarterSteps(t / 3600, m / 15);
      HourStart(t) + m * 60
    else
      QuarterSteps(t / 3600, 4);
      HourStart(t + 3600)
  }

  /** A quarter hour has zero seconds and a minute that is 0, 15, 30 or
      45, the form both rounding functions build. */
  lemma QuarterMinute(t: int)
    requires OnQuarter(t)
    ensures t % 60 == 0
    ensures Minute(t) == 0 || Minute(t) == 15 || Minute(t) == 30 || Minute(t) == 45
  {
    var q := t / 900;
    assert t == 900 * q;
    var k := q / 4;
    var j := q % 4;
    assert q == 4 * k + j;
    assert t == 3600 * k + 900 * j;
    SameHour(k, 900 * j);
    assert t % 3600 == 900 * j;
    if j == 0 {
      assert Minute(t) == 0;
    } else if j == 1 {
      assert Minute(t) == 15;
    } else if j == 2 {
      assert Minute(t) == 30;
    } else {
      assert Minute(t) == 45;
    }
    WholeMinutes(15 * q);
  }

  /** A whole number of minutes leaves no seconds. */
  lemma WholeMinutes(a: int)
    ensures (60 * a) % 60 == 0
  {
    var d := (60 * a) / 60;
    var r := (60 * a) % 60;
    assert 60 * a == 60 * d + r;
    assert 60 * (a - d) == r;
  }

  /** Rounding down is the largest quarter hour not after `t`. */
  lemma {:induction false} RoundDownIsFloor(t: int)
    ensures RoundDown15(t) == t - t % 900
  {
    var r := RoundDown15(t);
    var f := t - t % 900;
    assert f % 900 == 0 && f <= t < f + 900;
    assert r % 900 == 0 && r <= t < r + 900;
    Quarters(r, f);
  }

  /** Two quarter hours less than fifteen minutes apart are equal. */
  lemma Quarters(a: int, b: int)
    requires a % 900 == 0 && b % 900 == 0
    requires a - 900 < b < a + 900
    ensures a == b
  {
    var qa := a / 900;
    var qb := b / 900;
    assert a == qa * 900;
    assert b == qb * 900;
  }

  /** Rounding up lands exactly fifteen minutes after rounding down, across
      the hour when the minute is 45 or more. */
  lemma RoundUpIsDownPlus15(t: int)
    ensures RoundUp15(t) == RoundDown15(t) + 900
  {
    var u := RoundUp15(t);
    var d := RoundDown15(t);
    assert (d + 900) % 900 == 0;
    Quarters(u, d + 900);
  }

  /** A quarter hour is its own rounding, down and up by fifteen minutes. */
  lemma RoundOnQuarter(t: int)
    requires OnQuarter(t)
    ensures RoundDown15(t) == t
    ensures RoundUp15(t) == t + 900
  {
    RoundDownIsFloor(t);
    RoundUpIsDownPlus15(t);
  }
}
