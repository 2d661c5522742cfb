/** Queries over a monitor's event history in `poopy/poopy.py`: the minutes
    of discharge since a cutoff (`total_discharge`), between two cutoffs
    (`total_discharge_between`), and the event in force at a given time
    (`event_at`). Only "Discharging" events count towards discharge. */
module Histories {
  import opened Wrappers
  import opened Events

  /** `datetime(2000, 1, 1)`, the cutoff used when none is given. */
  const LongAgo: int := 946684800

  function Max(a: int, b: int): int {
    if a < b then b else a
  }

  /** Length of the part of the period from `a` to `b` that lies after the
      cutoff `s`; zero when the period ends at or before the cutoff. */
  function Overlap(a: int, b: int, s: int): (n: int)
    ensures n >= 0
    ensures b <= s ==> n == 0
    ensures a <= b ==> n <= b - a
  {
    Max(0, b - Max(a, s))
  }

  /** The minutes one event adds to `total_discharge(since)`. Ongoing
      events count from the later of their start and the cutoff until
      `now`; closed events count their part after the cutoff. A missing
      start or end that the comparisons reach raises TypeError. */
  function Contribution(e: Event, since: int, now: int): (r: Result<real>)
    ensures r.Err? <==> (e.kind == Discharge &&
      (if e.ongoing then e.start.None?
       else e.end.None? || (e.end.value > since && e.start.None?)))
    ensures r.Err? ==> r.error == TypeError
    ensures r.Ok? && e.kind != Discharge ==> r.value == 0.0
    ensures r.Ok? && e.kind == Discharge && e.ongoing ==>
      r.value * 60.0 == (now - Max(e.start.value, since)) as real
    ensures r.Ok? && e.kind == Discharge && !e.ongoing && e.start.Some? && e.start.value <= e.end.value ==>
      r.value * 60.0 == Overlap(e.start.value, e.end.value, since) as real
  {
    if e.kind != Discharge then Ok(0.0)
    else if e.ongoing then
      if e.start.None? then Err(TypeError)
      else if e.start.value < since then Ok((now - since) as real / 60.0)
      else Ok((now - e.start.value) as real / 60.0)
    else if e.end.None? then Err(TypeError)
    else if e.end.value < since then Ok(0.0)
    else if e.end.value > since && e.start.None? then Err(TypeError)
    else if e.end.value > since && e.start.value < since then Ok((e.end.value - since) as real / 60.0)
    else if e.end.value > since then Ok((e.end.value - e.start.value) as real / 60.0)
    else Ok(0.0)
  }

  /** For a consistent event, only a missing start can make the
      contribution fail, whatever the cutoff. */
  lemma ContributionFails(e: Event, since: int, now: int)
    requires Consistent(e)
    ensures Contribution(e, since, now).Err? <==> e.kind == Discharge && e.start.None?
  {
  }

  /** A later cutoff never adds discharge time to a consistent event. */
  lemma ContributionMonotone(e: Event, a: int, b: int, now: int)
    requires Consistent(e) && a <= b
    requires Contribution(e, a, now).Ok? && Contribution(e, b, now).Ok?
    ensures Contribution(e, b, now).value <= Contribution(e, a, now).value
  {
    var ca := Contribution(e, a, now).value;
    var cb := Contribution(e, b, now).value;
    if e.kind == Discharge && e.ongoing {
      assert cb * 60.0 <= ca * 60.0;
    } else if e.kind == Discharge && e.start.Some? {
      assert Overlap(e.start.value, e.end.value, b) <= Overlap(e.start.value, e.end.value, a);
      assert cb * 60.0 <= ca * 60.0;
    }
  }

  /** The running total of the loop of `total_discharge` over `h`. */
  function DischargeSum(h: seq<Event>, since: int, now: int): (r: Result<real>)
    ensures r.Ok? <==> forall i :: 0 <= i < |h| ==> Contribution(h[i], since, now).Ok?
    ensures r.Err? ==> r.error == TypeError
  {
    if |h| == 0 then Ok(0.0)
    else
      var c := Contribution(h[0], since, now);
      var rest := DischargeSum(h[1..], since, now);
      assert forall i :: 1 <= i < |h| ==> h[1..][i - 1] == h[i];
      if c.Err? then Err(c.error)
      else if rest.Err? then Err(rest.error)
      else Ok(c.value + rest.value)
  }

  /** Whether the total succeeds does not depend on the cutoff when every
      event is consistent. */
  lemma {:induction false} DischargeSumFails(h: seq<Event>, a: int, b: int, now: int)
    requires forall i :: 0 <= i < |h| ==> Consistent(h[i])
    ensures DischargeSum(h, a, now).Ok? <==> DischargeSum(h, b, now).Ok?
  {
    forall i | 0 <= i < |h|
      ensures Contribution(h[i], a, now).Ok? <==> Contribution(h[i], b, now).Ok?
    {
      ContributionFails(h[i], a, now);
      ContributionFails(h[i], b, now);
    }
  }

  /** The total is non-increasing in the cutoff. */
  lemma {:induction false} DischargeSumMonotone(h: seq<Event>, a: int, b: int, now: int)
    requires forall i :: 0 <= i < |h| ==> Consistent(h[i])
    requires a <= b && DischargeSum(h, a, now).Ok?
    ensures DischargeSum(h, b, now).Ok?
    ensures DischargeSum(h, b, now).value <= DischargeSum(h, a, now).value
  {
    DischargeSumFails(h, a, b, now);
    if |h| > 0 {
      assert forall i :: 1 <= i < |h| ==> h[1..][i - 1] == h[i];
      DischargeSumMonotone(h[1..], a, b, now);
      ContributionMonotone(h[0], a, b, now);
    }
  }

  /** `total_discharge(since)`: the history getter may raise; without a
      cutoff the total runs from 2000-01-01. */
  function TotalDischarge(m: Monitor, since: Option<int>, now: int): (r: Result<real>)
    ensures m.history.None? ==> r == Err(ValueError)
    ensures m.history.Some? ==>
      r == DischargeSum(m.history.value, if since.Some? then since.value else LongAgo, now)
  {
    var h :- History(m);
    DischargeSum(h, if since.Some? then since.value else LongAgo, now)
  }

  /** `total_discharge_between(start, end)`: the total since `start` minus
      the total since `end`. */
  function TotalDischargeBetween(m: Monitor, start: int, end: int, now: int): (r: Result<real>)
    ensures r.Ok? <==> TotalDischarge(m, Some(start), now).Ok? && TotalDischarge(m, Some(end), now).Ok?
    ensures r.Ok? ==>
      r.value == TotalDischarge(m, Some(start), now).value - TotalDischarge(m, Some(end), now).value
  {
    var a :- TotalDischarge(m, Some(start), now);
    var b :- TotalDischarge(m, Some(end), now);
    Ok(a - b)
  }

  /** Between two ordered cutoffs the discharge time is never negative, and
      it fails only when the total since `start` does. */
  lemma BetweenNonNegative(m: Monitor, start: int, end: int, now: int)
    requires m.history.Some? && forall i :: 0 <= i < |m.history.value| ==> Consistent(m.history.value[i])
    requires start <= end
    ensures TotalDischargeBetween(m, start, end, now).Ok? <==> TotalDischarge(m, Some(start), now).Ok?
    ensures TotalDischargeBetween(m, start, end, now).Ok? ==> TotalDischargeBetween(m, start, end, now).value >= 0.0
  {
    var h := m.history.value;
    DischargeSumFails(h, start, end, now);
    if DischargeSum(h, start, now).Ok? {
      DischargeSumMonotone(h, start, end, now);
    }
  }

  /** `event` is in force at `time`: it started strictly before and ends
      strictly after, an ongoing event ending at `now`. */
  predicate Covers(e: Event, time: int, now: int) {
    && e.start.Some? && e.start.value < time
    && (e.ongoing || e.end.Some?)
    && time < EndOr(e, now)
  }

  /** `event` makes the search raise TypeError: its start is missing, or it
      is closed, started before `time` and has no end. */
  predicate Blocks(e: Event, time: int) {
    e.start.None? || (e.start.value < time && !e.ongoing && e.end.None?)
  }

  /** `event_at(time)`: a time after `now` gives `None` before the history
      is read; otherwise the first event of the history in force at `time`,
      or `None` when there is none. */
  method EventAt(m: Monitor, time: int, now: int) returns (r: Result<Option<Event>>)
    ensures time > now ==> r == Ok(None)
    ensures time <= now && m.history.None? ==> r == Err(ValueError)
    ensures time <= now && m.history.Some? && r.Ok? && r.value.Some? ==>
      exists i :: 0 <= i < |m.history.value| && m.history.value[i] == r.value.value
        && Covers(m.history.value[i], time, now)
        && forall j :: 0 <= j < i ==> !Covers(m.history.value[j], time, now) && !Blocks(m.history.value[j], time)
    ensures time <= now && m.history.Some? && r.Ok? && r.value.None? ==>
      forall j :: 0 <= j < |m.history.value| ==> !Covers(m.history.value[j], time, now) && !Blocks(m.history.value[j], time)
    ensures time <= now && m.history.Some? && r.Err? ==> (r.error == TypeError &&
      exists i :: 0 <= i < |m.history.value| && Blocks(m.history.value[i], time)
        && forall j :: 0 <= j < i ==> !Covers(m.history.value[j], time, now))
  {
    if time > now {
      return Ok(None);
    }
    var hr := History(m);
    if hr.Err? {
      return Err(hr.error);
    }
    var h := hr.value;
    var k := 0;
    while k < |h|
      invariant 0 <= k <= |h|
      invariant forall j :: 0 <= j < k ==> !Covers(h[j], time, now) && !Blocks(h[j], time)
    {
      var e := h[k];
      if e.start.None? {
        return Err(TypeError);
      }
      if e.start.value < time {
        if !e.ongoing && e.end.None? {
          return Err(TypeError);
        }
        var end := if e.ongoing then now else e.end.value;
        if time < end {
          return Ok(Some(e));
        }
      }
      k := k + 1;
    }
    return Ok(None);
  }
}
