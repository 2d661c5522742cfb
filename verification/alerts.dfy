/** The alert table of `poopy/poopy.py`: rows that signal a change of a
    monitor's status ("Start", "Stop", "Offline start", "Offline stop"),
    the per-monitor transition of `WaterCompany.update_alerts_table`, and
    `_alerts_df_to_events_list`, which turns a newest-first alert stream
    back into events.

    Alert kinds stay strings, as in the CSV column they are read from, so
    that an unknown kind can still be represented. Times are whole seconds,
    which is also the resolution of the "%Y-%m-%dT%H:%M:%S" column. */
module Alerts {
  import opened Wrappers
  import opened Events

  const Start: string := "Start"
  const Stop: string := "Stop"
  const OfflineStart: string := "Offline start"
  const OfflineStop: string := "Offline stop"

  /** The four alert kinds `make_alert_row` accepts. */
  predicate KnownKind(k: string) {
    k == Start || k == Stop || k == OfflineStart || k == OfflineStop
  }

  /** The kinds that open a period. */
  predicate StartKind(k: string) {
    k == Start || k == OfflineStart
  }

  /** The Note column: empty, or one of the fixed notes the code writes;
      the two "missed" notes carry the times they mention. */
  datatype Note =
    | Plain
    | NoStartTime
    | Imputed
    | ShiftedStart
    | ShiftedStop
    | MissedEvents(from: int, to: int)
    | MissedDischarges(from: int, to: int)

  /** One row of the table; `created` is the AlertCreated column, the
      company's update timestamp. */
  datatype AlertRow = AlertRow(location: string, time: int, kind: string, created: int, note: Note)

  /** `make_alert_row`. */
  function MakeAlertRow(site: string, kind: string, time: int, timestamp: int, note: Note): (r: Result<AlertRow>)
    ensures r.Ok? <==> KnownKind(kind)
    ensures r.Err? ==> r.error == ValueError
    ensures r.Ok? ==> r.value == AlertRow(site, time, kind, timestamp, note)
  {
    if !KnownKind(kind) then Err(ValueError)
    else Ok(AlertRow(site, time, kind, timestamp, note))
  }

  /** The alert kind `_make_start_alert_row` chooses from an `event_type`
      string. */
  function StartAlertKind(eventType: string): (r: Result<string>)
    ensures r.Ok? <==> exists k: EventKind :: eventType == TypeName(k)
    ensures r.Err? ==> r.error == ValueError
    ensures r.Ok? ==> KnownKind(r.value) && r.value != OfflineStop
    ensures r.Ok? ==> (StartKind(r.value) <==> eventType != TypeName(NoDischarge))
  {
    if eventType == "Not Discharging" then
      assert eventType == TypeName(NoDischarge);
      Ok(Stop)
    else if eventType == "Discharging" then
      assert eventType == TypeName(Discharge);
      Ok(Start)
    else if eventType == "Offline" then
      assert eventType == TypeName(Offline);
      Ok(OfflineStart)
    else
      assert forall k: EventKind :: TypeName(k) in ["Discharging", "Offline", "Not Discharging"];
      Err(ValueError)
  }

  /** `_make_start_alert_row`: the alert that opens the monitor's current
      event, dated at its start, or at the update time with a note when the
      start is unknown. */
  function MakeStartAlertRow(m: Monitor, timestamp: int): (r: Result<AlertRow>)
    ensures r.Ok? <==> m.current.Some?
    ensures r.Err? ==> r.error == ValueError
    ensures r.Ok? ==> r.value.location == m.siteName && r.value.created == timestamp
    ensures r.Ok? ==> KnownKind(r.value.kind) && r.value.kind != OfflineStop
    ensures r.Ok? ==> (StartKind(r.value.kind) <==> m.current.value.kind != NoDischarge)
    ensures r.Ok? ==> (r.value.kind == Start <==> m.current.value.kind == Discharge)
    ensures r.Ok? && m.current.value.start.Some? ==>
      r.value.time == m.current.value.start.value && r.value.note == Plain
    ensures r.Ok? && m.current.value.start.None? ==>
      r.value.time == timestamp && r.value.note == NoStartTime
  {
    var e :- CurrentEvent(m);
    var kind := StartAlertKind(TypeName(e.kind));
    assert kind.Ok?;
    TypeNameInjective(e.kind, NoDischarge);
    TypeNameInjective(e.kind, Discharge);
    if e.start.None? then MakeAlertRow(m.siteName, kind.value, timestamp, timestamp, NoStartTime)
    else MakeAlertRow(m.siteName, kind.value, e.start.value, timestamp, Plain)
  }

  // ---------------------------------------------------------------------
  // The per-monitor transition of `update_alerts_table`.

  /** The monitor has at least one row in the table. */
  predicate HasRows(alerts: seq<AlertRow>, name: string) {
    exists i :: 0 <= i < |alerts| && alerts[i].location == name
  }

  /** The position of the monitor's first row, `alerts[alerts["LocationName"]
      == name].iloc[0]`: its most recent alert. */
  function Latest(alerts: seq<AlertRow>, name: string): (i: nat)
    requires HasRows(alerts, name)
    ensures i < |alerts| && alerts[i].location == name
    ensures forall j :: 0 <= j < i ==> alerts[j].location != name
  {
    if alerts[0].location == name then 0
    else
      assert HasRows(alerts[1..], name) by {
        var i :| 0 <= i < |alerts| && alerts[i].location == name;
        assert alerts[1..][i - 1] == alerts[i];
      }
      1 + Latest(alerts[1..], name)
  }

  /** `b` is `a` with at most the Note of row `i` changed. */
  predicate NoteOnly(a: seq<AlertRow>, b: seq<AlertRow>, i: nat) {
    && |a| == |b| && i < |a|
    && (forall j :: 0 <= j < |a| && j != i ==> b[j] == a[j])
    && b[i] == a[i].(note := b[i].note)
  }

  /** No start-kind alert sits directly on top of another start-kind alert
      in a newest-first run of one monitor's alerts. */
  predicate Alternates(s: seq<AlertRow>) {
    forall k :: 0 <= k < |s| - 1 ==> !(StartKind(s[k].kind) && StartKind(s[k + 1].kind))
  }

  /** The transition for a monitor with a latest alert `alerts[i]` and a
      current start alert `cur` differing in time from it: the branches of
      `update_alerts_table` on the pair (previous kind, new kind). `now`
      stands for the `datetime.now()` read in one branch. It fails only
      with RuntimeError, for a pair no branch handles, or with TypeError,
      when a branch subtracts from a missing start time, and it adds at
      most two rows.

      The pair (Offline stop, Start) has no branch as written (see
      `TransitionAsWritten`); here the new Start goes on top, as after a
      Stop. */
  function Transition(alerts: seq<AlertRow>, i: nat, cur: AlertRow, e: Event, timestamp: int, now: int): (r: Result<seq<AlertRow>>)
    requires i < |alerts|
    ensures r.Err? ==> r.error == RuntimeError || r.error == TypeError
    ensures r == Err(TypeError) ==> e.start.None?
    ensures r.Ok? ==> |alerts| <= |r.value| <= |alerts| + 2
  {
    var name := cur.location;
    var last := alerts[i];
    var prev := last.kind;
    var newKind := cur.kind;
    if prev == Stop && newKind == Start then Ok([cur] + alerts)
    else if prev == Start && newKind == Stop then Ok([cur] + alerts)
    else if prev == OfflineStart && newKind == Start then
      if cur.time < last.time then
        var offStop := MakeAlertRow(name, OfflineStop, timestamp - 1, timestamp, Imputed).value;
        var shifted := MakeAlertRow(name, Start, timestamp, timestamp, ShiftedStart).value;
        Ok([shifted, offStop] + alerts)
      // `start_time - timedelta(seconds=1)` on a missing start
      else if e.start.None? then Err(TypeError)
      else
        var offStop := MakeAlertRow(name, OfflineStop, e.start.value - 1, timestamp, Imputed).value;
        Ok([cur, offStop] + alerts)
    else if prev == OfflineStart && newKind == Stop then
      if cur.time < last.time then
        var offStop := MakeAlertRow(name, OfflineStop, timestamp - 1, timestamp, Imputed).value;
        var shifted := MakeAlertRow(name, Stop, timestamp, timestamp, ShiftedStop).value;
        Ok([shifted, offStop] + alerts)
      else
        var startTime := if e.start.None? then now else e.start.value;
        var offStop := MakeAlertRow(name, OfflineStop, startTime - 1, timestamp, Imputed).value;
        Ok([offStop] + alerts)
    else if prev == Stop && newKind == OfflineStart then Ok([cur] + alerts)
    else if prev == OfflineStop && newKind == OfflineStart then Ok([cur] + alerts)
    else if prev == OfflineStop && newKind == Start then Ok([cur] + alerts)
    else if prev == Start && newKind == OfflineStart then
      // `start_time - timedelta(minutes=1)` on a missing start
      if e.start.None? then Err(TypeError)
      else
        var stop := MakeAlertRow(name, Stop, e.start.value - 60, timestamp, Imputed).value;
        Ok([cur, stop] + alerts)
    else if prev == newKind then
      if e.start.None? then Ok(alerts)
      else if cur.time < last.time then Ok(alerts)
      else Ok(alerts[i := last.(note := MissedEvents(last.time, cur.time))])
    else if prev == OfflineStop && newKind == Stop then
      Ok(alerts[i := last.(note := MissedDischarges(last.time, cur.time))])
    else Err(RuntimeError)
  }

  /** The transition as written: the pair (Offline stop, Start) falls
      through every branch to the final RuntimeError. */
  function TransitionAsWritten(alerts: seq<AlertRow>, i: nat, cur: AlertRow, e: Event, timestamp: int, now: int): (r: Result<seq<AlertRow>>)
    requires i < |alerts|
    ensures alerts[i].kind == OfflineStop && cur.kind == Start ==> r == Err(RuntimeError)
    ensures !(alerts[i].kind == OfflineStop && cur.kind == Start) ==> r == Transition(alerts, i, cur, e, timestamp, now)
  {
    if alerts[i].kind == OfflineStop && cur.kind == Start then Err(RuntimeError)
    else Transition(alerts, i, cur, e, timestamp, now)
  }

  /** As written, of all (previous, new) pairs, only a previous kind
      outside the four known ones and the pair (Offline stop, Start) have
      no action. */
  lemma TransitionUnhandledAsWritten(alerts: seq<AlertRow>, i: nat, cur: AlertRow, e: Event, timestamp: int, now: int)
    requires i < |alerts| && KnownKind(cur.kind) && cur.kind != OfflineStop
    ensures TransitionAsWritten(alerts, i, cur, e, timestamp, now) == Err(RuntimeError) <==>
      !KnownKind(alerts[i].kind) || (alerts[i].kind == OfflineStop && cur.kind == Start)
  {
    TransitionUnhandled(alerts, i, cur, e, timestamp, now);
  }

  /** Corrected: every pair of known kinds has an action, so RuntimeError
      comes only from a previous kind outside the four known ones. */
  lemma TransitionUnhandled(alerts: seq<AlertRow>, i: nat, cur: AlertRow, e: Event, timestamp: int, now: int)
    requires i < |alerts| && KnownKind(cur.kind) && cur.kind != OfflineStop
    ensures Transition(alerts, i, cur, e, timestamp, now) == Err(RuntimeError) <==> !KnownKind(alerts[i].kind)
  {
  }

  /** Corrected: a Start after an Offline stop goes on top of the table. */
  lemma DischargeAfterOfflineStop(alerts: seq<AlertRow>, i: nat, cur: AlertRow, e: Event, timestamp: int, now: int)
    requires i < |alerts|
    ensures alerts[i].kind == OfflineStop && cur.kind == Start ==>
      Transition(alerts, i, cur, e, timestamp, now) == Ok([cur] + alerts)
  {
    KindsDistinct();
  }

  /** The rows a transition puts on top of the table: all for the same
      monitor and of known kinds; together with the latest alert they never
      stack a start-kind alert directly on another. When nothing is put on
      top, at most the Note of the latest alert changes, and it changes
      only for an unchanged kind or for (Offline stop, Stop). */
  lemma TransitionShape(alerts: seq<AlertRow>, i: nat, cur: AlertRow, e: Event, timestamp: int, now: int)
    requires i < |alerts| && alerts[i].location == cur.location
    requires KnownKind(cur.kind) && cur.kind != OfflineStop
    requires Transition(alerts, i, cur, e, timestamp, now).Ok?
    ensures var r := Transition(alerts, i, cur, e, timestamp, now).value;
      || Stacked(alerts, i, r)
      || ((alerts[i].kind == cur.kind || (alerts[i].kind == OfflineStop && cur.kind == Stop))
          && NoteOnly(alerts, r, i))
  {
    var prev := alerts[i].kind;
    if prev == cur.kind || (prev == OfflineStop && cur.kind == Stop) {
      TransitionNotes(alerts, i, cur, e, timestamp, now);
    } else {
      TransitionStacks(alerts, i, cur, e, timestamp, now);
    }
  }

  /** The four alert kinds are different strings. */
  lemma KindsDistinct()
    ensures Start != Stop && Start != OfflineStart && Start != OfflineStop
    ensures Stop != OfflineStart && Stop != OfflineStop && OfflineStart != OfflineStop
  {
    assert Start[1] != Stop[2];
    assert Start[0] != OfflineStart[0] && Start[0] != OfflineStop[0];
    assert Stop[0] != OfflineStart[0] && Stop[0] != OfflineStop[0];
    assert OfflineStart[10] != OfflineStop[10];
  }

  /** An unchanged kind, or (Offline stop, Stop), touches only the Note of
      the latest alert. */
  lemma TransitionNotes(alerts: seq<AlertRow>, i: nat, cur: AlertRow, e: Event, timestamp: int, now: int)
    requires i < |alerts| && KnownKind(cur.kind) && cur.kind != OfflineStop
    requires alerts[i].kind == cur.kind || (alerts[i].kind == OfflineStop && cur.kind == Stop)
    requires Transition(alerts, i, cur, e, timestamp, now).Ok?
    ensures NoteOnly(alerts, Transition(alerts, i, cur, e, timestamp, now).value, i)
  {
    KindsDistinct();
  }

  /** Every other handled pair stacks new alerts on top. */
  lemma TransitionStacks(alerts: seq<AlertRow>, i: nat, cur: AlertRow, e: Event, timestamp: int, now: int)
    requires i < |alerts| && alerts[i].location == cur.location
    requires KnownKind(cur.kind) && cur.kind != OfflineStop
    requires alerts[i].kind != cur.kind && !(alerts[i].kind == OfflineStop && cur.kind == Stop)
    requires Transition(alerts, i, cur, e, timestamp, now).Ok?
    ensures Stacked(alerts, i, Transition(alerts, i, cur, e, timestamp, now).value)
  {
    KindsDistinct();
    if alerts[i].kind == OfflineStart {
      StacksAfterOffline(alerts, i, cur, e, timestamp, now);
    } else {
      StacksAfterOther(alerts, i, cur, e, timestamp, now);
    }
  }

  /** After an Offline start, an Offline stop is imputed below the new
      alert, or below a shifted one when the new alert predates it. */
  lemma StacksAfterOffline(alerts: seq<AlertRow>, i: nat, cur: AlertRow, e: Event, timestamp: int, now: int)
    requires i < |alerts| && alerts[i].location == cur.location
    requires alerts[i].kind == OfflineStart && (cur.kind == Start || cur.kind == Stop)
    requires Transition(alerts, i, cur, e, timestamp, now).Ok?
    ensures Stacked(alerts, i, Transition(alerts, i, cur, e, timestamp, now).value)
  {
    KindsDistinct();
    var name := cur.location;
    var ts := timestamp;
    if cur.kind == Start {
      if cur.time < alerts[i].time {
        Stack(alerts, i, [AlertRow(name, ts, Start, ts, ShiftedStart), AlertRow(name, ts - 1, OfflineStop, ts, Imputed)], name);
      } else {
        Stack(alerts, i, [cur, AlertRow(name, e.start.value - 1, OfflineStop, ts, Imputed)], name);
      }
    } else {
      if cur.time < alerts[i].time {
        Stack(alerts, i, [AlertRow(name, ts, Stop, ts, ShiftedStop), AlertRow(name, ts - 1, OfflineStop, ts, Imputed)], name);
      } else {
        var startTime := if e.start.None? then now else e.start.value;
        Stack(alerts, i, [AlertRow(name, startTime - 1, OfflineStop, ts, Imputed)], name);
      }
    }
  }

  /** After a Stop, a Start or an Offline stop, the new alert goes on top,
      with a Stop imputed below it when a discharge goes offline. */
  lemma StacksAfterOther(alerts: seq<AlertRow>, i: nat, cur: AlertRow, e: Event, timestamp: int, now: int)
    requires i < |alerts| && alerts[i].location == cur.location
    requires KnownKind(cur.kind) && cur.kind != OfflineStop
    requires alerts[i].kind != OfflineStart
    requires alerts[i].kind != cur.kind && !(alerts[i].kind == OfflineStop && cur.kind == Stop)
    requires Transition(alerts, i, cur, e, timestamp, now).Ok?
    ensures Stacked(alerts, i, Transition(alerts, i, cur, e, timestamp, now).value)
  {
    KindsDistinct();
    var prev := alerts[i].kind;
    if prev == Start && cur.kind == OfflineStart {
      Stack(alerts, i, [cur, AlertRow(cur.location, e.start.value - 60, Stop, timestamp, Imputed)], cur.location);
    } else {
      Stack(alerts, i, [cur], cur.location);
    }
  }

  /** Rows put on top of the table: the latest alert `alerts[i]` is kept
      below them, they all belong to the monitor, have known kinds, and
      alternate with that alert. */
  predicate Stacked(alerts: seq<AlertRow>, i: nat, r: seq<AlertRow>)
    requires i < |alerts|
  {
    && |r| > |alerts| && r[|r| - |alerts|..] == alerts
    && (forall k :: 0 <= k < |r| - |alerts| ==> r[k].location == alerts[i].location && KnownKind(r[k].kind))
    && Alternates(r[..|r| - |alerts|] + [alerts[i]])
  }

  /** Putting `added` on top of the table stacks it. */
  lemma Stack(alerts: seq<AlertRow>, i: nat, added: seq<AlertRow>, name: string)
    requires i < |alerts| && alerts[i].location == name && |added| > 0
    requires forall k :: 0 <= k < |added| ==> added[k].location == name && KnownKind(added[k].kind)
    requires Alternates(added + [alerts[i]])
    ensures Stacked(alerts, i, added + alerts)
  {
    var r := added + alerts;
    assert r[|r| - |alerts|..] == alerts;
    assert r[..|r| - |alerts|] == added;
  }

  /** The update of one monitor's alerts: a monitor without rows gets its
      start alert on top; otherwise nothing happens when its latest alert
      carries the same time as its current start alert, and the transition
      runs when the times differ (the corrected one, with its branch for
      (Offline stop, Start)). */
  function UpdateMonitor(alerts: seq<AlertRow>, m: Monitor, timestamp: int, now: int): (r: Result<seq<AlertRow>>)
    ensures m.current.None? ==> r == Err(ValueError)
    ensures r.Ok? ==> HasRows(r.value, m.siteName)
    ensures r.Ok? && !HasRows(alerts, m.siteName) ==>
      r.value == [MakeStartAlertRow(m, timestamp).value] + alerts
    ensures (r.Ok? && HasRows(alerts, m.siteName)
      && alerts[Latest(alerts, m.siteName)].time == MakeStartAlertRow(m, timestamp).value.time) ==>
      r.value == alerts
    ensures r.Ok? && HasRows(alerts, m.siteName) ==>
      || Stacked(alerts, Latest(alerts, m.siteName), r.value)
      || NoteOnly(alerts, r.value, Latest(alerts, m.siteName))
  {
    var name := m.siteName;
    if !HasRows(alerts, name) then
      var row :- MakeStartAlertRow(m, timestamp);
      assert ([row] + alerts)[0].location == name;
      Ok([row] + alerts)
    else
      var i := Latest(alerts, name);
      var cur :- MakeStartAlertRow(m, timestamp);
      if alerts[i].time == cur.time then
        assert NoteOnly(alerts, alerts, i);
        Ok(alerts)
      else
        var r := Transition(alerts, i, cur, m.current.value, timestamp, now);
        if r.Ok? then
          TransitionShape(alerts, i, cur, m.current.value, timestamp, now);
          KeepsRows(alerts, r.value, i, name);
          r
        else r
  }

  /** When the monitor has rows and its current start alert carries a
      time other than that of its latest alert, the update is the
      transition on that pair. */
  lemma UpdateMonitorRuns(alerts: seq<AlertRow>, m: Monitor, timestamp: int, now: int)
    requires m.current.Some? && HasRows(alerts, m.siteName)
    requires alerts[Latest(alerts, m.siteName)].time != MakeStartAlertRow(m, timestamp).value.time
    ensures UpdateMonitor(alerts, m, timestamp, now) ==
      Transition(alerts, Latest(alerts, m.siteName), MakeStartAlertRow(m, timestamp).value, m.current.value, timestamp, now)
  {
  }

  /** The update of one monitor as written: the same as `UpdateMonitor`
      with `TransitionAsWritten` in place of the corrected transition, so
      it differs exactly when a discharge starts after an Offline stop, and
      then it raises RuntimeError where the corrected update succeeds. */
  function UpdateMonitorAsWritten(alerts: seq<AlertRow>, m: Monitor, timestamp: int, now: int): (r: Result<seq<AlertRow>>)
    ensures !(&& m.current.Some? && HasRows(alerts, m.siteName)
              && alerts[Latest(alerts, m.siteName)].time != MakeStartAlertRow(m, timestamp).value.time
              && alerts[Latest(alerts, m.siteName)].kind == OfflineStop && m.current.value.kind == Discharge) ==>
      r == UpdateMonitor(alerts, m, timestamp, now)
    ensures (&& m.current.Some? && HasRows(alerts, m.siteName)
             && alerts[Latest(alerts, m.siteName)].time != MakeStartAlertRow(m, timestamp).value.time
             && alerts[Latest(alerts, m.siteName)].kind == OfflineStop && m.current.value.kind == Discharge) ==>
      r == Err(RuntimeError) && UpdateMonitor(alerts, m, timestamp, now).Ok?
  {
    if m.current.Some? && HasRows(alerts, m.siteName) then
      var i := Latest(alerts, m.siteName);
      var cur := MakeStartAlertRow(m, timestamp).value;
      if alerts[i].time != cur.time then
        UpdateMonitorRuns(alerts, m, timestamp, now);
        DischargeAfterOfflineStop(alerts, i, cur, m.current.value, timestamp, now);
        TransitionAsWritten(alerts, i, cur, m.current.value, timestamp, now)
      else UpdateMonitor(alerts, m, timestamp, now)
    else UpdateMonitor(alerts, m, timestamp, now)
  }

  /** Counterexample: a monitor whose latest alert is an Offline start at
      `t0` and whose current event is "not discharging" from `s`, later
      than `t0 + 1`, gets only an imputed Offline stop at `s - 1` on top.
      When it then starts discharging at any time other than `s - 1`, the
      update raises RuntimeError as written, while the corrected update
      puts the Start on top. */
  lemma OfflineThenDischargeAsWritten(name: string, t0: int, s: int, s2: int, ts: int, ts2: int, now: int,
                                      e1: Event, e2: Event, h1: Option<seq<Event>>, h2: Option<seq<Event>>)
    requires t0 + 1 < s && s2 != s - 1
    requires e1.kind == NoDischarge && e1.start == Some(s)
    requires e2.kind == Discharge && e2.start == Some(s2)
    ensures var a0 := [AlertRow(name, t0, OfflineStart, ts, Plain)];
      var a1 := [AlertRow(name, s - 1, OfflineStop, ts, Imputed)] + a0;
      && UpdateMonitorAsWritten(a0, Monitor(name, Some(e1), h1), ts, now) == Ok(a1)
      && UpdateMonitorAsWritten(a1, Monitor(name, Some(e2), h2), ts2, now) == Err(RuntimeError)
      && UpdateMonitor(a1, Monitor(name, Some(e2), h2), ts2, now) == Ok([AlertRow(name, s2, Start, ts2, Plain)] + a1)
  {
    KindsDistinct();
    var a0 := [AlertRow(name, t0, OfflineStart, ts, Plain)];
    var a1 := [AlertRow(name, s - 1, OfflineStop, ts, Imputed)] + a0;
    var m1, m2 := Monitor(name, Some(e1), h1), Monitor(name, Some(e2), h2);
    assert a0[0].location == name && a1[0].location == name;
    assert Latest(a0, name) == 0 && Latest(a1, name) == 0;
    var cur1, cur2 := AlertRow(name, s, Stop, ts, Plain), AlertRow(name, s2, Start, ts2, Plain);
    assert MakeStartAlertRow(m1, ts) == Ok(cur1);
    assert MakeStartAlertRow(m2, ts2) == Ok(cur2);
    UpdateMonitorRuns(a0, m1, ts, now);
    assert Transition(a0, 0, cur1, e1, ts, now) == Ok(a1);
    UpdateMonitorRuns(a1, m2, ts2, now);
    DischargeAfterOfflineStop(a1, 0, cur2, e2, ts2, now);
  }

  /** A table that keeps row `i` of `a` (up to its Note) as a suffix
      element or in place still has rows for that row's monitor. */
  lemma KeepsRows(a: seq<AlertRow>, b: seq<AlertRow>, i: nat, name: string)
    requires i < |a| && a[i].location == name
    requires Stacked(a, i, b) || NoteOnly(a, b, i)
    ensures HasRows(b, name)
  {
    if Stacked(a, i, b) {
      assert b[|b| - |a| + i] == a[i];
    } else {
      assert b[i].location == name;
    }
  }

  /** An update never loses a monitor's rows. */
  lemma UpdateKeepsRows(alerts: seq<AlertRow>, m: Monitor, timestamp: int, now: int, name: string)
    requires HasRows(alerts, name)
    requires UpdateMonitor(alerts, m, timestamp, now).Ok?
    ensures HasRows(UpdateMonitor(alerts, m, timestamp, now).value, name)
  {
    var r := UpdateMonitor(alerts, m, timestamp, now).value;
    var i := Latest(alerts, name);
    if !HasRows(alerts, m.siteName) {
      assert r[1 + i] == alerts[i];
    } else {
      var j := Latest(alerts, m.siteName);
      if Stacked(alerts, j, r) {
        assert r[|r| - |alerts| + i] == alerts[i];
      } else {
        assert r[i].location == alerts[i].location;
      }
    }
  }

  /** One monitor's update, seen only through what it keeps: the monitor
      has rows afterwards, and no monitor loses its rows. */
  method ApplyUpdate(alerts: seq<AlertRow>, m: Monitor, timestamp: int, now: int) returns (r: Result<seq<AlertRow>>)
    ensures r == UpdateMonitor(alerts, m, timestamp, now)
  {
    r := UpdateMonitor(alerts, m, timestamp, now);
  }

  /** The same update with only its row-keeping facts in view. */
  method UpdateStep(alerts: seq<AlertRow>, m: Monitor, timestamp: int, now: int) returns (r: Result<seq<AlertRow>>)
    ensures m.current.None? ==> r.Err?
    ensures r.Ok? ==> HasRows(r.value, m.siteName)
    ensures r.Ok? ==> forall name :: HasRows(alerts, name) ==> HasRows(r.value, name)
  {
    r := ApplyUpdate(alerts, m, timestamp, now);
    if r.Ok? {
      forall name | HasRows(alerts, name)
        ensures HasRows(r.value, name)
      {
        UpdateKeepsRows(alerts, m, timestamp, now, name);
      }
    }
  }

  /** `_make_start_alert_row` with only what the first table needs in
      view. */
  method StartRow(m: Monitor, timestamp: int) returns (r: Result<AlertRow>)
    ensures r.Ok? <==> m.current.Some?
    ensures r.Ok? ==> r.value.location == m.siteName && KnownKind(r.value.kind)
  {
    r := MakeStartAlertRow(m, timestamp);
  }

  /** `update_alerts_table` before the final re-sort by time: a missing
      table is created from every monitor's start alert in monitor order;
      an existing one is updated monitor by monitor. Afterwards every
      monitor has rows and no monitor has lost its rows. */
  method UpdateAlertsTable(table: Option<seq<AlertRow>>, monitors: seq<Monitor>, timestamp: int, now: int)
    returns (r: Result<seq<AlertRow>>)
    ensures (exists k :: 0 <= k < |monitors| && monitors[k].current.None?) ==> r.Err?
    ensures r.Ok? ==> forall k :: 0 <= k < |monitors| ==> HasRows(r.value, monitors[k].siteName)
    ensures r.Ok? && table.Some? ==> forall name :: HasRows(table.value, name) ==> HasRows(r.value, name)
    ensures table.None? ==> (r.Ok? <==> forall k :: 0 <= k < |monitors| ==> monitors[k].current.Some?)
    ensures r.Ok? && table.None? ==> (|r.value| == |monitors|
      && forall k :: 0 <= k < |monitors| ==> r.value[k].location == monitors[k].siteName && KnownKind(r.value[k].kind))
  {
    if table.None? {
      var rows: seq<AlertRow> := [];
      for k := 0 to |monitors|
        invariant |rows| == k
        invariant forall j :: 0 <= j < k ==> monitors[j].current.Some?
        invariant forall j :: 0 <= j < k ==> rows[j].location == monitors[j].siteName && KnownKind(rows[j].kind)
      {
        var row := StartRow(monitors[k], timestamp);
        if row.Err? {
          return Err(row.error);
        }
        rows := rows + [row.value];
      }
      forall k | 0 <= k < |monitors|
        ensures HasRows(rows, monitors[k].siteName)
      {
        assert rows[k].location == monitors[k].siteName;
      }
      return Ok(rows);
    }
    var alerts := table.value;
    for k := 0 to |monitors|
      invariant forall j :: 0 <= j < k ==> HasRows(alerts, monitors[j].siteName)
      invariant forall name :: HasRows(table.value, name) ==> HasRows(alerts, name)
      invariant forall j :: 0 <= j < k ==> monitors[j].current.Some?
    {
      var next := UpdateStep(alerts, monitors[k], timestamp, now);
      if next.Err? {
        return Err(next.error);
      }
      alerts := next.value;
    }
    return Ok(alerts);
  }

  // ---------------------------------------------------------------------
  // `_alerts_df_to_events_list`.

  /** The event that an adjacent pair of the newest-first stream describes,
      `newer` on top of `older`: a Stop over a Start is a discharge, an
      Offline stop over an Offline start is an offline period, and a
      start-kind alert over any alert that is not start-kind closes a
      period without discharge. Any other pair describes nothing. */
  function PairKind(newer: string, older: string): (k: Option<EventKind>)
    ensures k == Some(Discharge) <==> newer == Stop && older == Start
    ensures k == Some(Offline) <==> newer == OfflineStop && older == OfflineStart
    ensures k == Some(NoDischarge) <==> StartKind(newer) && !StartKind(older)
  {
    if newer == Stop && older == Start then Some(Discharge)
    else if newer == OfflineStop && older == OfflineStart then Some(Offline)
    else if StartKind(newer) && !StartKind(older) then Some(NoDischarge)
    else None
  }

  /** The closed event for the valid pair at positions `k` and `k + 1`: from
      the older alert's time to the newer one's. */
  function PairEvent(rows: seq<AlertRow>, k: nat): Event
    requires k + 1 < |rows| && PairKind(rows[k].kind, rows[k + 1].kind).Some?
  {
    Event(PairKind(rows[k].kind, rows[k + 1].kind).value, false, Some(rows[k + 1].time), Some(rows[k].time))
  }

  /** The valid pair at `k` has its alerts out of time order, so building
      its event raises ValueError. */
  predicate Inverted(rows: seq<AlertRow>, k: nat)
    requires k + 1 < |rows|
  {
    PairKind(rows[k].kind, rows[k + 1].kind).Some? && rows[k].time < rows[k + 1].time
  }

  /** The events of the valid pairs starting below position `k`, in
      stream order. */
  function PairEvents(rows: seq<AlertRow>, k: nat): (es: seq<Event>)
    requires k < |rows|
    ensures |es| <= k
  {
    if k == 0 then []
    else
      var before := PairEvents(rows, k - 1);
      if PairKind(rows[k - 1].kind, rows[k].kind).Some? then before + [PairEvent(rows, k - 1)]
      else before
  }

  /** Every event read from a stream without inverted pairs is a closed,
      consistent event; its kind is that of a valid pair, and it runs from
      the older alert of that pair to the newer one. */
  lemma {:induction false} PairEventsClosed(rows: seq<AlertRow>, k: nat)
    requires k < |rows|
    requires forall j :: 0 <= j < k ==> !Inverted(rows, j)
    ensures forall e :: e in PairEvents(rows, k) ==> (Consistent(e) && !e.ongoing &&
      exists j :: 0 <= j < k && PairKind(rows[j].kind, rows[j + 1].kind) == Some(e.kind)
        && e.start == Some(rows[j + 1].time) && e.end == Some(rows[j].time))
  {
    if k > 0 {
      PairEventsClosed(rows, k - 1);
      var before := PairEvents(rows, k - 1);
      if PairKind(rows[k - 1].kind, rows[k].kind).Some? {
        var e := PairEvent(rows, k - 1);
        assert !Inverted(rows, k - 1);
        assert Consistent(e);
        assert PairEvents(rows, k) == before + [e];
        forall x | x in PairEvents(rows, k)
          ensures Consistent(x) && !x.ongoing &&
            exists j :: 0 <= j < k && PairKind(rows[j].kind, rows[j + 1].kind) == Some(x.kind)
              && x.start == Some(rows[j + 1].time) && x.end == Some(rows[j].time)
        {
          if x == e {
            assert PairKind(rows[k - 1].kind, rows[k].kind) == Some(x.kind);
          }
        }
      }
    }
  }

  /** `_alerts_df_to_events_list`: the monitor's current event first, then
      one closed event per valid adjacent pair of the stream, read from the
      newest alert down. The current event is read before the stream is
      looked at, so an unset one raises even for an empty stream; rows of
      any other monitor raise a bare Exception. */
  method AlertsToEvents(rows: seq<AlertRow>, m: Monitor) returns (r: Result<seq<Event>>)
    ensures m.current.None? ==> r == Err(ValueError)
    ensures m.current.Some? && |rows| == 0 ==> r == Ok([])
    ensures m.current.Some? && |rows| > 0 ==>
      ((exists k :: 0 <= k < |rows| && rows[k].location != m.siteName) ==> r == Err(PlainException))
    ensures m.current.Some? && |rows| > 0 && (forall k :: 0 <= k < |rows| ==> rows[k].location == m.siteName) ==>
      && (r.Err? <==> exists k :: 0 <= k < |rows| - 1 && Inverted(rows, k))
      && (r.Err? ==> r.error == ValueError)
      && (r.Ok? ==> r.value == [m.current.value] + PairEvents(rows, |rows| - 1))
  {
    var current :- CurrentEvent(m);
    if |rows| == 0 {
      return Ok([]);
    }
    if exists k :: 0 <= k < |rows| && rows[k].location != m.siteName {
      return Err(PlainException);
    }
    var history := [current];
    var n := |rows|;
    var index := 0;
    while index < n - 1
      invariant 0 <= index <= n - 1
      invariant history == [current] + PairEvents(rows, index)
      invariant forall j :: 0 <= j < index ==> !Inverted(rows, j)
    {
      var row := rows[index];
      var next := rows[index + 1];
      if row.kind == Stop {
        if next.kind == Start {
          var event := NewEvent(Discharge, false, Some(next.time), Some(row.time));
          if event.Err? {
            assert Inverted(rows, index);
            return Err(event.error);
          }
          history := history + [event.value];
        }
      } else if row.kind == OfflineStop {
        if next.kind == OfflineStart {
          var event := NewEvent(Offline, false, Some(next.time), Some(row.time));
          if event.Err? {
            assert Inverted(rows, index);
            return Err(event.error);
          }
          history := history + [event.value];
        }
      } else if row.kind == Start || row.kind == OfflineStart {
        if !(next.kind == Start || next.kind == OfflineStart) {
          var event := NewEvent(NoDischarge, false, Some(next.time), Some(row.time));
          if event.Err? {
            assert Inverted(rows, index);
            return Err(event.error);
          }
          history := history + [event.value];
        }
      }
      index := index + 1;
    }
    return Ok(history);
  }

  /** The events read from a stream are never more than its alerts. */
  lemma EventsBounded(rows: seq<AlertRow>, m: Monitor)
    requires m.current.Some? && |rows| > 0
    ensures |[m.current.value] + PairEvents(rows, |rows| - 1)| <= |rows|
  {
  }
}
