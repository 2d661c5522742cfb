/** The legacy event class of the top-level `poopy.py`: an earlier, smaller
    copy of the event lifecycle with the site details stored on the event
    itself, a start time that is always given, and `event_type` strings
    "Discharge", "Offline" and "NoDischarge". Times are whole seconds;
    `datetime.now()` is a `now` parameter. */
module LegacyEvents {
  import opened Wrappers

  /** The site details an event carries. */
  datatype Site = Site(name: string, permitNumber: string, x: real, y: real, receivingWatercourse: string)

  /** The three concrete subclasses of the abstract base class. */
  datatype Kind = Discharge | Offline | NoDischarge

  /** The `event_type` each subclass sets after the base initialiser. The
      legacy classes keep their own strings, "Discharge" and "NoDischarge"
      where the package's classes use "Discharging" and "Not Discharging",
      so this is not `Events.TypeName`. */
  function TypeName(k: Kind): (s: string)
    ensures |s| > 0
  {
    match k
    case Discharge => "Discharge"
    case Offline => "Offline"
    case NoDischarge => "NoDischarge"
  }

  /** Different subclasses carry different `event_type` strings, so the
      string identifies the subclass. */
  lemma TypeNameInjective(a: Kind, b: Kind)
    ensures TypeName(a) == TypeName(b) <==> a == b
  {
  }

  datatype Event = Event(site: Site, kind: Kind, ongoing: bool, start: int, end: Option<int>)

  /** What construction establishes: ongoing exactly when there is no end,
      and no end before the start. */
  predicate Consistent(e: Event) {
    && (e.ongoing <==> e.end.None?)
    && (e.end.Some? ==> e.start <= e.end.value)
  }

  /** `Event.__init__`: the duration is computed before `_validate`, so a
      closed event without an end fails on `None - start` (TypeError); then
      an ongoing event with an end, or an end before the start, raises
      ValueError. */
  function NewEvent(site: Site, kind: Kind, ongoing: bool, start: int, end: Option<int>): (r: Result<Event>)
    ensures r.Ok? <==> Consistent(Event(site, kind, ongoing, start, end))
    ensures r.Err? ==> (r.error == TypeError <==> !ongoing && end.None?)
    ensures r.Err? ==> (r.error == ValueError <==> (ongoing && end.Some?) || (end.Some? && end.value < start))
    ensures r.Ok? ==> r.value == Event(site, kind, ongoing, start, end)
  {
    if !ongoing && end.None? then Err(TypeError)
    else if ongoing && end.Some? then Err(ValueError)
    else if end.Some? && end.value < start then Err(ValueError)
    else Ok(Event(site, kind, ongoing, start, end))
  }

  /** `duration` in minutes: to the end, or to `now` while ongoing. */
  function Duration(e: Event, now: int): (d: real)
    requires Consistent(e)
    ensures !e.ongoing ==> d * 60.0 == (e.end.value - e.start) as real && d >= 0.0
    ensures e.ongoing ==> d * 60.0 == (now - e.start) as real
  {
    if !e.ongoing then (e.end.value - e.start) as real / 60.0
    else (now - e.start) as real / 60.0
  }

  /** The `ongoing` setter: only `False`, only once, stamping the end at
      `now`. */
  function SetOngoing(e: Event, value: bool, now: int): (r: Result<Event>)
    ensures r.Ok? <==> !value && e.ongoing
    ensures r.Err? ==> r.error == ValueError
    ensures r.Ok? ==> r.value == e.(ongoing := false, end := Some(now))
  {
    if value then Err(ValueError)
    else if !e.ongoing then Err(ValueError)
    else Ok(e.(ongoing := false, end := Some(now)))
  }

  /** Closing at or after the start keeps the event consistent, fixes its
      duration at the value it had then, and cannot be repeated. */
  lemma CloseOnce(e: Event, now: int, value: bool, later: int)
    requires Consistent(e) && e.ongoing && e.start <= now
    ensures SetOngoing(e, false, now).Ok?
    ensures Consistent(SetOngoing(e, false, now).value)
    ensures Duration(SetOngoing(e, false, now).value, later) == Duration(e, now)
    ensures SetOngoing(SetOngoing(e, false, now).value, value, later) == Err(ValueError)
  {
  }
}
