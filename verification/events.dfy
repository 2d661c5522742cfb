/** The event lifecycle of `poopy/poopy.py`: a discharge, offline or
    no-discharge period at one monitor, validated on construction and closed
    at most once through the `ongoing` setter, plus the `Monitor` guards on
    its current event and its history.

    Times are whole seconds since 1970-01-01 00:00 on the naive clock the
    package uses; `datetime.now()` is a `now` parameter. Durations are
    minutes as `real`; NaN is `None`. */
module Events {
  import opened Wrappers

  /** The three concrete event classes; the base class is abstract, so
      every event is one of them. */
  datatype EventKind = Discharge | Offline | NoDischarge

  /** The `event_type` string each class sets once the base class has been
      initialised. */
  function TypeName(k: EventKind): (s: string)
    ensures |s| > 0
  {
    match k
    case Discharge => "Discharging"
    case Offline => "Offline"
    case NoDischarge => "Not Discharging"
  }

  /** Different classes carry different `event_type` strings, so the string
      identifies the class. */
  lemma TypeNameInjective(a: EventKind, b: EventKind)
    ensures TypeName(a) == TypeName(b) <==> a == b
  {
  }

  /** An event; a start time may be missing (some companies do not report
      one), an end time is missing while the event is ongoing. */
  datatype Event = Event(kind: EventKind, ongoing: bool, start: Option<int>, end: Option<int>)

  /** What construction establishes: an ongoing event has no end, a closed
      event has an end exactly when it has a start, and it does not end
      before it starts. */
  predicate Consistent(e: Event) {
    && (e.ongoing ==> e.end.None?)
    && (!e.ongoing ==> (e.start.Some? <==> e.end.Some?))
    && (e.start.Some? && e.end.Some? ==> e.start.value <= e.end.value)
  }

  /** `Event.__init__` of a subclass of kind `kind`. The duration is
      computed before `_validate` runs, so a closed event with a start and
      no end fails on `None - start` (TypeError), and an end with no start
      fails on `end < None` (TypeError). */
  function NewEvent(kind: EventKind, ongoing: bool, start: Option<int>, end: Option<int>): (r: Result<Event>)
    ensures r.Ok? <==> Consistent(Event(kind, ongoing, start, end))
    ensures r.Err? ==> (r.error == ValueError <==>
      ((ongoing && end.Some?) || (!ongoing && start.Some? && end.Some? && end.value < start.value)))
    ensures r.Err? ==> r.error == ValueError || r.error == TypeError
    ensures r.Ok? ==> (r.value.kind == kind && r.value.ongoing == ongoing
      && r.value.start == start && r.value.end == end)
  {
    if !ongoing && start.Some? && end.None? then Err(TypeError)
    else if ongoing && end.Some? then Err(ValueError)
    else if end.Some? && start.None? then Err(TypeError)
    else if end.Some? && end.value < start.value then Err(ValueError)
    else Ok(Event(kind, ongoing, start, end))
  }

  /** The event's end, with `now` standing in while it is ongoing. */
  function EndOr(e: Event, now: int): (t: int)
    requires e.ongoing || e.end.Some?
  {
    if e.ongoing then now else e.end.value
  }

  /** The `duration` property in minutes; `None` stands for NaN, which the
      property returns for an event without a start time. */
  function Duration(e: Event, now: int): (d: Option<real>)
    requires Consistent(e)
    ensures d.None? <==> e.start.None?
    ensures d.Some? ==> d.value * 60.0 == (EndOr(e, now) - e.start.value) as real
    ensures d.Some? && !e.ongoing ==> d.value >= 0.0
  {
    if e.start.None? then None
    else if !e.ongoing then Some((e.end.value - e.start.value) as real / 60.0)
    else Some((now - e.start.value) as real / 60.0)
  }

  /** The `ongoing` setter: only `False` is accepted, and only on an
      ongoing event, which it closes at `now`. */
  function SetOngoing(e: Event, value: bool, now: int): (r: Result<Event>)
    ensures r.Ok? <==> !value && e.ongoing
    ensures r.Err? ==> r.error == ValueError
    ensures r.Ok? ==> (!r.value.ongoing && r.value.end == Some(now)
      && r.value.kind == e.kind && r.value.start == e.start)
  {
    if value then Err(ValueError)
    else if !e.ongoing then Err(ValueError)
    else Ok(e.(ongoing := false, end := Some(now)))
  }

  /** Closing is one-way: a closed event can never be set again. */
  lemma CloseOnce(e: Event, now: int, value: bool, later: int)
    requires SetOngoing(e, false, now).Ok?
    ensures SetOngoing(SetOngoing(e, false, now).value, value, later) == Err(ValueError)
  {
  }

  /** Closing a consistent event at or after its start keeps it consistent
      when it has a start, and freezes its duration at the value it had at
      the moment of closing. */
  lemma CloseKeepsDuration(e: Event, now: int, later: int)
    requires Consistent(e) && e.start.Some? && e.start.value <= now
    requires SetOngoing(e, false, now).Ok?
    ensures Consistent(SetOngoing(e, false, now).value)
    ensures Duration(SetOngoing(e, false, now).value, later) == Duration(e, now)
  {
  }

  /** The part of a `Monitor` the guards look at. */
  datatype Monitor = Monitor(siteName: string, current: Option<Event>, history: Option<seq<Event>>)

  /** The `current_event` getter: unset raises ValueError. */
  function CurrentEvent(m: Monitor): (r: Result<Event>)
    ensures r.Ok? <==> m.current.Some?
    ensures r.Err? ==> r.error == ValueError
  {
    if m.current.None? then Err(ValueError) else Ok(m.current.value)
  }

  /** The `current_event` setter: only an ongoing event is accepted. */
  function SetCurrentEvent(m: Monitor, e: Event): (r: Result<Monitor>)
    ensures r.Ok? <==> e.ongoing
    ensures r.Err? ==> r.error == ValueError
    ensures r.Ok? ==> r.value.siteName == m.siteName && r.value.history == m.history
  {
    if !e.ongoing then Err(ValueError) else Ok(m.(current := Some(e)))
  }

  /** Whatever the setter accepted, the getter returns, and it is ongoing. */
  lemma CurrentEventRoundTrip(m: Monitor, e: Event)
    requires SetCurrentEvent(m, e).Ok?
    ensures CurrentEvent(SetCurrentEvent(m, e).value) == Ok(e)
    ensures CurrentEvent(SetCurrentEvent(m, e).value).value.ongoing
  {
  }

  /** The `history` getter: unset raises ValueError. */
  function History(m: Monitor): (r: Result<seq<Event>>)
    ensures r.Ok? <==> m.history.Some?
    ensures r.Err? ==> r.error == ValueError
    ensures r.Ok? ==> r.value == m.history.value
  {
    if m.history.None? then Err(ValueError) else Ok(m.history.value)
  }
}
