/**
 The plain-script variants (one typed, one untyped, with the same logic):
 a module-level log array mutated in place and metrics written into the
 page, modelled here as a state value passed from handler to handler.
 */
module VanillaApp {
  import opened Js
  import opened ScrollMetrics
  import opened BoundedLog
  import opened Events

  /** A logged event; these variants carry no caption. */
  datatype LogRecord = LogRecord(id: string, kind: Kind, timestamp: string)

  /** `addLog`: push the new record, then shift once if the log has grown
      past `Capacity`. The record goes last; at most the oldest entry leaves,
      and only from a full log. */
  function AddLog(logs: seq<LogRecord>, id: string, kind: Kind, timestamp: string): (r: seq<LogRecord>)
    ensures r != [] && r[|r| - 1] == LogRecord(id, kind, timestamp)
    ensures |logs| < Capacity ==> r == logs + [r[|r| - 1]]
    ensures Capacity <= |logs| ==> |r| == |logs| && [logs[0]] + r == logs + [r[|r| - 1]]
    ensures |logs| <= Capacity ==> |r| <= Capacity && r == Window(logs + [r[|r| - 1]])
  {
    var record := LogRecord(id, kind, timestamp);
    PushShiftIsWindow(logs, record);
    PushShift(logs, record)
  }

  /** The log and the four metrics as last written into the page. */
  datatype State = State(logs: seq<LogRecord>, shown: Metrics)

  /** The state after the script's initial `updateMetrics()` call, starting
      from the metrics the page shows before any measurement. */
  function Start(shown: Metrics, scroller: Option<Geometry>): (s: State)
    ensures s.logs == []
    ensures scroller.None? ==> s.shown == shown
    ensures scroller.Some? ==> s.shown == Compute(scroller.value)
  {
    State([], Update(scroller, shown))
  }

  /** The `scroll` and `scrollend` listeners: log the event, then re-measure. */
  function OnScrollEvent(s: State, kind: Kind, id: string, timestamp: string, scroller: Option<Geometry>): (t: State)
    ensures t.logs == AddLog(s.logs, id, kind, timestamp)
    ensures scroller.None? ==> t.shown == s.shown
    ensures scroller.Some? ==> t.shown == Compute(scroller.value)
  {
    State(AddLog(s.logs, id, kind, timestamp), Update(scroller, s.shown))
  }

  /** `clearLogs`: the log empties whatever it held; the metrics stay. */
  function ClearLogs(s: State): (t: State)
    ensures t.logs == [] && t.shown == s.shown
  {
    s.(logs := [])
  }

  /** One step of the script: a scroll event goes to its listener, a click
      on Clear to the clear handler. */
  function Step(s: State, ev: Event): (t: State)
    ensures ev.Scrolled? ==> t.logs == AddLog(s.logs, ev.id, ev.kind, ev.timestamp)
    ensures ev.Scrolled? ==> t.shown == Update(ev.scroller, s.shown)
    ensures ev.ClearClicked? ==> t.logs == [] && t.shown == s.shown
  {
    match ev
    case Scrolled(kind, id, timestamp, scroller) => OnScrollEvent(s, kind, id, timestamp, scroller)
    case ClearClicked => ClearLogs(s)
  }

  /** The script after a sequence of events, in delivery order: a final clear
      leaves the log empty, and a final scroll event is the newest entry. */
  function Run(s: State, trace: seq<Event>): (r: State)
    ensures trace == [] ==> r == s
    ensures trace != [] && trace[|trace| - 1].ClearClicked? ==> r.logs == []
    ensures trace != [] && trace[|trace| - 1].Scrolled? ==>
      var ev := trace[|trace| - 1];
      r.logs != [] && r.logs[|r.logs| - 1] == LogRecord(ev.id, ev.kind, ev.timestamp)
    decreases |trace|
  {
    if trace == [] then s else Run(Step(s, trace[0]), trace[1..])
  }

  /** The log never holds more than `Capacity` records, whatever happens. */
  lemma {:induction false} RunStaysBounded(s: State, trace: seq<Event>)
    requires |s.logs| <= Capacity
    ensures |Run(s, trace).logs| <= Capacity
    decreases |trace|
  {
    if trace != [] {
      RunStaysBounded(Step(s, trace[0]), trace[1..]);
    }
  }

  /** The records a run of events leaves, before any eviction: starting from
      history `h`, each scroll event adds its record at the end and each clear
      starts over from nothing. */
  function Logged(h: seq<LogRecord>, trace: seq<Event>): seq<LogRecord>
    decreases |trace|
  {
    if trace == [] then h
    else match trace[0]
      case ClearClicked => Logged([], trace[1..])
      case Scrolled(kind, id, timestamp, _) => Logged(h + [LogRecord(id, kind, timestamp)], trace[1..])
  }

  /** Events are handled one at a time, in delivery order: the log always
      holds the newest `Capacity` records logged since the last clear, oldest
      first. */
  lemma {:induction false} RunIsWindow(s: State, h: seq<LogRecord>, trace: seq<Event>)
    requires s.logs == Window(h)
    ensures Run(s, trace).logs == Window(Logged(h, trace))
    decreases |trace|
  {
    if trace != [] {
      match trace[0]
      case ClearClicked =>
        RunIsWindow(Step(s, trace[0]), [], trace[1..]);
      case Scrolled(kind, id, timestamp, _) =>
        var e := LogRecord(id, kind, timestamp);
        WindowAbsorbs(h, [e]);
        RunIsWindow(Step(s, trace[0]), h + [e], trace[1..]);
    }
  }
}
