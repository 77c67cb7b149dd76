/**
 The React component: its state is the log and the last metrics, each
 replaced wholesale by the event handlers.
 */
module ReactApp {
  import opened Js
  import opened ScrollMetrics
  import opened BoundedLog
  import opened Events

  /** A logged event, with the caption shown for its kind. */
  datatype LogEntry = LogEntry(id: string, kind: Kind, timestamp: string, details: string)

  /** The caption of each kind; the two captions differ, so a caption names
      its kind. */
  function Details(kind: Kind): (d: string)
    ensures kind == Scroll <==> d == "Scrolling..."
    ensures kind == ScrollEnd <==> d == "Scroll operation completed"
  {
    assert |"Scrolling..."| != |"Scroll operation completed"|;
    match kind
    case Scroll => "Scrolling..."
    case ScrollEnd => "Scroll operation completed"
  }

  /** `addLog`: the new entry, with the requested kind and its caption, goes
      last, and the log is the newest `Capacity` entries of the old log
      followed by it. */
  function AddLog(prev: seq<LogEntry>, id: string, kind: Kind, timestamp: string): (r: seq<LogEntry>)
    ensures |r| <= Capacity
    ensures r != [] && r[|r| - 1] == LogEntry(id, kind, timestamp, Details(kind))
    ensures r == Window(prev + [r[|r| - 1]])
  {
    var entry := LogEntry(id, kind, timestamp, Details(kind));
    SliceAppendIsWindow(prev, entry);
    SliceAppend(prev, entry)
  }

  datatype State = State(logs: seq<LogEntry>, metrics: Metrics)

  /** The state once the component is mounted: no log yet, and the metrics
      measured once if the container exists (zero otherwise). */
  function Mount(scroller: Option<Geometry>): (s: State)
    ensures s.logs == []
    ensures scroller.None? ==> s.metrics == Zero
    ensures scroller.Some? ==> s.metrics == Compute(scroller.value)
  {
    State([], Update(scroller, Zero))
  }

  /** The `scroll` and `scrollend` handlers: log the event, then re-measure. */
  function OnScrollEvent(s: State, kind: Kind, id: string, timestamp: string, scroller: Option<Geometry>): (t: State)
    ensures t.logs == AddLog(s.logs, id, kind, timestamp)
    ensures scroller.None? ==> t.metrics == s.metrics
    ensures scroller.Some? ==> t.metrics == Compute(scroller.value)
  {
    State(AddLog(s.logs, id, kind, timestamp), Update(scroller, s.metrics))
  }

  /** The Clear button: the log empties whatever it held; the metrics stay. */
  function ClearLogs(s: State): (t: State)
    ensures t.logs == [] && t.metrics == s.metrics
  {
    s.(logs := [])
  }

  /** After a clear the next event starts a fresh log of one entry. */
  lemma ClearThenLogStartsFresh(s: State, kind: Kind, id: string, timestamp: string, scroller: Option<Geometry>)
    ensures OnScrollEvent(ClearLogs(s), kind, id, timestamp, scroller).logs
         == [LogEntry(id, kind, timestamp, Details(kind))]
  {
  }

  /** One step of the component: a scroll event goes to its listener, a click
      on Clear to the clear handler. */
  function Step(s: State, ev: Event): (t: State)
    ensures ev.Scrolled? ==> t.logs == AddLog(s.logs, ev.id, ev.kind, ev.timestamp)
    ensures ev.Scrolled? ==> t.metrics == Update(ev.scroller, s.metrics)
    ensures ev.ClearClicked? ==> t.logs == [] && t.metrics == s.metrics
  {
    match ev
    case Scrolled(kind, id, timestamp, scroller) => OnScrollEvent(s, kind, id, timestamp, scroller)
    case ClearClicked => ClearLogs(s)
  }

  /** The component after a sequence of events, in delivery order: a final clear
      leaves the log empty, and a final scroll event is the newest entry. */
  function Run(s: State, trace: seq<Event>): (r: State)
    ensures trace == [] ==> r == s
    ensures trace != [] && trace[|trace| - 1].ClearClicked? ==> r.logs == []
    ensures trace != [] && trace[|trace| - 1].Scrolled? ==>
      var ev := trace[|trace| - 1];
      r.logs != [] && r.logs[|r.logs| - 1] == LogEntry(ev.id, ev.kind, ev.timestamp, Details(ev.kind))
    ensures |s.logs| <= Capacity ==> |r.logs| <= Capacity
    decreases |trace|
  {
    if trace == [] then s else Run(Step(s, trace[0]), trace[1..])
  }

  /** The entrys a run of events leaves, before any eviction: starting from
      history `h`, each scroll event adds its entry at the end and each clear
      starts over from nothing. */
  function Logged(h: seq<LogEntry>, trace: seq<Event>): seq<LogEntry>
    decreases |trace|
  {
    if trace == [] then h
    else match trace[0]
      case ClearClicked => Logged([], trace[1..])
      case Scrolled(kind, id, timestamp, _) => Logged(h + [LogEntry(id, kind, timestamp, Details(kind))], trace[1..])
  }

  /** Events are handled one at a time, in delivery order: the log always
      holds the newest `Capacity` entrys logged since the last clear, oldest
      first. */
  lemma {:induction false} RunIsWindow(s: State, h: seq<LogEntry>, trace: seq<Event>)
    requires s.logs == Window(h)
    ensures Run(s, trace).logs == Window(Logged(h, trace))
    decreases |trace|
  {
    if trace != [] {
      match trace[0]
      case ClearClicked =>
        RunIsWindow(Step(s, trace[0]), [], trace[1..]);
      case Scrolled(kind, id, timestamp, _) =>
        var e := LogEntry(id, kind, timestamp, Details(kind));
        WindowAbsorbs(h, [e]);
        RunIsWindow(Step(s, trace[0]), h + [e], trace[1..]);
    }
  }
}
