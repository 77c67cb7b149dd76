/**
 The React component and the plain-script variants are the same logger:
 fed the same events, they hold the same log (up to the React caption) and
 show the same metrics.
 */
module Agreement {
  import opened Js
  import opened ScrollMetrics
  import opened BoundedLog
  import opened Events
  import ReactApp
  import VanillaApp

  /** A React entry without its caption. */
  function Strip(e: ReactApp.LogEntry): VanillaApp.LogRecord
  {
    VanillaApp.LogRecord(e.id, e.kind, e.timestamp)
  }

  function StripAll(logs: seq<ReactApp.LogEntry>): seq<VanillaApp.LogRecord>
  {
    seq(|logs|, i requires 0 <= i < |logs| => Strip(logs[i]))
  }

  /** The two states describe the same logger, and the log is within bounds. */
  predicate Corresponds(r: ReactApp.State, v: VanillaApp.State)
  {
    && |r.logs| <= Capacity
    && v.logs == StripAll(r.logs)
    && v.shown == r.metrics
  }

  /** Stripping captions commutes with taking a window of a history. */
  lemma StripWindow(logs: seq<ReactApp.LogEntry>, e: ReactApp.LogEntry)
    ensures StripAll(Window(logs + [e])) == Window(StripAll(logs) + [Strip(e)])
  {
    var a, b := logs + [e], StripAll(logs) + [Strip(e)];
    assert StripAll(a) == b;
    var k := |a| - Min(|a|, Capacity);
    assert |StripAll(a[k..])| == |b[k..]|;
  }

  /** A scroll event takes corresponding states to corresponding states. */
  lemma OnScrollEventCorresponds(r: ReactApp.State, v: VanillaApp.State,
                                 kind: Kind, id: string, timestamp: string, scroller: Option<Geometry>)
    requires Corresponds(r, v)
    ensures Corresponds(ReactApp.OnScrollEvent(r, kind, id, timestamp, scroller),
                        VanillaApp.OnScrollEvent(v, kind, id, timestamp, scroller))
  {
    var entry := ReactApp.LogEntry(id, kind, timestamp, ReactApp.Details(kind));
    StripWindow(r.logs, entry);
  }

  /** Whatever events arrive, both variants stay in correspondence. */
  lemma {:induction false} RunsCorrespond(r: ReactApp.State, v: VanillaApp.State, trace: seq<Event>)
    requires Corresponds(r, v)
    ensures Corresponds(ReactApp.Run(r, trace), VanillaApp.Run(v, trace))
    decreases |trace|
  {
    if trace != [] {
      if trace[0].Scrolled? {
        var ev := trace[0];
        OnScrollEventCorresponds(r, v, ev.kind, ev.id, ev.timestamp, ev.scroller);
      }
      RunsCorrespond(ReactApp.Step(r, trace[0]), VanillaApp.Step(v, trace[0]), trace[1..]);
    }
  }

  /** From start-up on (with the page showing zeros before the first
      measurement), the two variants log the same events and show the same
      metrics after every sequence of events. */
  lemma VariantsAgree(scroller: Option<Geometry>, trace: seq<Event>)
    ensures var r := ReactApp.Run(ReactApp.Mount(scroller), trace);
            var v := VanillaApp.Run(VanillaApp.Start(Zero, scroller), trace);
      && v.logs == StripAll(r.logs)
      && v.shown == r.metrics
      && |r.logs| <= Capacity
  {
    RunsCorrespond(ReactApp.Mount(scroller), VanillaApp.Start(Zero, scroller), trace);
  }
}
