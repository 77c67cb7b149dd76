/**
 The scroll logger's event log: an ordered buffer holding at most
 `Capacity` entries, oldest first. The React component and the plain
 script variants evict in two different ways; both are defined here over
 any entry type and shown to agree.
 */
module BoundedLog {
  import opened Js

  /** The most entries the log holds at once. */
  const Capacity: nat := 50

  /** Reference definition: the newest `Capacity` entries of a history,
      oldest first. */
  function Window<T>(history: seq<T>): seq<T>
  {
    history[|history| - Min(|history|, Capacity)..]
  }

  /** The React style: keep the newest `Capacity - 1` entries of the old log
      (`prev.slice(-49)`), then append the new entry. */
  function SliceAppend<T>(prev: seq<T>, e: T): (r: seq<T>)
    ensures |r| == Min(|prev|, Capacity - 1) + 1
    ensures |r| <= Capacity
    ensures r[|r| - 1] == e
    ensures r[..|r| - 1] == prev[|prev| - Min(|prev|, Capacity - 1)..]
    ensures |prev| < Capacity ==> r == prev + [e]
  {
    var kept := SliceFrom(prev, -(Capacity - 1));
    kept + [e]
  }

  /** The plain-script style: push the new entry, then shift once if the
      log has grown past `Capacity`. At most one entry leaves, only when the
      push overflowed, and it is the oldest one. */
  function PushShift<T>(logs: seq<T>, e: T): (r: seq<T>)
    ensures |r| == (if Capacity <= |logs| then |logs| else |logs| + 1)
    ensures r[|r| - 1] == e
    ensures |logs| < Capacity ==> r == logs + [e]
    ensures Capacity <= |logs| ==> [logs[0]] + r == logs + [e]
    ensures |logs| <= Capacity ==> |r| <= Capacity
  {
    var pushed := logs + [e];
    if |pushed| > Capacity then Shift(pushed).0 else pushed
  }

  /** Suffixes of suffixes: the last `k` elements of a suffix of `v` are the
      last `k` elements of `v`. */
  lemma SuffixOfSuffix<T>(u: seq<T>, v: seq<T>, k: nat)
    requires |u| <= |v| && u == v[|v| - |u|..]
    requires k <= |u|
    ensures u[|u| - k..] == v[|v| - k..]
  {
  }

  /** Appending in the React style keeps exactly the newest `Capacity`
      entries of the history extended by the new one. */
  lemma SliceAppendIsWindow<T>(prev: seq<T>, e: T)
    ensures SliceAppend(prev, e) == Window(prev + [e])
  {
    var r, w := SliceAppend(prev, e), Window(prev + [e]);
    assert |r| == |w|;
    forall i | 0 <= i < |r|
      ensures r[i] == w[i]
    {
      if i < |r| - 1 {
        assert r[i] == r[..|r| - 1][i];
      }
    }
  }

  /** Under the capacity bound the two eviction styles produce the same log. */
  lemma PushShiftMatchesSliceAppend<T>(logs: seq<T>, e: T)
    requires |logs| <= Capacity
    ensures PushShift(logs, e) == SliceAppend(logs, e)
  {
    var p, s := PushShift(logs, e), SliceAppend(logs, e);
    if |logs| == Capacity {
      assert p == logs[1..] + [e] by {
        assert [logs[0]] + p == [logs[0]] + (logs[1..] + [e]);
      }
      assert s[..|s| - 1] == logs[1..];
      assert s == s[..|s| - 1] + [e];
    }
  }

  /** Under the capacity bound, appending in the plain-script style also
      keeps exactly the newest `Capacity` entries. */
  lemma PushShiftIsWindow<T>(logs: seq<T>, e: T)
    ensures |logs| <= Capacity ==> PushShift(logs, e) == Window(logs + [e])
  {
    if |logs| <= Capacity {
      PushShiftMatchesSliceAppend(logs, e);
      SliceAppendIsWindow(logs, e);
    }
  }

  /** The bound is needed: one entry past capacity, the styles disagree. */
  lemma AgreementNeedsBound<T>(e: T)
    ensures var logs := seq(Capacity + 1, _ => e);
      PushShift(logs, e) != SliceAppend(logs, e)
  {
  }

  /** A window of a history, followed by more entries, windows to the same
      entries as the whole history followed by them. */
  lemma WindowAbsorbs<T>(s: seq<T>, t: seq<T>)
    ensures Window(Window(s) + t) == Window(s + t)
  {
    var w := Window(s);
    var k := Min(|s| + |t|, Capacity);
    assert w + t == (s + t)[|s + t| - |w + t|..];
    SuffixOfSuffix(w + t, s + t, k);
  }

  /** Logs each entry of `es` in turn, React style, starting from `prev`. */
  function AppendAll<T>(prev: seq<T>, es: seq<T>): seq<T>
    decreases |es|
  {
    if es == [] then prev else AppendAll(SliceAppend(prev, es[0]), es[1..])
  }

  /** Whatever was logged, the log holds the newest `Capacity` entries of the
      whole history, in the order they were logged. */
  lemma {:induction false} AppendAllIsWindow<T>(prev: seq<T>, es: seq<T>)
    requires |prev| <= Capacity
    ensures AppendAll(prev, es) == Window(prev + es)
    decreases |es|
  {
    if es == [] {
      assert prev + es == prev;
    } else {
      var next := SliceAppend(prev, es[0]);
      AppendAllIsWindow(next, es[1..]);
      SliceAppendIsWindow(prev, es[0]);
      WindowAbsorbs(prev + [es[0]], es[1..]);
      assert prev + [es[0]] + es[1..] == prev + es;
    }
  }

  /** Logs each entry of `es` in turn, plain-script style, starting from `prev`. */
  function PushAll<T>(prev: seq<T>, es: seq<T>): seq<T>
    decreases |es|
  {
    if es == [] then prev else PushAll(PushShift(prev, es[0]), es[1..])
  }

  /** From a log within the bound, both styles log any sequence of entries
      to the same result. */
  lemma {:induction false} PushAllMatchesAppendAll<T>(prev: seq<T>, es: seq<T>)
    requires |prev| <= Capacity
    ensures PushAll(prev, es) == AppendAll(prev, es)
    decreases |es|
  {
    if es != [] {
      PushShiftMatchesSliceAppend(prev, es[0]);
      PushAllMatchesAppendAll(SliceAppend(prev, es[0]), es[1..]);
    }
  }

  /** Up to `Capacity` entries logged from empty are all kept, in order, in
      either style. */
  lemma UnderCapacityKeepsAll<T>(es: seq<T>)
    requires |es| <= Capacity
    ensures AppendAll([], es) == es
    ensures PushAll([], es) == es
  {
    AppendAllIsWindow([], es);
    PushAllMatchesAppendAll([], es);
    assert [] + es == es;
  }

  /** Logging one entry past capacity from empty evicts the first one only,
      in either style. */
  lemma OverflowEvictsFirst<T>(es: seq<T>)
    requires |es| == Capacity + 1
    ensures AppendAll([], es) == es[1..]
    ensures PushAll([], es) == es[1..]
  {
    AppendAllIsWindow([], es);
    PushAllMatchesAppendAll([], es);
    assert [] + es == es;
  }
}
