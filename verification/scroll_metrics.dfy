/**
 The four edge distances the logger shows for a scroll container, derived
 from the six geometry numbers the container reports.
 */
module ScrollMetrics {
  import opened Js

  /** A snapshot of the container's scroll geometry, in CSS pixels. */
  datatype Geometry = Geometry(
    scrollLeft: real, scrollTop: real,
    scrollWidth: real, clientWidth: real,
    scrollHeight: real, clientHeight: real)
  {
    /** How far the content can scroll horizontally. */
    function HorizontalRange(): real { scrollWidth - clientWidth }

    /** How far the content can scroll vertically. */
    function VerticalRange(): real { scrollHeight - clientHeight }

    /** Every number is a whole pixel. */
    predicate Integral()
    {
      && scrollLeft == scrollLeft.Floor as real
      && scrollTop == scrollTop.Floor as real
      && scrollWidth == scrollWidth.Floor as real
      && clientWidth == clientWidth.Floor as real
      && scrollHeight == scrollHeight.Floor as real
      && clientHeight == clientHeight.Floor as real
    }

    /** The scroll position lies inside the scrollable range. */
    predicate InRange()
    {
      && 0.0 <= scrollLeft <= HorizontalRange()
      && 0.0 <= scrollTop <= VerticalRange()
    }
  }

  /** Distances, in whole pixels, from the viewport to each content edge. */
  datatype Metrics = Metrics(left: int, top: int, right: int, bottom: int)

  /** The metrics before the first measurement. */
  const Zero := Metrics(0, 0, 0, 0)

  /** Each metric is the rounded exact distance to its edge. */
  function Compute(g: Geometry): (m: Metrics)
    ensures Nearest(m.left, g.scrollLeft)
    ensures Nearest(m.top, g.scrollTop)
    ensures Nearest(m.right, g.HorizontalRange() - g.scrollLeft)
    ensures Nearest(m.bottom, g.VerticalRange() - g.scrollTop)
  {
    Metrics(
      Round(g.scrollLeft),
      Round(g.scrollTop),
      Round(g.scrollWidth - g.clientWidth - g.scrollLeft),
      Round(g.scrollHeight - g.clientHeight - g.scrollTop))
  }

  /** A re-measurement: with no container there is nothing to read and the
      metrics stay as they were; otherwise they are recomputed wholesale. */
  function Update(scroller: Option<Geometry>, current: Metrics): (m: Metrics)
    ensures scroller.None? ==> m == current
    ensures scroller.Some? ==> m == Compute(scroller.value)
  {
    match scroller
    case None => current
    case Some(g) => Compute(g)
  }

  /** The nearest-integer property determines the metrics completely. */
  lemma ComputeIsUnique(g: Geometry, m: Metrics)
    requires Nearest(m.left, g.scrollLeft)
    requires Nearest(m.top, g.scrollTop)
    requires Nearest(m.right, g.HorizontalRange() - g.scrollLeft)
    requires Nearest(m.bottom, g.VerticalRange() - g.scrollTop)
    ensures Compute(g) == m
  {
    RoundUnique(g.scrollLeft, m.left);
    RoundUnique(g.scrollTop, m.top);
    RoundUnique(g.HorizontalRange() - g.scrollLeft, m.right);
    RoundUnique(g.VerticalRange() - g.scrollTop, m.bottom);
  }

  /** Opposite distances add up to the scroll range, up to rounding. */
  lemma OppositeEdgesSum(g: Geometry)
    ensures var m := Compute(g);
      && g.HorizontalRange() - 1.0 < (m.left + m.right) as real <= g.HorizontalRange() + 1.0
      && g.VerticalRange() - 1.0 < (m.top + m.bottom) as real <= g.VerticalRange() + 1.0
  {
  }

  /** With whole-pixel geometry nothing is rounded away: the metrics are the
      exact distances, and opposite ones add up to the scroll range. */
  lemma IntegralGeometryIsExact(g: Geometry)
    requires g.Integral()
    ensures var m := Compute(g);
      && m.left as real == g.scrollLeft
      && m.top as real == g.scrollTop
      && m.right as real == g.HorizontalRange() - g.scrollLeft
      && m.bottom as real == g.VerticalRange() - g.scrollTop
      && (m.left + m.right) as real == g.HorizontalRange()
      && (m.top + m.bottom) as real == g.VerticalRange()
  {
    var sl, st := g.scrollLeft.Floor, g.scrollTop.Floor;
    var sw, cw := g.scrollWidth.Floor, g.clientWidth.Floor;
    var sh, ch := g.scrollHeight.Floor, g.clientHeight.Floor;
    RoundUnique(g.scrollLeft, sl);
    RoundUnique(g.scrollTop, st);
    RoundUnique(g.HorizontalRange() - g.scrollLeft, sw - cw - sl);
    RoundUnique(g.VerticalRange() - g.scrollTop, sh - ch - st);
  }

  /** A position inside the scrollable range gives no negative metric. */
  lemma InRangeIsNonNegative(g: Geometry)
    requires g.InRange()
    ensures var m := Compute(g);
      m.left >= 0 && m.top >= 0 && m.right >= 0 && m.bottom >= 0
  {
  }

  /** An 800-pixel square of content in a 400-pixel viewport, at the top-left
      corner and at the bottom-right corner. */
  lemma CornerExamples()
    ensures Compute(Geometry(0.0, 0.0, 800.0, 400.0, 800.0, 400.0)) == Metrics(0, 0, 400, 400)
    ensures Compute(Geometry(400.0, 400.0, 800.0, 400.0, 800.0, 400.0)) == Metrics(400, 400, 0, 0)
  {
  }
}
