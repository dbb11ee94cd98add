/**
 * The badge colours of client/src/components/performance-monitor.tsx.  Measuring the
 * metrics (Performance API, PerformanceObserver, floating-point layout shift) is left
 * out; the rounded millisecond values are inputs.
 */
module PerformanceMonitor {

  datatype ScoreColor = Green | Yellow | Red

  /** The Tailwind class each colour renders as. */
  function ColorClass(c: ScoreColor): string {
    match c
    case Green => "bg-green-500"
    case Yellow => "bg-yellow-500"
    case Red => "bg-red-500"
  }

  /** Worse bands rank higher. */
  function Rank(c: ScoreColor): nat {
    match c
    case Green => 0
    case Yellow => 1
    case Red => 2
  }

  /** `getScoreColor(value, thresholds)`. */
  function GetScoreColor(value: int, thresholds: (int, int)): (c: ScoreColor)
    ensures value <= thresholds.0 ==> c == Green
    ensures thresholds.0 < value <= thresholds.1 ==> c == Yellow
    ensures thresholds.0 < value && thresholds.1 < value ==> c == Red
  {
    if value <= thresholds.0 then Green
    else if value <= thresholds.1 then Yellow
    else Red
  }

  /** With ordered thresholds a larger value never gets a better colour. */
  lemma ScoreColorMonotone(v: int, w: int, thresholds: (int, int))
    requires thresholds.0 <= thresholds.1 && v <= w
    ensures Rank(GetScoreColor(v, thresholds)) <= Rank(GetScoreColor(w, thresholds))
  {
  }

  const LoadThresholds: (int, int) := (1000, 3000)
  const FcpThresholds: (int, int) := (1800, 3000)
  const LcpThresholds: (int, int) := (2500, 4000)

  /** The integer metrics of `PerformanceMetrics`. */
  datatype Metrics = Metrics(
    loadTime: int, firstContentfulPaint: int, largestContentfulPaint: int, connectionType: string)

  datatype Badge = Badge(name: string, value: int, color: ScoreColor)

  /** The coloured timing badges, top to bottom; the LCP badge only when LCP > 0. */
  function TimingBadges(m: Metrics): (badges: seq<Badge>)
    ensures |badges| == if m.largestContentfulPaint > 0 then 3 else 2
    ensures badges[0] == Badge("Load Time", m.loadTime, GetScoreColor(m.loadTime, (1000, 3000)))
    ensures badges[1] == Badge("FCP", m.firstContentfulPaint, GetScoreColor(m.firstContentfulPaint, (1800, 3000)))
    ensures m.largestContentfulPaint > 0 ==>
              badges[2] == Badge("LCP", m.largestContentfulPaint, GetScoreColor(m.largestContentfulPaint, (2500, 4000)))
  {
    var fixed := [Badge("Load Time", m.loadTime, GetScoreColor(m.loadTime, LoadThresholds)),
                  Badge("FCP", m.firstContentfulPaint, GetScoreColor(m.firstContentfulPaint, FcpThresholds))];
    if m.largestContentfulPaint > 0 then
      fixed + [Badge("LCP", m.largestContentfulPaint, GetScoreColor(m.largestContentfulPaint, LcpThresholds))]
    else fixed
  }
}
