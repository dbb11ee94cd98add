/**
 * The two locally stored logs of client/src/components/analytics-tracker.tsx: page
 * views under `analytics_data` (newest 100 kept) and clicks on buttons and links under
 * `interaction_data` (newest 50 kept).  localStorage, JSON (de)serialisation, the clock
 * and the optional upload are left out: the stored arrays are fields, and the time and
 * browser strings are parameters.
 */
module AnalyticsTracker {
  import opened Wrappers
  import opened Text
  import opened BoundedLog

  const PageViewCap: nat := 100
  const InteractionCap: nat := 50
  const TextPreviewLength: nat := 50

  /** `AnalyticsEvent`. */
  datatype AnalyticsEvent = AnalyticsEvent(
    event: string, page: string, timestamp: string, userAgent: string, referrer: string)

  /** The object stored for a click. */
  datatype InteractionEvent = InteractionEvent(
    event: string, element: string, text: string, page: string, timestamp: string)

  /** What the click handler reads of `event.target`. */
  datatype ClickTarget = ClickTarget(tagName: string, role: Option<string>, textContent: Option<string>)

  /** Only buttons, links and elements with `role="button"` are tracked. */
  predicate IsTrackedTarget(target: ClickTarget) {
    target.tagName == "BUTTON" || target.tagName == "A" || target.role == Some("button")
  }

  /** `target.textContent?.slice(0, 50) || ''`. */
  function InteractionText(textContent: Option<string>): (text: string)
    ensures |text| <= TextPreviewLength
    ensures textContent.None? ==> text == ""
    ensures textContent.Some? ==> text <= textContent.value
    ensures textContent.Some? && |textContent.value| <= TextPreviewLength ==> text == textContent.value
    ensures textContent.Some? && |textContent.value| > TextPreviewLength ==> |text| == TextPreviewLength
  {
    match textContent
    case None => ""
    case Some(s) => Take(s, TextPreviewLength)
  }

  class LocalAnalytics {
    /** The array stored under `analytics_data`. */
    var analyticsData: seq<AnalyticsEvent>
    /** The array stored under `interaction_data`. */
    var interactionData: seq<InteractionEvent>

    /** Starts from whatever the browser had stored (an empty array when nothing was). */
    constructor (storedAnalytics: seq<AnalyticsEvent>, storedInteractions: seq<InteractionEvent>)
      ensures analyticsData == storedAnalytics && interactionData == storedInteractions
    {
      analyticsData := storedAnalytics;
      interactionData := storedInteractions;
    }

    /** `trackPageView()` for the current `location`. */
    method TrackPageView(location: string, now: string, userAgent: string, referrer: string)
      modifies this
      ensures analyticsData ==
                AppendCapped(old(analyticsData), AnalyticsEvent("page_view", location, now, userAgent, referrer), PageViewCap)
      ensures |analyticsData| == if |old(analyticsData)| < PageViewCap then |old(analyticsData)| + 1 else PageViewCap
      ensures analyticsData[|analyticsData| - 1].page == location
      ensures interactionData == old(interactionData)
    {
      var analytics := analyticsData;
      analytics := analytics + [AnalyticsEvent("page_view", location, now, userAgent, referrer)];
      if |analytics| > PageViewCap {
        analytics := analytics[|analytics| - PageViewCap..];
      }
      analyticsData := analytics;
    }

    /** `trackInteraction(event)`: a click on a tracked element is recorded with its tag
        and the start of its text; any other click changes nothing. */
    method TrackInteraction(target: ClickTarget, location: string, now: string)
      modifies this
      ensures IsTrackedTarget(target) ==>
                interactionData == AppendCapped(old(interactionData),
                  InteractionEvent("interaction", target.tagName, InteractionText(target.textContent), location, now),
                  InteractionCap)
      ensures !IsTrackedTarget(target) ==> interactionData == old(interactionData)
      ensures analyticsData == old(analyticsData)
    {
      if IsTrackedTarget(target) {
        var entry := InteractionEvent("interaction", target.tagName, InteractionText(target.textContent), location, now);
        var interactions := interactionData;
        interactions := interactions + [entry];
        if |interactions| > InteractionCap {
          interactions := interactions[|interactions| - InteractionCap..];
        }
        interactionData := interactions;
      }
    }
  }
}
