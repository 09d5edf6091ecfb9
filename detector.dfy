/** `event_exists`: is there already an event on the match's UTC day with either of its titles? */
module Detector {
  import opened Optional
  import opened Clock
  import opened Fixtures
  import opened Events

  /** `event.get('summary', '')`. */
  function SummaryText(e: Event): string {
    if e.summary.Some? then e.summary.value else ""
  }

  /** The event carries the plain or the TBC title of the fixture. */
  predicate TitleMatches(e: Event, f: Fixture) {
    SummaryText(e) == BaseSummary(f) || SummaryText(e) == TbcSummary(f)
  }

  predicate ListsTitle(listing: Listing, f: Fixture) {
    listing.Items? && exists k :: 0 <= k < |listing.items| && TitleMatches(listing.items[k], f)
  }

  /** The `for event in events` scan: is some listed event titled like the fixture? */
  method FindTitle(items: seq<Event>, f: Fixture) returns (found: bool)
    ensures found <==> exists k :: 0 <= k < |items| && TitleMatches(items[k], f)
  {
    var i := 0;
    while i < |items|
      invariant 0 <= i <= |items|
      invariant forall k :: 0 <= k < i ==> !TitleMatches(items[k], f)
    {
      if TitleMatches(items[i], f) {
        return true;
      }
      i := i + 1;
    }
    return false;
  }

  /**
   * `query` is the calendar's `events().list(timeMin=..., timeMax=..., singleEvents=True)`.
   * `None` where `strptime` raises (that call is outside the `try`); a query that raises
   * reads as "not found".
   */
  method EventExists(f: Fixture, query: Window -> Listing) returns (r: Option<bool>)
    ensures r.None? <==> ParseUtc(f.utcDate).None?
    ensures r.Some? ==> (r.value <==> ListsTitle(query(DayWindow(ParseUtc(f.utcDate).value)), f))
  {
    var parsed := ParseUtc(f.utcDate);
    if parsed.None? {
      return None;
    }
    var listing := query(DayWindow(parsed.value));
    if listing.Raised? {
      return Some(false);
    }
    var found := FindTitle(listing.items, f);
    return Some(found);
  }
}
