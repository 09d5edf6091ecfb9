/**
 * `delete_events`: delete every listed event whose description carries the team's tag, count
 * the deletions, and remember each deleted event's start under its summary. `PurgeAll` is the
 * specification, a left fold over the listing; `DeleteEvents` is the loop, proved against it.
 */
module Purge {
  import opened Optional
  import opened Strings
  import opened Fixtures
  import opened Events

  /** `{'start_time': ..., 'is_all_day': ...}`; `start_time` is `None` when the key is absent. */
  datatype Removed = Removed(startTime: Option<string>, isAllDay: bool)

  /** An event is all-day iff its start has a `date` key; the start time is read from that key or `dateTime`. */
  function RemovedInfo(e: Event): (r: Removed)
    ensures r.isAllDay <==> "date" in e.start
    ensures r.isAllDay ==> r.startTime == Some(e.start["date"])
    ensures !r.isAllDay ==> r.startTime == (if "dateTime" in e.start then Some(e.start["dateTime"]) else None)
  {
    var allDay := "date" in e.start;
    var key := if allDay then "date" else "dateTime";
    Removed(if key in e.start then Some(e.start[key]) else None, allDay)
  }

  /** `f"Team ID: {team_id}" in description`. */
  predicate Tagged(e: Event, teamId: nat) {
    Contains(e.description, Tag(teamId))
  }

  /**
   * The tag is matched as a substring, so a purge for team 64 also takes the events of every
   * team whose id is written with the digits 6, 4 first (640, 6401, ...).
   */
  lemma TagMatchesLongerIds(n: nat)
    requires |NatToString(n)| >= 2 && NatToString(n)[..2] == "64"
    ensures Contains(Tag(n), Tag(TeamId))
  {
    assert NatToString(64) == "64";
    var t := Tag(n);
    assert t[..|Tag(TeamId)|] == "Team ID: " + NatToString(n)[..2];
    assert OccursAt(t, Tag(TeamId), 0);
  }

  /** The loop's state: still deleting, or stopped by an exception (deletions so far stay done). */
  datatype PurgeState =
    | Purging(calendar: seq<Event>, count: nat, removed: map<string, Removed>)
    | Aborted(calendar: seq<Event>)

  /**
   * One iteration: untagged events are skipped; a tagged event without a summary raises
   * `KeyError` (before its delete); a delete raises when the calendar no longer has the id or
   * the provider's verdict `deletes` refuses it.
   */
  function PurgeStep(st: PurgeState, e: Event, teamId: nat, deletes: string -> bool): PurgeState {
    match st
    case Aborted(_) => st
    case Purging(cal, n, m) =>
      if !Tagged(e, teamId) then st
      else if e.summary.None? then Aborted(cal)
      else if !HasId(cal, e.id) || !deletes(e.id) then Aborted(cal)
      else Purging(Keep(cal, {e.id}), n + 1, m[e.summary.value := RemovedInfo(e)])
  }

  function PurgeAll(cal: seq<Event>, listed: seq<Event>, teamId: nat, deletes: string -> bool): PurgeState
    decreases |listed|
  {
    if listed == [] then Purging(cal, 0, map[])
    else PurgeStep(PurgeAll(cal, listed[..|listed| - 1], teamId, deletes), listed[|listed| - 1], teamId, deletes)
  }

  /** What `delete_events` returns: `(deleted_count, existing_events)`, or `(0, {})` after an exception. */
  function Report(st: PurgeState): (nat, map<string, Removed>) {
    if st.Purging? then (st.count, st.removed) else (0, map[])
  }

  function TaggedIds(listed: seq<Event>, teamId: nat): set<string>
    decreases |listed|
  {
    if listed == [] then {}
    else
      var e := listed[|listed| - 1];
      TaggedIds(listed[..|listed| - 1], teamId) + (if Tagged(e, teamId) then {e.id} else {})
  }

  /** `TaggedIds` collects exactly the ids of the tagged listed events. */
  lemma {:induction false} TaggedIdsMembers(listed: seq<Event>, teamId: nat, id: string)
    ensures id in TaggedIds(listed, teamId) <==>
              exists k :: 0 <= k < |listed| && Tagged(listed[k], teamId) && listed[k].id == id
    decreases |listed|
  {
    if listed != [] {
      var init := listed[..|listed| - 1];
      TaggedIdsMembers(init, teamId, id);
      assert forall k :: 0 <= k < |init| ==> init[k] == listed[k];
      if id in TaggedIds(listed, teamId) && id !in TaggedIds(init, teamId) {
        assert Tagged(listed[|listed| - 1], teamId) && listed[|listed| - 1].id == id;
      }
    }
  }

  function CountTagged(listed: seq<Event>, teamId: nat): nat
    decreases |listed|
  {
    if listed == [] then 0
    else CountTagged(listed[..|listed| - 1], teamId) + (if Tagged(listed[|listed| - 1], teamId) then 1 else 0)
  }

  /** When every listed event is tagged, every one is counted. */
  lemma {:induction false} CountAllTagged(listed: seq<Event>, teamId: nat)
    requires forall k :: 0 <= k < |listed| ==> Tagged(listed[k], teamId)
    ensures CountTagged(listed, teamId) == |listed|
    decreases |listed|
  {
    if listed != [] {
      CountAllTagged(listed[..|listed| - 1], teamId);
    }
  }

  function TaggedSummaries(listed: seq<Event>, teamId: nat): set<string>
    decreases |listed|
  {
    if listed == [] then {}
    else
      var e := listed[|listed| - 1];
      TaggedSummaries(listed[..|listed| - 1], teamId)
        + (if Tagged(e, teamId) && e.summary.Some? then {e.summary.value} else {})
  }

  /**
   * No exception arises: every tagged event has a summary and an id that is in the calendar,
   * whose delete the provider accepts, and that was not deleted earlier in the same loop.
   */
  ghost predicate Deletable(cal: seq<Event>, listed: seq<Event>, teamId: nat, deletes: string -> bool) {
    forall k :: 0 <= k < |listed| && Tagged(listed[k], teamId) ==>
      && listed[k].summary.Some?
      && HasId(cal, listed[k].id)
      && deletes(listed[k].id)
      && listed[k].id !in TaggedIds(listed[..k], teamId)
  }

  lemma DeletableSplit(cal: seq<Event>, listed: seq<Event>, teamId: nat, deletes: string -> bool)
    requires listed != []
    ensures var init, e := listed[..|listed| - 1], listed[|listed| - 1];
            Deletable(cal, listed, teamId, deletes) <==>
              && Deletable(cal, init, teamId, deletes)
              && (Tagged(e, teamId) ==> e.summary.Some? && HasId(cal, e.id) && deletes(e.id) && e.id !in TaggedIds(init, teamId))
  {
    var init := listed[..|listed| - 1];
    assert forall k :: 0 <= k < |init| ==> listed[..k] == init[..k];
  }

  /**
   * The purge succeeds exactly when no exception can arise; then it removed precisely the
   * events carrying a tagged listed id, counted the tagged listed events, and keyed the map
   * by their summaries.
   */
  lemma {:induction false} PurgeOutcome(cal: seq<Event>, listed: seq<Event>, teamId: nat, deletes: string -> bool)
    ensures PurgeAll(cal, listed, teamId, deletes).Purging? <==> Deletable(cal, listed, teamId, deletes)
    ensures PurgeAll(cal, listed, teamId, deletes).Purging? ==>
              var st := PurgeAll(cal, listed, teamId, deletes);
              && st.calendar == Keep(cal, TaggedIds(listed, teamId))
              && st.count == CountTagged(listed, teamId)
              && st.removed.Keys == TaggedSummaries(listed, teamId)
    decreases |listed|
  {
    if listed == [] {
      KeepNothing(cal);
    } else {
      var init := listed[..|listed| - 1];
      var e := listed[|listed| - 1];
      PurgeOutcome(cal, init, teamId, deletes);
      DeletableSplit(cal, listed, teamId, deletes);
      var prev := PurgeAll(cal, init, teamId, deletes);
      assert PurgeAll(cal, listed, teamId, deletes) == PurgeStep(prev, e, teamId, deletes);
      assert TaggedIds(listed, teamId) == TaggedIds(init, teamId) + (if Tagged(e, teamId) then {e.id} else {});
      if prev.Purging? && Tagged(e, teamId) {
        HasIdAfterKeep(cal, TaggedIds(init, teamId), e.id);
        KeepTwice(cal, TaggedIds(init, teamId), {e.id});
      } else if prev.Purging? {
        assert TaggedIds(listed, teamId) == TaggedIds(init, teamId);
        assert PurgeAll(cal, listed, teamId, deletes) == prev;
      }
    }
  }

  /** Once an exception has stopped the loop, the rest of the listing changes nothing. */
  lemma {:induction false} AbortIsFinal(cal: seq<Event>, listed: seq<Event>, i: nat, teamId: nat, deletes: string -> bool)
    requires i <= |listed| && PurgeAll(cal, listed[..i], teamId, deletes).Aborted?
    ensures PurgeAll(cal, listed, teamId, deletes) == PurgeAll(cal, listed[..i], teamId, deletes)
    decreases |listed|
  {
    if i < |listed| {
      var init := listed[..|listed| - 1];
      assert init[..i] == listed[..i];
      AbortIsFinal(cal, init, i, teamId, deletes);
    } else {
      assert listed[..i] == listed;
    }
  }

  /** Later events overwrite earlier ones with the same summary: the map holds the last one's start. */
  lemma {:induction false} LastSummaryWins(cal: seq<Event>, listed: seq<Event>, teamId: nat, deletes: string -> bool, k: nat)
    requires PurgeAll(cal, listed, teamId, deletes).Purging?
    requires k < |listed| && Tagged(listed[k], teamId)
    requires forall j :: k < j < |listed| && Tagged(listed[j], teamId) ==> listed[j].summary != listed[k].summary
    ensures listed[k].summary.Some?
    ensures var m := PurgeAll(cal, listed, teamId, deletes).removed;
            listed[k].summary.value in m && m[listed[k].summary.value] == RemovedInfo(listed[k])
    decreases |listed|
  {
    var init := listed[..|listed| - 1];
    if k < |listed| - 1 {
      assert forall j :: k < j < |init| ==> init[j] == listed[j];
      LastSummaryWins(cal, init, teamId, deletes, k);
    }
  }

  /**
   * Whatever happens, the purge only ever removes events, and never one whose id is not the id
   * of a tagged listed event.
   */
  lemma {:induction false} PurgeTouchesOnlyTagged(cal: seq<Event>, listed: seq<Event>, teamId: nat, deletes: string -> bool, e: Event)
    ensures e in PurgeAll(cal, listed, teamId, deletes).calendar ==> e in cal
    ensures e in cal && e.id !in TaggedIds(listed, teamId) ==> e in PurgeAll(cal, listed, teamId, deletes).calendar
    decreases |listed|
  {
    if listed != [] {
      var init := listed[..|listed| - 1];
      var last := listed[|listed| - 1];
      PurgeTouchesOnlyTagged(cal, init, teamId, deletes, e);
      var prev := PurgeAll(cal, init, teamId, deletes);
      KeepMembers(prev.calendar, {last.id}, e);
    }
  }

  lemma PurgeAdvances(cal: seq<Event>, listed: seq<Event>, i: nat, teamId: nat, deletes: string -> bool)
    requires i < |listed|
    ensures PurgeAll(cal, listed[..i + 1], teamId, deletes) == PurgeStep(PurgeAll(cal, listed[..i], teamId, deletes), listed[i], teamId, deletes)
  {
    assert listed[..i + 1][..i] == listed[..i];
  }

  /**
   * One pass of the loop in `delete_events`: `ok` is false where it raises (no summary, or a
   * delete of an id the calendar no longer has or the provider refuses); otherwise the new
   * count and map.
   */
  method PurgeEvent(cal: Calendar, e: Event, teamId: nat, deleted: nat, existing: map<string, Removed>)
    returns (ok: bool, deleted': nat, existing': map<string, Removed>)
    modifies cal
    ensures cal.issued == old(cal.issued)
    ensures var st := PurgeStep(Purging(old(cal.events), deleted, existing), e, teamId, cal.deletes);
            ok <==> st.Purging?
    ensures ok ==> PurgeStep(Purging(old(cal.events), deleted, existing), e, teamId, cal.deletes)
                   == Purging(cal.events, deleted', existing')
    ensures !ok ==> cal.events == old(cal.events)
  {
    deleted', existing' := deleted, existing;
    if !Tagged(e, teamId) {
      return true, deleted', existing';
    }
    if e.summary.None? {
      return false, deleted', existing';
    }
    existing' := existing'[e.summary.value := RemovedInfo(e)];
    ok := cal.Delete(e.id);
    if ok {
      deleted' := deleted' + 1;
    }
  }

  /**
   * `delete_events` on the listing its `events().list(timeMin=week_ago, ...)` call returned
   * (`Raised` where that call raised).
   */
  method DeleteEvents(cal: Calendar, listing: Listing, teamId: nat) returns (deleted: nat, existing: map<string, Removed>)
    modifies cal
    ensures cal.issued == old(cal.issued)
    ensures listing.Raised? ==> deleted == 0 && existing == map[] && cal.events == old(cal.events)
    ensures listing.Items? ==>
              var st := PurgeAll(old(cal.events), listing.items, teamId, cal.deletes);
              cal.events == st.calendar && (deleted, existing) == Report(st)
  {
    if listing.Raised? {
      return 0, map[];
    }
    var events := listing.items;
    if events == [] {
      return 0, map[];
    }
    ghost var before := cal.events;
    deleted, existing := 0, map[];
    var i := 0;
    while i < |events|
      invariant 0 <= i <= |events|
      invariant cal.issued == old(cal.issued)
      invariant PurgeAll(before, events[..i], teamId, cal.deletes) == Purging(cal.events, deleted, existing)
    {
      PurgeAdvances(before, events, i, teamId, cal.deletes);
      var ok;
      ok, deleted, existing := PurgeEvent(cal, events[i], teamId, deleted, existing);
      if !ok {
        AbortIsFinal(before, events, i + 1, teamId, cal.deletes);
        return 0, map[];
      }
      i := i + 1;
    }
    assert events[..i] == events;
  }
}
