/**
 * `add_fixture_to_calendar`, the per-match loop of `get_liverpool_fixtures` with its counters,
 * and `main`'s purge-then-add order.
 */
module Sync {
  import opened Optional
  import opened Strings
  import opened Clock
  import opened Fixtures
  import opened Events
  import opened Detector
  import opened Purge

  /**
   * The Europe/London conversion `replace(tzinfo=UTC).astimezone(ZoneInfo('Europe/London'))`,
   * supplied by the caller; `None` where the zone data is missing.
   */
  type Zone = DateTime -> Option<ValidDateTime>

  /**
   * The payload `add_fixture_to_calendar` builds, or `None` where a step of its outer `try`
   * raises: `strptime`, the zone lookup (re-raised, then caught by the outer handler), or
   * `replace(hour=hour + 2)`.
   */
  function FixturePayload(f: Fixture, summary: string, toLocal: Zone): Option<Payload> {
    var utc :- ParseUtc(f.utcDate);
    var local :- toLocal(utc);
    BuildPayload(f, summary, IsTbc(utc), local)
  }

  /**
   * `add_fixture_to_calendar`: inserts the payload when one could be built; every exception,
   * including a refused insert, is caught and printed, so the call itself never raises.
   */
  method AddFixture(cal: Calendar, f: Fixture, summary: string, toLocal: Zone)
    modifies cal
    ensures Snapshot(cal.events, cal.issued)
            == AfterInsert(Snapshot(old(cal.events), old(cal.issued)), cal.accepts, FixturePayload(f, summary, toLocal))
  {
    var payload := FixturePayload(f, summary, toLocal);
    if payload.Some? {
      var _ := cal.Insert(payload.value);
    }
  }

  /** The calendar's events together with the number of inserts the provider has numbered. */
  datatype Snapshot = Snapshot(events: seq<Event>, issued: nat)

  /**
   * The calendar after an insert of `p` is attempted (`None`: nothing was sent): one event
   * more, under the next provider id, exactly when the provider accepts it.
   */
  function AfterInsert(st: Snapshot, accepts: Payload -> bool, p: Option<Payload>): (r: Snapshot)
    ensures |st.events| <= |r.events| && r.events[..|st.events|] == st.events
    ensures r != st <==> p.Some? && accepts(p.value)
    ensures r != st ==> r.events == st.events + [Stored(p.value, ProviderId(st.issued))] && r.issued == st.issued + 1
  {
    if p.Some? && accepts(p.value) then Snapshot(st.events + [Stored(p.value, ProviderId(st.issued))], st.issued + 1)
    else st
  }

  /** The payload the loop's call produces for `f`: the title follows the loop's own TBC test. */
  function LoopPayload(f: Fixture, toLocal: Zone): Option<Payload> {
    match ParseUtc(f.utcDate)
    case None => None
    case Some(utc) => FixturePayload(f, Summary(f, IsTbc(utc)), toLocal)
  }

  /**
   * `add_fixture_to_calendar` sends nothing exactly when `strptime` raises, the zone data is
   * missing, or a confirmed kickoff starts at 22:00 or later London time.
   */
  lemma FixturePayloadFails(f: Fixture, summary: string, toLocal: Zone)
    ensures FixturePayload(f, summary, toLocal).None? <==>
              || ParseUtc(f.utcDate).None?
              || toLocal(ParseUtc(f.utcDate).value).None?
              || (!IsTbc(ParseUtc(f.utcDate).value) && toLocal(ParseUtc(f.utcDate).value).value.hour >= 22)
  {
  }

  /** The loop's title and the payload's kind come from the same TBC test on the parsed UTC time. */
  lemma LoopPayloadAgrees(f: Fixture, toLocal: Zone)
    requires LoopPayload(f, toLocal).Some?
    ensures Parses(f)
    ensures var p := LoopPayload(f, toLocal).value;
            && p.summary == Summary(f, ParsesAsTbc(f))
            && (p.start.AllDay? <==> ParsesAsTbc(f))
            && p.description == Description(f)
  {
  }

  /** The calendar after the loop has handled `ms`, starting from `st`. */
  function AddAll(st: Snapshot, accepts: Payload -> bool, ms: seq<Fixture>, toLocal: Zone): (r: Snapshot)
    ensures |st.events| <= |r.events|
    decreases |ms|
  {
    if ms == [] then st
    else AfterInsert(AddAll(st, accepts, ms[..|ms| - 1], toLocal), accepts, LoopPayload(ms[|ms| - 1], toLocal))
  }

  /** `strptime` accepts the fixture's `utcDate`. */
  predicate Parses(f: Fixture) {
    ParseUtc(f.utcDate).Some?
  }

  predicate ParsesAsTbc(f: Fixture) {
    ParseUtc(f.utcDate).Some? && IsTbc(ParseUtc(f.utcDate).value)
  }

  predicate ParsesAsConfirmed(f: Fixture) {
    ParseUtc(f.utcDate).Some? && !IsTbc(ParseUtc(f.utcDate).value)
  }

  function CountTbc(ms: seq<Fixture>): nat
    decreases |ms|
  {
    if ms == [] then 0 else CountTbc(ms[..|ms| - 1]) + (if ParsesAsTbc(ms[|ms| - 1]) then 1 else 0)
  }

  function CountConfirmed(ms: seq<Fixture>): nat
    decreases |ms|
  {
    if ms == [] then 0 else CountConfirmed(ms[..|ms| - 1]) + (if ParsesAsConfirmed(ms[|ms| - 1]) then 1 else 0)
  }

  /** The index of the first match whose `utcDate` `strptime` refuses, or `|ms|`. */
  function FirstUnparsable(ms: seq<Fixture>): (k: nat)
    ensures k <= |ms|
    ensures forall j :: 0 <= j < k ==> Parses(ms[j])
    ensures k < |ms| ==> !Parses(ms[k])
    decreases |ms|
  {
    if ms == [] then 0
    else if !Parses(ms[0]) then 0
    else 1 + FirstUnparsable(ms[1..])
  }

  /** When every date parses, each fixture is counted exactly once, as TBC or as confirmed. */
  lemma {:induction false} CountsCoverAllFixtures(ms: seq<Fixture>)
    requires FirstUnparsable(ms) == |ms|
    ensures CountTbc(ms) + CountConfirmed(ms) == |ms|
    decreases |ms|
  {
    if ms != [] {
      var init := ms[..|ms| - 1];
      assert forall j :: 0 <= j < |init| ==> init[j] == ms[j];
      FirstUnparsableOfPrefix(init);
      CountsCoverAllFixtures(init);
    }
  }

  lemma FirstUnparsableOfPrefix(ms: seq<Fixture>)
    requires forall j :: 0 <= j < |ms| ==> Parses(ms[j])
    ensures FirstUnparsable(ms) == |ms|
  {
  }

  lemma AddAllStep(st: Snapshot, accepts: Payload -> bool, ms: seq<Fixture>, i: nat, toLocal: Zone)
    requires i < |ms|
    ensures AddAll(st, accepts, ms[..i + 1], toLocal)
            == AfterInsert(AddAll(st, accepts, ms[..i], toLocal), accepts, LoopPayload(ms[i], toLocal))
  {
    var s := ms[..i + 1];
    assert s[..|s| - 1] == ms[..i] && s[|s| - 1] == ms[i];
  }

  /** An event this sync put on the calendar: the `n`-th provider id, a title, and the team's tag. */
  predicate FromSync(e: Event, n: nat) {
    e.id == ProviderId(n) && e.summary.Some? && Tagged(e, TeamId)
  }

  /** A payload the loop builds carries the team's tag in its description. */
  lemma LoopPayloadTagged(f: Fixture, toLocal: Zone)
    requires LoopPayload(f, toLocal).Some?
    ensures Contains(LoopPayload(f, toLocal).value.description, Tag(TeamId))
  {
    DescriptionTagged(f);
  }

  /** `added` are events of this sync, numbered in order from the provider's `first`-th id. */
  predicate AllFromSync(added: seq<Event>, first: nat) {
    forall j :: 0 <= j < |added| ==> FromSync(added[j], first + j)
  }

  /**
   * `r` is `st` with events of this sync appended: `st`'s events are a prefix of `r`'s, every
   * further event used up one provider id, and each is tagged, titled, and numbered in order.
   */
  predicate Extends(st: Snapshot, r: Snapshot) {
    && |st.events| <= |r.events| && r.events[..|st.events|] == st.events
    && r.issued == st.issued + (|r.events| - |st.events|)
    && AllFromSync(r.events[|st.events|..], st.issued)
  }

  /** An insert of a tagged payload keeps a calendar an extension of the one the loop started from. */
  lemma ExtendsByInsert(st: Snapshot, prev: Snapshot, accepts: Payload -> bool, p: Option<Payload>)
    requires Extends(st, prev)
    requires p.Some? ==> Contains(p.value.description, Tag(TeamId))
    ensures Extends(st, AfterInsert(prev, accepts, p))
  {
    var r := AfterInsert(prev, accepts, p);
    if p.Some? && accepts(p.value) {
      var n := |st.events|;
      var e := Stored(p.value, ProviderId(prev.issued));
      var before := prev.events[n..];
      assert r.events[n..] == before + [e];
      assert r.events[..n] == prev.events[..n];
      assert FromSync(e, st.issued + |before|);
      assert forall j :: 0 <= j < |before| ==> (before + [e])[j] == before[j];
    }
  }

  /** The loop only appends: what it adds are events of this sync. */
  lemma {:induction false} AddAllAppends(st: Snapshot, accepts: Payload -> bool, ms: seq<Fixture>, toLocal: Zone)
    ensures Extends(st, AddAll(st, accepts, ms, toLocal))
    decreases |ms|
  {
    if ms == [] {
      assert st.events[..|st.events|] == st.events;
    } else {
      var init, last := ms[..|ms| - 1], ms[|ms| - 1];
      AddAllAppends(st, accepts, init, toLocal);
      if LoopPayload(last, toLocal).Some? {
        LoopPayloadTagged(last, toLocal);
      }
      ExtendsByInsert(st, AddAll(st, accepts, init, toLocal), accepts, LoopPayload(last, toLocal));
    }
  }

  /** None of the ids the provider has still to issue is on the calendar. */
  ghost predicate FreshIds(st: Snapshot) {
    forall k, n :: 0 <= k < |st.events| && st.issued <= n ==> st.events[k].id != ProviderId(n)
  }

  /**
   * Events of this sync appended to a calendar can all be deleted in order: none raises, as
   * long as the provider accepts each of their deletes.
   */
  lemma AppendedDeletable(base: seq<Event>, added: seq<Event>, first: nat, deletes: string -> bool)
    requires AllFromSync(added, first)
    requires forall k :: 0 <= k < |added| ==> deletes(added[k].id)
    ensures Deletable(base + added, added, TeamId, deletes)
  {
    var cal := base + added;
    forall k | 0 <= k < |added| && Tagged(added[k], TeamId)
      ensures added[k].summary.Some? && HasId(cal, added[k].id)
      ensures added[k].id !in TaggedIds(added[..k], TeamId)
    {
      assert cal[|base| + k] == added[k];
      forall j | 0 <= j < k
        ensures added[..k][j].id != added[k].id
      {
        ProviderIdInjective(first + j, first + k);
      }
      TaggedIdsMembers(added[..k], TeamId, added[k].id);
    }
  }

  /**
   * Purging, in order, events of this sync appended to a calendar that holds none of their
   * ids raises nowhere, counts each of them, and leaves the calendar as it was before.
   */
  lemma PurgeOfAppended(base: seq<Event>, added: seq<Event>, first: nat, deletes: string -> bool)
    requires AllFromSync(added, first)
    requires forall k :: 0 <= k < |added| ==> deletes(added[k].id)
    requires forall k, n :: 0 <= k < |base| && first <= n ==> base[k].id != ProviderId(n)
    ensures var p := PurgeAll(base + added, added, TeamId, deletes);
            p.Purging? && p.calendar == base && p.count == |added|
  {
    var cal := base + added;
    AppendedDeletable(base, added, first, deletes);
    PurgeOutcome(cal, added, TeamId, deletes);
    CountAllTagged(added, TeamId);
    var ids := TaggedIds(added, TeamId);
    forall k | 0 <= k < |added|
      ensures added[k].id in ids
    {
      TaggedIdsMembers(added, TeamId, added[k].id);
    }
    forall k | 0 <= k < |base|
      ensures base[k].id !in ids
    {
      TaggedIdsMembers(added, TeamId, base[k].id);
    }
    KeepAppend(base, added, ids);
    KeepCovered(added, ids);
    KeepDisjoint(base, ids);
  }

  /**
   * The next run's purge undoes this run's inserts: deleting the events the loop added, in
   * the order they were added, raises nowhere, counts each of them, and leaves exactly the
   * calendar the loop started from.
   */
  lemma RepurgeRestores(st: Snapshot, accepts: Payload -> bool, deletes: string -> bool, ms: seq<Fixture>, toLocal: Zone)
    requires FreshIds(st)
    requires forall n: nat :: st.issued <= n ==> deletes(ProviderId(n))
    ensures var r := AddAll(st, accepts, ms, toLocal);
            var added := r.events[|st.events|..];
            var p := PurgeAll(r.events, added, TeamId, deletes);
            p.Purging? && p.calendar == st.events && p.count == |added|
  {
    var r := AddAll(st, accepts, ms, toLocal);
    AddAllAppends(st, accepts, ms, toLocal);
    var added := r.events[|st.events|..];
    assert r.events == st.events + added;
    PurgeOfAppended(st.events, added, st.issued, deletes);
  }

  /** The counters over one more match: `Tally` of the counters over the matches before it. */
  lemma CountStep(ms: seq<Fixture>, i: nat, total: nat)
    requires i < |ms|
    ensures Stats(CountConfirmed(ms[..i + 1]), CountTbc(ms[..i + 1]), total)
            == Tally(Stats(CountConfirmed(ms[..i]), CountTbc(ms[..i]), total), ms[i])
  {
    var s := ms[..i + 1];
    assert s[..|s| - 1] == ms[..i] && s[|s| - 1] == ms[i];
  }

  /** A parsable match before the first unparsable one pushes that index past it. */
  lemma FirstUnparsablePast(ms: seq<Fixture>, i: nat)
    requires i < |ms| && i <= FirstUnparsable(ms) && Parses(ms[i])
    ensures i + 1 <= FirstUnparsable(ms)
  {
  }

  /** The run statistics: `total` is set up front, one counter moves per processed match. */
  datatype Stats = Stats(addedConfirmed: nat, addedTbc: nat, total: nat)

  /** The counters after a fixture that `strptime` accepts: the matching one moves by one. */
  function Tally(stats: Stats, f: Fixture): (r: Stats)
    ensures r.total == stats.total
    ensures r.addedTbc + r.addedConfirmed == stats.addedTbc + stats.addedConfirmed + (if Parses(f) then 1 else 0)
  {
    stats.(addedTbc := stats.addedTbc + (if ParsesAsTbc(f) then 1 else 0),
           addedConfirmed := stats.addedConfirmed + (if ParsesAsConfirmed(f) then 1 else 0))
  }

  /** The football-data.org request: the decoded `matches`, or a `RequestException`. */
  datatype Fetch = Fetched(matches: seq<Fixture>) | FetchFailed

  /**
   * How `get_liverpool_fixtures` ends: the summary email with these stats, the error email of
   * a failed request, or an uncaught `ValueError` from `strptime` after `processed` matches.
   */
  datatype SyncOutcome = Completed(stats: Stats) | FetchError | Crashed(processed: nat)

  /**
   * One pass of the loop in `get_liverpool_fixtures`: parse the kickoff (`None` where
   * `strptime` raises, leaving the calendar alone), add the fixture, bump one counter.
   */
  method ProcessMatch(cal: Calendar, f: Fixture, toLocal: Zone, stats: Stats) returns (next: Option<Stats>)
    modifies cal
    ensures next.None? <==> !Parses(f)
    ensures next.Some? ==> next.value == Tally(stats, f)
    ensures Snapshot(cal.events, cal.issued)
            == AfterInsert(Snapshot(old(cal.events), old(cal.issued)), cal.accepts, LoopPayload(f, toLocal))
  {
    var matchDate := ParseUtc(f.utcDate);
    if matchDate.None? {
      return None;
    }
    var tbc := IsTbc(matchDate.value);
    var summary := Summary(f, tbc);
    AddFixture(cal, f, summary, toLocal);
    if tbc {
      next := Some(stats.(addedTbc := stats.addedTbc + 1));
    } else {
      next := Some(stats.(addedConfirmed := stats.addedConfirmed + 1));
    }
  }

  /**
   * `get_liverpool_fixtures` after its HTTP request. `existing` is accepted and never read,
   * as in the source.
   */
  method SyncFixtures(cal: Calendar, fetch: Fetch, toLocal: Zone, existing: map<string, Removed>)
    returns (outcome: SyncOutcome)
    modifies cal
    ensures fetch.FetchFailed? ==>
              outcome == FetchError && cal.events == old(cal.events) && cal.issued == old(cal.issued)
    ensures fetch.Fetched? ==>
              var ms := fetch.matches;
              var k := FirstUnparsable(ms);
              && Snapshot(cal.events, cal.issued)
                 == AddAll(Snapshot(old(cal.events), old(cal.issued)), cal.accepts, ms[..k], toLocal)
              && outcome == (if k == |ms| then Completed(Stats(CountConfirmed(ms), CountTbc(ms), |ms|)) else Crashed(k))
  {
    if fetch.FetchFailed? {
      return FetchError;
    }
    var ms := fetch.matches;
    ghost var start := Snapshot(cal.events, cal.issued);
    var stats := Stats(0, 0, |ms|);
    var i := 0;
    while i < |ms|
      invariant 0 <= i <= |ms|
      invariant i <= FirstUnparsable(ms)
      invariant stats == Stats(CountConfirmed(ms[..i]), CountTbc(ms[..i]), |ms|)
      invariant Snapshot(cal.events, cal.issued) == AddAll(start, cal.accepts, ms[..i], toLocal)
    {
      var next := ProcessMatch(cal, ms[i], toLocal, stats);
      if next.None? {
        assert FirstUnparsable(ms) == i;
        return Crashed(i);
      }
      AddAllStep(start, cal.accepts, ms, i, toLocal);
      CountStep(ms, i, |ms|);
      FirstUnparsablePast(ms, i);
      stats := next.value;
      i := i + 1;
    }
    assert ms[..i] == ms && FirstUnparsable(ms) == i;
    return Completed(stats);
  }

  function PurgedCalendar(events: seq<Event>, listing: Listing, deletes: string -> bool): seq<Event> {
    if listing.Raised? then events else PurgeAll(events, listing.items, TeamId, deletes).calendar
  }

  function PurgeReport(events: seq<Event>, listing: Listing, deletes: string -> bool): (nat, map<string, Removed>) {
    if listing.Raised? then (0, map[]) else Report(PurgeAll(events, listing.items, TeamId, deletes))
  }

  /**
   * `main`: purge the tracked team's events first, then fetch and add. The purge result is
   * handed on but plays no part in what is added.
   */
  method RunSync(cal: Calendar, listing: Listing, fetch: Fetch, toLocal: Zone)
    returns (deleted: nat, existing: map<string, Removed>, outcome: SyncOutcome)
    modifies cal
    ensures (deleted, existing) == PurgeReport(old(cal.events), listing, cal.deletes)
    ensures fetch.FetchFailed? ==>
              outcome == FetchError && cal.events == PurgedCalendar(old(cal.events), listing, cal.deletes) && cal.issued == old(cal.issued)
    ensures fetch.Fetched? ==>
              var ms := fetch.matches;
              var k := FirstUnparsable(ms);
              var purged := Snapshot(PurgedCalendar(old(cal.events), listing, cal.deletes), old(cal.issued));
              && Snapshot(cal.events, cal.issued) == AddAll(purged, cal.accepts, ms[..k], toLocal)
              && outcome == (if k == |ms| then Completed(Stats(CountConfirmed(ms), CountTbc(ms), |ms|)) else Crashed(k))
  {
    deleted, existing := DeleteEvents(cal, listing, TeamId);
    outcome := SyncFixtures(cal, fetch, toLocal, existing);
  }
}
