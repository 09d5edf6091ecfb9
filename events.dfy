/**
 * Calendar events as the Google Calendar service lists them, and the primary calendar itself
 * as an object whose event sequence the sync's inserts and deletes change in place.
 */
module Events {
  import opened Optional
  import opened Strings
  import opened Clock
  import opened Fixtures

  /**
   * The fields of a listed event that the sync reads: `id`, `summary` (absent on some events),
   * `description` (`''` when absent, as `event.get('description', '')` reads it) and the
   * `start` dictionary.
   */
  datatype Event = Event(id: string, summary: Option<string>, description: string, start: map<string, string>)

  /** The outcome of an `events().list(...).execute()` call: its `items`, or an exception. */
  datatype Listing = Items(items: seq<Event>) | Raised

  predicate HasId(events: seq<Event>, id: string) {
    exists k :: 0 <= k < |events| && events[k].id == id
  }

  /** The events whose id is not in `ids`, in their original order. */
  function Keep(events: seq<Event>, ids: set<string>): (r: seq<Event>)
    ensures |r| <= |events|
  {
    if events == [] then []
    else (if events[0].id in ids then [] else [events[0]]) + Keep(events[1..], ids)
  }

  /** `Keep` removes exactly the events carrying one of the ids. */
  lemma {:induction false} KeepMembers(events: seq<Event>, ids: set<string>, e: Event)
    ensures e in Keep(events, ids) <==> e in events && e.id !in ids
  {
    if events != [] {
      KeepMembers(events[1..], ids, e);
      assert events == [events[0]] + events[1..];
    }
  }

  lemma {:induction false} KeepTwice(events: seq<Event>, ids: set<string>, more: set<string>)
    ensures Keep(Keep(events, ids), more) == Keep(events, ids + more)
  {
    if events != [] {
      var k1 := Keep(events[1..], ids);
      KeepTwice(events[1..], ids, more);
      if events[0].id !in ids {
        var k := Keep(events, ids);
        assert k == [events[0]] + k1;
        assert k[0] == events[0] && k[1..] == k1;
        assert Keep(k, more) == (if events[0].id in more then [] else [events[0]]) + Keep(k1, more);
        assert Keep(events, ids + more) == (if events[0].id in more then [] else [events[0]]) + Keep(events[1..], ids + more);
      } else {
        assert Keep(events, ids) == [] + k1 == k1;
        assert Keep(events, ids + more) == [] + Keep(events[1..], ids + more);
      }
    }
  }

  lemma KeepNothing(events: seq<Event>)
    ensures Keep(events, {}) == events
  {
  }

  /** `Keep` filters a concatenation piece by piece. */
  lemma {:induction false} KeepAppend(a: seq<Event>, b: seq<Event>, ids: set<string>)
    ensures Keep(a + b, ids) == Keep(a, ids) + Keep(b, ids)
  {
    if a != [] {
      var head := if a[0].id in ids then [] else [a[0]];
      assert (a + b)[0] == a[0] && (a + b)[1..] == a[1..] + b;
      KeepAppend(a[1..], b, ids);
      assert Keep(a + b, ids) == head + (Keep(a[1..], ids) + Keep(b, ids));
      assert Keep(a, ids) == head + Keep(a[1..], ids);
    } else {
      assert a + b == b;
    }
  }

  /** An id set that none of the events carries keeps them all. */
  lemma {:induction false} KeepDisjoint(events: seq<Event>, ids: set<string>)
    requires forall k :: 0 <= k < |events| ==> events[k].id !in ids
    ensures Keep(events, ids) == events
  {
    if events != [] {
      KeepDisjoint(events[1..], ids);
      assert events == [events[0]] + events[1..];
    }
  }

  /** An id set that covers every event keeps none. */
  lemma {:induction false} KeepCovered(events: seq<Event>, ids: set<string>)
    requires forall k :: 0 <= k < |events| ==> events[k].id in ids
    ensures Keep(events, ids) == []
  {
    if events != [] {
      assert events[0].id in ids;
      assert forall k :: 0 <= k < |events[1..]| ==> events[1..][k] == events[k + 1];
      KeepCovered(events[1..], ids);
      assert Keep(events, ids) == [] + Keep(events[1..], ids);
    }
  }

  lemma HasIdAfterKeep(events: seq<Event>, ids: set<string>, id: string)
    ensures HasId(Keep(events, ids), id) <==> HasId(events, id) && id !in ids
  {
    var r := Keep(events, ids);
    if HasId(r, id) {
      var k :| 0 <= k < |r| && r[k].id == id;
      KeepMembers(events, ids, r[k]);
      var j :| 0 <= j < |events| && events[j] == r[k];
    }
    if HasId(events, id) && id !in ids {
      var k :| 0 <= k < |events| && events[k].id == id;
      KeepMembers(events, ids, events[k]);
      var j :| 0 <= j < |r| && r[j] == events[k];
    }
  }

  /** The `start` dictionary the provider stores for a payload's start. */
  function StartFields(w: When): map<string, string> {
    match w
    case AllDay(date) => map["date" := date]
    case Timed(dt, zone) => map["dateTime" := IsoFormat(dt), "timeZone" := zone]
  }

  /** The provider-assigned identifier of the `n`-th inserted event. */
  function ProviderId(n: nat): string {
    "evt" + NatToString(n)
  }

  /** The provider never hands out the same id twice. */
  lemma ProviderIdInjective(m: nat, n: nat)
    ensures ProviderId(m) == ProviderId(n) <==> m == n
  {
    if ProviderId(m) == ProviderId(n) {
      assert ProviderId(m)[3..] == NatToString(m);
      assert ProviderId(n)[3..] == NatToString(n);
      NatToStringInjective(m, n);
    }
  }

  /** The event the calendar holds after inserting payload `p` under identifier `id`. */
  function Stored(p: Payload, id: string): Event {
    Event(id, Some(p.summary), p.description, StartFields(p.start))
  }

  /**
   * The primary calendar. `accepts` is the provider's verdict on an insert and `deletes` its
   * verdict on a delete (validation, permissions, quota, transport): a call it refuses raises.
   */
  class Calendar {
    var events: seq<Event>
    var issued: nat
    const accepts: Payload -> bool
    const deletes: string -> bool

    constructor (initial: seq<Event>, accepts: Payload -> bool, deletes: string -> bool)
      ensures events == initial && issued == 0 && this.accepts == accepts && this.deletes == deletes
    {
      events := initial;
      issued := 0;
      this.accepts := accepts;
      this.deletes := deletes;
    }

    /** `events().insert(calendarId='primary', body=p).execute()`; `ok` is false where it raises. */
    method Insert(p: Payload) returns (ok: bool)
      modifies this
      ensures ok == accepts(p)
      ensures events == if ok then old(events) + [Stored(p, ProviderId(old(issued)))] else old(events)
      ensures issued == if ok then old(issued) + 1 else old(issued)
    {
      ok := accepts(p);
      if ok {
        events := events + [Stored(p, ProviderId(issued))];
        issued := issued + 1;
      }
    }

    /**
     * `events().delete(calendarId='primary', eventId=id).execute()`: raises when no event has
     * `id` (404/410) or when the provider refuses the call.
     */
    method Delete(id: string) returns (ok: bool)
      modifies this
      ensures ok == (HasId(old(events), id) && deletes(id))
      ensures events == if ok then Keep(old(events), {id}) else old(events)
      ensures issued == old(issued)
    {
      ok := HasId(events, id) && deletes(id);
      if ok {
        events := Keep(events, {id});
      }
    }
  }
}
