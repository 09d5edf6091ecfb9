# Liverpool fixture sync — a Dafny model

`script.py` keeps a Google Calendar in step with Liverpool FC's scheduled matches (football-data.org
team 64). On each run it:

1. purges the calendar's recent and future events tagged `Team ID: 64`;
2. fetches the scheduled matches;
3. adds one event per match.

A match whose kick-off is still unknown is published by the API at midnight UTC. The script turns
such a match into an all-day event titled `… ⚠️ Time TBC`. Every other match becomes a timed event in
Europe/London time that ends two wall-clock hours after kick-off. A confirmed kick-off at 22:00 or later
London time gets no event at all: the end hour `hour + 2` would exceed 23, which `replace` rejects, and
the error is caught and only printed.

This project models the decision and formatting logic of that run, with the services as inputs, and
proves what it promises.

| module | file | what it models |
|---|---|---|
| `Optional` | `optional.dfy` | the `Option` type, used for "raised" outcomes |
| `Strings` | `strings.dfy` | ASCII digits, `%d`/`%02d`/`%04d` rendering, `in` on strings, `endswith` |
| `Clock` | `clock.dfy` | naive `datetime` values, `strptime(s, '%Y-%m-%dT%H:%M:%SZ')`, `isoformat()`, a day/second time line |
| `Fixtures` | `fixtures.dfy` | the match record, the TBC test, titles, the console date line, the same-day query window, the insert payload |
| `Events` | `events.dfy` | listed calendar events and the `Calendar` class: an event sequence changed in place by `Insert` and `Delete` |
| `Detector` | `detector.dfy` | `event_exists` |
| `Purge` | `purge.dfy` | `delete_events`: a loop (`DeleteEvents`) proved against a left fold (`PurgeAll`) |
| `Sync` | `sync.dfy` | `add_fixture_to_calendar`, the per-match loop and counters of `get_liverpool_fixtures`, and `main` |

## Modelling choices

- **The calendar** is a class holding the event sequence and the number of ids the provider has
  issued.
  - `Insert` succeeds exactly when the provider-side predicate `accepts` holds. `accepts` covers
    validation, quota and transport.
  - `Delete` raises exactly when no event has the id or the provider-side predicate `deletes`
    refuses the call. `deletes` covers permissions, quota and transport.
  - Provider ids are `evt0`, `evt1`, …, in insert order.
- **A listing** is either its `items` or `Raised`, for a list call that threw.
- **The Europe/London conversion** is an input function from the UTC `datetime` to the local wall
  clock. `None` marks missing zone data. The relation `LondonTime` ("offset 0 or +1 hour") appears
  only as a hypothesis of the lemmas that need it.
- **`strptime`** is modelled with CPython's actual leniency:
  - `%Y` takes exactly four digits.
  - `%m %d %H %M %S` take one or two ASCII digits.
  - `%d` also accepts a space and one non-zero digit.
  - The literal `T` and `Z` match in either case.
  - Seconds 60 and 61 are rejected by `datetime()`.
- **The listing order and the query results** are inputs. This replaces `utcnow()`, the seven-day
  look-back, and `orderBy`.

Where the code behaves differently from the system's documented intent, the model follows the code:

- **Missing zone data:** `add_fixture_to_calendar` re-raises `ZoneInfoNotFoundError` (script.py:104-107),
  but its own outer `except Exception` (script.py:150-151) catches it. The fixture is skipped, and the
  run does not stop.
- **Failed deletes:** a failed delete in `delete_events` is caught (script.py:305-307). The function
  returns `(0, {})`, deletions already made stay made, and the run goes on to add fixtures.
- **A `KeyError` on a missing `summary`** of a tagged event (script.py:283) is handled the same way.

## Model

| member | source | states |
|---|---|---|
| Strings.NatToString | script.py:282 | the decimal rendering of `{team_id}`: non-empty, all digits, reads back as the number, no leading zero except for 0 |
| Clock.DaysInMonth | script.py:64 | the month lengths `datetime()` checks: 28 to 31 days, February has 29 exactly in leap years |
| Clock.ParseUtc | script.py:64 | `strptime` yields only valid datetimes (year 1 to 9999, a real day of the month, hour < 24, minute and second < 60) |
| Clock.IsoFormat | script.py:68-69 | `isoformat()` of a naive datetime: 19 characters beginning with the ISO date; `ParseIsoFormat` proves `strptime` reads it back |
| Clock.ParseIsoFormat | script.py:68-69 | `isoformat() + 'Z'` of every valid datetime is read back by `strptime` as that same datetime |
| Fixtures.IsTbc | script.py:65 | the one TBC test of all three call sites (also script.py:99 and 179): midnight UTC, seconds ignored; `SummaryRevealsTbc`, `DateLineRevealsTbc` and `LoopPayloadAgrees` state what follows from it |
| Fixtures.Summary | script.py:181-183 | the event title, plain or with the TBC suffix; `SummaryRevealsTbc` proves the title tells which |
| Fixtures.SummaryRevealsTbc | script.py:181-183 | the title ends in ` ⚠️ Time TBC` exactly when the fixture is TBC (unless the away team's name already ends in the warning text) |
| Fixtures.DateLineRevealsTbc | script.py:185-189 | the console line ends in the TBC suffix exactly when the fixture is TBC, and otherwise in `, HH:MM` of the UTC time |
| Fixtures.DateLine | script.py:185-189 | the console date line from the UTC time; `DateLineRevealsTbc` states its ending |
| Fixtures.DayWindow | script.py:67-69 | the duplicate check's `timeMin`/`timeMax`; `DayWindowReadsBack` proves they bound the match's UTC day |
| Fixtures.DayWindowReadsBack | script.py:67-69 | the query bounds parse back to 00:00:00 and 23:59:59 of the match's UTC date, and the kick-off lies between them |
| Fixtures.Tag | script.py:282 | the ownership tag `Team ID: {team_id}`; `TagMatchesLongerIds` shows what the substring test on it also matches |
| Fixtures.Description | script.py:113 | the payload description; `DescriptionTagged` proves it carries the tag of team 64 |
| Fixtures.DescriptionTagged | script.py:113 | every payload description contains `Team ID: 64` and ends with it |
| Fixtures.BuildPayload | script.py:109-143 | no payload exactly for a confirmed kick-off at 22:00 or later; otherwise title, description, default reminders, colour 11; TBC: all-day with start = end = local date; confirmed: timed in Europe/London, end = start with hour + 2 |
| Fixtures.TimedPayloadLastsTwoHours | script.py:127-138 | a timed payload ends exactly two hours of London wall-clock time after it starts (7200 seconds on the naive time line), on the same date |
| Fixtures.TbcPayloadOnUtcDate | script.py:101-124 | given an offset of 0 or +1 hour, a TBC fixture's all-day event falls on its UTC date |
| Fixtures.LateKickoffHasNoPayload | script.py:127 | the silent drop in UTC terms: confirmed kick-offs from 21:00 to 22:59 UTC in summer, or from 22:00 UTC in winter, get no payload |
| Events.KeepMembers | script.py:292-295 | deleting a set of ids removes exactly the events carrying one of them |
| Events.Calendar.Insert | script.py:145-146 | the event is appended under the next provider id exactly when the provider accepts it; otherwise nothing changes |
| Events.Calendar.Delete | script.py:292-295 | raises exactly when no event has the id or the provider refuses the delete; otherwise removes the events with that id |
| Detector.FindTitle | script.py:86-91 | true exactly when some listed event's summary (`''` when absent) equals the plain or the TBC title |
| Detector.EventExists | script.py:63-94 | raises exactly when `strptime` does; otherwise true exactly when the same-day query's listing contains either title, and false when the query raises |
| Purge.RemovedInfo | script.py:285-290 | `is_all_day` exactly when the start has `date`; `start_time` is `date`, or else `dateTime` when present |
| Purge.TagMatchesLongerIds | script.py:282 | the tag is a substring test, so a purge for team 64 also takes the events tagged for every team whose id starts with the digits 64 (640, 6401, …) |
| Purge.TaggedIdsMembers | script.py:280-282 | the purged ids are exactly the ids of listed events whose description holds the tag |
| Purge.PurgeStep | script.py:280-296 | one iteration of the loop as a state step: skip, delete and record, or abort; `PurgeEvent` is proved to perform it |
| Purge.PurgeAll | script.py:279-296 | the loop as a left fold of `PurgeStep`; `PurgeOutcome`, `AbortIsFinal`, `LastSummaryWins` and `PurgeTouchesOnlyTagged` state its properties, and `DeleteEvents` is proved equal to it |
| Purge.Report | script.py:303-307 | the function's return value: `(deleted_count, existing_events)`, or `(0, {})` after an exception; `DeleteEvents` returns it |
| Purge.PurgeOutcome | script.py:279-296 | the loop raises nowhere exactly when every tagged event has a summary and a not-yet-deleted id whose delete the provider accepts; then it removed exactly the tagged ids, counted the tagged events and keyed the map by their summaries |
| Purge.AbortIsFinal | script.py:305-307 | after an exception the rest of the listing changes nothing |
| Purge.LastSummaryWins | script.py:287-290 | a summary maps to the start of the last tagged event bearing it |
| Purge.PurgeTouchesOnlyTagged | script.py:280-296 | even when it aborts, the purge only removes events, and only those with a tagged listed id |
| Purge.PurgeEvent | script.py:280-296 | one listed event: an untagged one is skipped, one without a summary, with a vanished id or with a delete the provider refuses raises, and otherwise it is deleted, counted and recorded, as the fold's step says |
| Purge.DeleteEvents | script.py:261-307 | a listing that raised gives `(0, {})` and no change; otherwise the calendar and the result are those of the fold, with `(0, {})` after an exception |
| Sync.FixturePayload | script.py:97-143 | the payload `add_fixture_to_calendar` sends, or none where a step raises; `FixturePayloadFails` states exactly when there is none |
| Sync.LoopPayload | script.py:177-196 | the payload of the loop's call, with the title picked by the loop's TBC test; `LoopPayloadAgrees` and `LoopPayloadTagged` state its properties |
| Sync.AddAll | script.py:177-196 | the calendar after the loop, as a fold of `AfterInsert`; `SyncFixtures` is proved equal to it, and `AddAllAppends` and `RepurgeRestores` state its properties |
| Sync.CountTbc | script.py:197-198 | the number of TBC matches; `CountsCoverAllFixtures` and `SyncFixtures` tie it to `added_tbc` |
| Sync.CountConfirmed | script.py:199-200 | the number of confirmed matches; `CountsCoverAllFixtures` and `SyncFixtures` tie it to `added_confirmed` |
| Sync.AfterInsert | script.py:145-149 | an insert attempt appends the stored event under the next id exactly when a payload exists and is accepted, and keeps the old events as a prefix |
| Sync.AddFixture | script.py:96-151 | never raises; the calendar gains the fixture's event exactly when a payload could be built and the provider accepts it |
| Sync.FixturePayloadFails | script.py:97-151 | nothing is sent exactly when `strptime` raises, zone data is missing, or a confirmed kick-off is at 22:00 or later London time |
| Sync.LoopPayloadAgrees | script.py:177-196 | the loop's title and the payload's kind (all-day or timed) both follow the one TBC test on the parsed UTC time |
| Sync.FirstUnparsable | script.py:177-178 | the index at which `strptime` first raises in the loop: every earlier date parses, that one does not |
| Sync.CountsCoverAllFixtures | script.py:171-200 | when every date parses, `added_tbc + added_confirmed == total` |
| Sync.Tally | script.py:197-200 | one processed match keeps `total` and moves the two counters by one in all |
| Sync.ProcessMatch | script.py:177-200 | one pass: stops where `strptime` raises, otherwise moves the counter picked by the TBC test, whatever the insert did; the calendar takes the insert attempt |
| Sync.SyncFixtures | script.py:153-223 | a failed fetch changes nothing; otherwise the calendar is the fold of insert attempts over the matches before the first unparsable date, and the run ends with stats `(confirmed, tbc, len(matches))` or stops at that index |
| Sync.AddAllAppends | script.py:177-196 | the loop only appends: the old events stay as a prefix, one id is used per added event, and each added event is tagged, has a summary and is numbered in order |
| Sync.AppendedDeletable | script.py:280-296 | when the provider accepts each of their deletes, the events a sync added can all be deleted in order by the purge loop without an exception |
| Sync.PurgeOfAppended | script.py:279-296 | when the provider accepts each of their deletes, purging the added events counts each of them and leaves exactly the calendar they were appended to |
| Sync.RepurgeRestores | script.py:309-318 | when the provider accepts deleting every id it issued from this run on, the next run's purge, listing what this run added, raises nowhere and restores the calendar this run started from |
| Sync.RunSync | script.py:309-318 | `main`: the purge's calendar and result, then the add phase applied to the purged calendar |

## Left out

- OAuth token load, refresh and pickle persistence, and reading the API key from `credentials.json`
  (script.py:15-61): file I/O and a foreign authentication library.
- The HTTP request and `raise_for_status` (script.py:158-164): network plumbing. The result is the
  `Fetch` input, and a failed fetch adds nothing.
- The error-notification branch after a failed fetch (script.py:216-223), the summary email built from
  the stats (script.py:202-214), and Gmail composition and sending (script.py:225-259): a foreign mail
  API and a wall-clock timestamp. `SyncFixtures` returns the stats the email would carry.
- The `zoneinfo` conversion itself (script.py:101-103): tz rules are external data, so the local wall
  clock is an input.
- The rendering of the start and end `dateTime` strings returned in listings, including the UTC offset
  `isoformat()` adds to an aware `datetime`: the provider's own format. `StartFields` stores the
  offset-free `isoformat()`.
- `datetime.utcnow()` and the seven-day look-back of the purge query (script.py:264-270): a clock read.
  The listing is an input.
- Console printing throughout. The date line is modelled because its content is specified, but it is
  not printed.
- `KeyError` on a match record that lacks a field, and team names that are JSON `null`: the record
  type has every field as a string.
- Non-ASCII Unicode digits, which CPython's `strptime` also accepts: strings are modelled over ASCII.
- `%Y` rendering of years below 1000 in the date line: `Pad4` zero-pads them, and platforms differ here.
- `event_exists` is never called by the run (script.py:309-318). It is modelled as a standalone
  operation with the calendar query as an input.
- A non-`RequestException` raised inside `get_liverpool_fixtures`, such as a `ValueError` from
  `strptime`: it ends the run, which `SyncOutcome.Crashed(index)` records. Its traceback is not modelled.
- TimedPayloadLastsTwoHours: states the duration in wall-clock time. `replace(hour=hour + 2)` on an aware
  datetime keeps the wall clock and recomputes the offset, so a kick-off shortly before a clock change
  gets an event one real hour long (March) or three real hours long (October); the model's London time is
  a naive wall clock and does not capture this.
- The `existing_events` argument of `get_liverpool_fixtures`: it is accepted and never read, as in the
  source (script.py:153-155).
