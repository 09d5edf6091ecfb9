/**
 * One scheduled match of the tracked team and everything the sync derives from it without
 * calling a service: the TBC test, the event title, the console date line, the same-day query
 * window of the duplicate check, and the event payload handed to the calendar's insert.
 */
module Fixtures {
  import opened Optional
  import opened Strings
  import opened Clock

  /** football-data.org's team identifier for Liverpool FC, the only team the script syncs. */
  const TeamId: nat := 64

  const LondonZone: string := "Europe/London"

  /** The event colour the script gives every fixture ("Tomato" in Google Calendar). */
  const FixtureColor: string := "11"

  /** " ⚠️ Time TBC": a space, WARNING SIGN, VARIATION SELECTOR-16, " Time TBC". */
  const TbcSuffix: string := " \U{26A0}\U{FE0F} Time TBC"

  /** A match record as the script reads it: `utcDate`, the two team names, the competition name. */
  datatype Fixture = Fixture(utcDate: string, homeTeam: string, awayTeam: string, competition: string)

  /**
   * The API's placeholder for an unknown kick-off is midnight UTC; the seconds are not looked
   * at. All three call sites use this one test.
   */
  predicate IsTbc(dt: DateTime) {
    dt.hour == 0 && dt.minute == 0
  }

  function BaseSummary(f: Fixture): string {
    f.homeTeam + " vs " + f.awayTeam
  }

  function TbcSummary(f: Fixture): string {
    BaseSummary(f) + TbcSuffix
  }

  /** The title of the calendar event for `f`. */
  function Summary(f: Fixture, tbc: bool): string {
    if tbc then TbcSummary(f) else BaseSummary(f)
  }

  /**
   * The title tells whether the fixture was TBC, for every pair of team names except an away
   * name that itself ends in the warning text after the suffix's leading space.
   */
  lemma SummaryRevealsTbc(f: Fixture, tbc: bool)
    requires !EndsWith(f.awayTeam, TbcSuffix[1..])
    ensures EndsWith(Summary(f, tbc), TbcSuffix) <==> tbc
  {
    var s := Summary(f, tbc);
    var n := |TbcSuffix|;
    if tbc {
      assert s[|s| - n..] == TbcSuffix;
    } else {
      var a := f.awayTeam;
      if |a| >= n - 1 {
        assert a[|a| - (n - 1)..] == s[|s| - (n - 1)..];
        assert s[|s| - (n - 1)..] != TbcSuffix[1..];
        assert |s| >= n ==> s[|s| - n..][1..] == s[|s| - (n - 1)..];
      } else {
        assert s[|s| - |a| - 2] == 's';
        assert TbcSuffix[n - |a| - 2] != 's';
        assert |s| >= n ==> s[|s| - n..][n - |a| - 2] == s[|s| - |a| - 2];
      }
    }
  }

  /** `%B` in the C locale. */
  function MonthName(m: int): (name: string)
    requires 1 <= m <= 12
    ensures |name| >= 3 && 'A' <= name[0] <= 'Z'
  {
    ["January", "February", "March", "April", "May", "June", "July",
     "August", "September", "October", "November", "December"][m - 1]
  }

  /**
   * The console line for a match: `strftime('%d %B %Y')` of the UTC time, then the TBC
   * suffix or `", %H:%M"`. The UTC time is printed, not the London time.
   */
  function DateLine(dt: DateTime): string
    requires Valid(dt)
  {
    Pad2(dt.day) + " " + MonthName(dt.month) + " " + Pad4(dt.year)
      + (if IsTbc(dt) then TbcSuffix else ", " + Pad2(dt.hour) + ":" + Pad2(dt.minute))
  }

  /** The date line carries the TBC suffix exactly when the fixture is TBC. */
  lemma DateLineRevealsTbc(dt: DateTime)
    requires Valid(dt)
    ensures EndsWith(DateLine(dt), TbcSuffix) <==> IsTbc(dt)
    ensures !IsTbc(dt) ==> EndsWith(DateLine(dt), ", " + Pad2(dt.hour) + ":" + Pad2(dt.minute))
  {
    var head := Pad2(dt.day) + " " + MonthName(dt.month) + " " + Pad4(dt.year);
    var line := DateLine(dt);
    if IsTbc(dt) {
      assert line == head + TbcSuffix;
      assert line[|line| - |TbcSuffix|..] == TbcSuffix;
    } else {
      var tail := ", " + Pad2(dt.hour) + ":" + Pad2(dt.minute);
      assert line == head + tail;
      assert line[|line| - |tail|..] == tail;
      assert line[|line| - 1] == Pad2(dt.minute)[1];
      assert IsDigit(line[|line| - 1]);
      assert line[|line| - 1] != TbcSuffix[|TbcSuffix| - 1];
    }
  }

  /** The `timeMin`/`timeMax` strings of the duplicate check's query. */
  datatype Window = Window(timeMin: string, timeMax: string)

  function DayStart(dt: DateTime): DateTime {
    dt.(hour := 0, minute := 0, second := 0)
  }

  function DayEnd(dt: DateTime): DateTime {
    dt.(hour := 23, minute := 59, second := 59)
  }

  /**
   * `match_date.replace(hour=0, minute=0, second=0).isoformat() + 'Z'` and the same with
   * 23:59:59.
   */
  function DayWindow(dt: DateTime): Window
    requires Valid(dt)
  {
    Window(IsoFormat(DayStart(dt)) + "Z", IsoFormat(DayEnd(dt)) + "Z")
  }

  /**
   * The query window is the match's UTC day: its bounds read back as 00:00:00 and 23:59:59
   * of that date, and the match's own start lies between them.
   */
  lemma DayWindowReadsBack(dt: DateTime)
    requires Valid(dt)
    ensures ParseUtc(DayWindow(dt).timeMin) == Some(DayStart(dt))
    ensures ParseUtc(DayWindow(dt).timeMax) == Some(DayEnd(dt))
    ensures Instant(DayStart(dt)) <= Instant(dt) <= Instant(DayEnd(dt))
  {
    ParseIsoFormat(DayStart(dt));
    ParseIsoFormat(DayEnd(dt));
  }

  /** The `start`/`end` of a payload: `{'date': ...}` or `{'dateTime': ..., 'timeZone': ...}`. */
  datatype When = AllDay(date: string) | Timed(dateTime: ValidDateTime, timeZone: string)

  /** The event body passed to `events().insert`; `reminders` is `{'useDefault': True}`. */
  datatype Payload = Payload(
    summary: string,
    description: string,
    start: When,
    end: When,
    useDefaultReminders: bool,
    colorId: string)

  /** The ownership tag `delete_events` looks for: `f"Team ID: {team_id}"`. */
  function Tag(teamId: nat): string {
    "Team ID: " + NatToString(teamId)
  }

  function Description(f: Fixture): string {
    "Competition: " + f.competition + "\n" + Tag(TeamId)
  }

  /** Every payload's description carries the tag of the tracked team. */
  lemma DescriptionTagged(f: Fixture)
    ensures Contains(Description(f), Tag(TeamId))
    ensures EndsWith(Description(f), "Team ID: 64")
  {
    assert NatToString(64) == "64";
    ContainsOwnSuffix("Competition: " + f.competition + "\n", Tag(TeamId));
    var d := Description(f);
    assert d[|d| - |Tag(TeamId)|..] == Tag(TeamId);
  }

  /**
   * The payload `add_fixture_to_calendar` builds from the London time `local`: all-day on the
   * local date when TBC, otherwise two hours from `local` by `replace(hour=hour + 2)`, which
   * raises (no payload) when the start hour is 22 or 23.
   */
  function BuildPayload(f: Fixture, summary: string, tbc: bool, local: ValidDateTime): (r: Option<Payload>)
    ensures r.None? <==> !tbc && local.hour >= 22
    ensures r.Some? ==> && r.value.summary == summary
                        && r.value.description == Description(f)
                        && r.value.useDefaultReminders
                        && r.value.colorId == FixtureColor
    ensures r.Some? && tbc ==> r.value.start == r.value.end == AllDay(IsoDate(local))
    ensures r.Some? && !tbc ==> && r.value.start.Timed? && r.value.end.Timed?
                                && r.value.start == Timed(local, LondonZone)
                                && r.value.end.timeZone == LondonZone
                                && r.value.end.dateTime == local.(hour := local.hour + 2)
  {
    if tbc then
      var day := AllDay(IsoDate(local));
      Some(Payload(summary, Description(f), day, day, true, FixtureColor))
    else if local.hour + 2 > 23 then
      None
    else
      var end: ValidDateTime := local.(hour := local.hour + 2);
      Some(Payload(summary, Description(f), Timed(local, LondonZone), Timed(end, LondonZone), true, FixtureColor))
  }

  /**
   * A timed payload spans exactly two hours of London wall-clock time and ends on the day it
   * starts. `replace(hour=hour + 2)` moves the wall clock, so across a clock change the real
   * duration is one or three hours.
   */
  lemma TimedPayloadLastsTwoHours(f: Fixture, summary: string, local: ValidDateTime)
    requires BuildPayload(f, summary, false, local).Some?
    ensures var p := BuildPayload(f, summary, false, local).value;
            && p.start.Timed? && p.end.Timed?
            && Instant(p.end.dateTime) == Instant(p.start.dateTime) + 7200
            && IsoDate(p.end.dateTime) == IsoDate(p.start.dateTime)
  {
  }

  /**
   * The Europe/London wall clock: the UTC instant itself (GMT) or one hour later (BST).
   * This relation is a hypothesis about the conversion, which the model takes as input.
   */
  predicate LondonTime(utc: DateTime, local: DateTime) {
    Valid(utc) && Valid(local) && (Instant(local) == Instant(utc) || Instant(local) == Instant(utc) + 3600)
  }

  /** A TBC fixture's all-day event falls on its UTC date, whichever London offset applies. */
  lemma TbcPayloadOnUtcDate(f: Fixture, utc: DateTime, local: ValidDateTime)
    requires Valid(utc) && IsTbc(utc) && LondonTime(utc, local)
    ensures BuildPayload(f, TbcSummary(f), true, local) ==
            Some(Payload(TbcSummary(f), Description(f), AllDay(IsoDate(utc)), AllDay(IsoDate(utc)), true, FixtureColor))
  {
    ShiftWithinDay(utc, local, Instant(local) - Instant(utc));
  }

  /**
   * The silent drop in UTC terms: a confirmed kick-off from 21:00 to 22:59 UTC in summer
   * (22:00 to 23:59 in London), or from 22:00 UTC in winter, gets no payload.
   */
  lemma LateKickoffHasNoPayload(f: Fixture, summary: string, utc: DateTime, local: ValidDateTime)
    requires Valid(utc) && !IsTbc(utc)
    requires || (Instant(local) == Instant(utc) + 3600 && 21 <= utc.hour <= 22)
             || (Instant(local) == Instant(utc) && utc.hour >= 22)
    ensures BuildPayload(f, summary, false, local).None?
  {
    ShiftWithinDay(utc, local, Instant(local) - Instant(utc));
  }
}
