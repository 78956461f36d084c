/** The state handlers of the student dashboard
    (components/dashboards/student-dashboard/StudentDashboard.tsx): the
    capped course-progress counter, the submission gate it drives, and the
    calendar's date selection. `toDateString` is the parameter `dayKey`. */
module StudentDashboard {
  import opened Wrappers
  import opened Entities

  /** The progress the dashboard starts from. */
  const InitialProgress: int := 59

  /** `handleUpdateProgress`: one step up, capped at 100. */
  function UpdateProgress(p: int): (r: int)
    ensures r <= 100
    ensures p < 100 ==> r == p + 1
    ensures p >= 100 ==> r == 100
  {
    if p + 1 < 100 then p + 1 else 100
  }

  /** The progress after `n` clicks. */
  function Clicks(p: int, n: nat): int
  {
    if n == 0 then p else UpdateProgress(Clicks(p, n - 1))
  }

  /** From at most 100, `n` clicks give `min(p + n, 100)`. */
  lemma {:induction false} ClicksCap(p: int, n: nat)
    requires p <= 100
    ensures Clicks(p, n) == if p + n < 100 then p + n else 100
  {
    if n > 0 {
      ClicksCap(p, n - 1);
    }
  }

  /** Progress never goes down. */
  lemma ProgressMonotone(p: int)
    requires p <= 100
    ensures p <= UpdateProgress(p)
  {
  }

  /** Once at 100 the counter stays there. */
  lemma ProgressFixedPoint()
    ensures UpdateProgress(100) == 100
  {
  }

  /** The submit button is disabled while progress is below 100. */
  predicate SubmissionDisabled(p: int)
    ensures 0 <= p <= 100 ==> (SubmissionDisabled(p) <==> UpdateProgress(p) != p)
  {
    p < 100
  }

  /** The caption of the submissions card, chosen on the same test. */
  function SubmissionCaption(p: int): (s: string)
    ensures SubmissionDisabled(p) <==> s == "Complete all coursework to unlock project submission"
    ensures !SubmissionDisabled(p) <==> s == "Submit EPFL projects"
  {
    if p < 100 then "Complete all coursework to unlock project submission" else "Submit EPFL projects"
  }

  /** From the start, 41 clicks unlock submission and 40 do not. */
  lemma FortyOneClicksUnlock()
    ensures !SubmissionDisabled(Clicks(InitialProgress, 41))
    ensures SubmissionDisabled(Clicks(InitialProgress, 40))
  {
    ClicksCap(InitialProgress, 41);
    ClicksCap(InitialProgress, 40);
  }

  // ---------------------------------------------------------------- calendar

  /** Day `i` is the first whose calendar day is `key`. */
  ghost predicate FirstOnDay(days: seq<CalendarDay>, dayKey: Instant -> string, key: string, i: int)
  {
    0 <= i < |days| && dayKey(days[i].date) == key &&
    forall j :: 0 <= j < i ==> dayKey(days[j].date) != key
  }

  /** `find(...)?.events || []`: the events of the first day on the same
      calendar day as `key`, or none. */
  function EventsOn(days: seq<CalendarDay>, dayKey: Instant -> string, key: string): (r: seq<CalendarEvent>)
    ensures forall i :: FirstOnDay(days, dayKey, key, i) ==> r == days[i].events
    ensures (forall i :: 0 <= i < |days| ==> dayKey(days[i].date) != key) ==> r == []
    decreases |days|
  {
    if days == [] then []
    else if dayKey(days[0].date) == key then days[0].events
    else
      var r := EventsOn(days[1..], dayKey, key);
      assert forall i :: FirstOnDay(days, dayKey, key, i) ==> FirstOnDay(days[1..], dayKey, key, i - 1);
      r
  }

  datatype CalendarState = CalendarState(selectedDate: Option<Instant>, selectedEvents: seq<CalendarEvent>)

  /** `handleDateSelect(date)`: store the date and the events of its day;
      clearing the date clears the events. */
  function SelectDate(days: seq<CalendarDay>, dayKey: Instant -> string, date: Option<Instant>): (r: CalendarState)
    ensures r.selectedDate == date
    ensures date.None? ==> r.selectedEvents == []
    ensures date.Some? ==> forall i :: FirstOnDay(days, dayKey, dayKey(date.value), i) ==> r.selectedEvents == days[i].events
    ensures date.Some? && (forall i :: 0 <= i < |days| ==> dayKey(days[i].date) != dayKey(date.value)) ==> r.selectedEvents == []
  {
    match date
    case None => CalendarState(None, [])
    case Some(d) => CalendarState(date, EventsOn(days, dayKey, dayKey(d)))
  }

  /** Two moments on the same calendar day select the same events. */
  lemma SameDaySameEvents(days: seq<CalendarDay>, dayKey: Instant -> string, a: Instant, b: Instant)
    requires dayKey(a) == dayKey(b)
    ensures SelectDate(days, dayKey, Some(a)).selectedEvents == SelectDate(days, dayKey, Some(b)).selectedEvents
  {
  }

  /** Selecting the date of a stored day shows that day's events, provided
      no earlier day falls on the same calendar day. */
  lemma StoredDayShowsItsEvents(days: seq<CalendarDay>, dayKey: Instant -> string, i: int)
    requires 0 <= i < |days|
    requires forall j :: 0 <= j < i ==> dayKey(days[j].date) != dayKey(days[i].date)
    ensures SelectDate(days, dayKey, Some(days[i].date)).selectedEvents == days[i].events
  {
    assert FirstOnDay(days, dayKey, dayKey(days[i].date), i);
  }
}
