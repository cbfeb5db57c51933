/**
 * The alert scheduler of `call_alert/__main__.py`. The calendar, the camera,
 * the speech service and osascript are oracles of a `World`; the clock is
 * UTC epoch seconds and moves only when the program sleeps; everything the
 * program does to the outside world is recorded as a trace of effects.
 */
module Scheduler {
  import opened Results
  import opened Text
  import opened Trace
  import opened Format
  import opened Calendar
  import opened Notification

  const DefaultSleep := 300                   // default_sleep = timedelta(minutes=5)
  const AlertSleeps: seq<int> := [120, 360]   // the pauses of event_sequence
  const AlertTitle := "Call Alert"
  const CrashTitle := "Call Alert Error!"

  /** The collaborators, as functions of the time they are called at. */
  datatype World = World(
    calendar: CalendarApi,                    // get_calendar_events' service
    camera: int -> Result<bool, string>,      // camera_active()
    speech: (int, string) -> Option<string>,  // play_text(text): Some(message) when it raises
    osascript: (int, string) -> int)          // exit status of osascript run on a script

  /** Effects of an operation that may take time, the time it ends at, and how it ended. */
  datatype Run = Run(effects: seq<Effect>, end: int, outcome: Outcome)

  /** How `main` ends: a keyboard interrupt, or the exception that escapes it. */
  datatype Exit = Interrupted | Crashed(error: Error)

  datatype Session = Session(effects: seq<Effect>, end: int, exit: Exit)

  function Min(a: int, b: int): int {
    if a <= b then a else b
  }

  function Then(pre: seq<Effect>, s: Step): Step {
    Step(pre + s.effects, s.outcome)
  }

  function Prepend(pre: seq<Effect>, r: Run): Run {
    Run(pre + r.effects, r.end, r.outcome)
  }

  function PrependSession(pre: seq<Effect>, s: Session): Session {
    Session(pre + s.effects, s.end, s.exit)
  }

  /** The opening of both reminder texts. */
  const YourCall := "Your call \""

  /** `text` holds `summary` between its 11th and 12th-after-it characters,
      both double quotes: `"Your call \"" + summary + "\"..."`. */
  predicate QuotesSummary(text: string, summary: string) {
    |text| > 11 + |summary| && text[10] == '"' && text[11..11 + |summary|] == summary
      && text[11 + |summary|] == '"'
  }

  lemma QuotedAfterLead(summary: string, rest: string)
    requires rest != [] && rest[0] == '"'
    ensures QuotesSummary(YourCall + summary + rest, summary)
  {
    var text := YourCall + summary + rest;
    assert |YourCall| == 11 && YourCall[10] == '"';
    assert text[10] == YourCall[10];
    assert text[11..11 + |summary|] == summary;
    assert text[11 + |summary|] == rest[0];
  }

  /** The spoken text when the call started less than a minute ago. */
  function JustStarted(summary: string): (r: string)
    ensures QuotesSummary(r, summary)
  {
    var rest := "\" has just started";
    QuotedAfterLead(summary, rest);
    YourCall + summary + rest
  }

  /** The notified and spoken text once at least a minute has passed. */
  function JoinNow(summary: string, minutes: int): (r: string)
    ensures QuotesSummary(r, summary)
  {
    var rest := "\" started " + IntAsWord(minutes) + " minute" + Plural(minutes) + " ago, JOIN IT NOW!";
    QuotedAfterLead(summary, rest);
    YourCall + summary + rest
  }

  /** `play_text(text)` at time `t`. */
  function Speak(w: World, t: int, text: string): Step {
    Step([Spoke(text)], match w.speech(t, text) case None => Done case Some(m) => Raised(Collaborator(m)))
  }

  /** `notify(title, message)` at time `t`. */
  function NotifyAt(w: World, t: int, title: string, message: string): Step {
    Notify(title, message, w.osascript(t, Script(title, message)))
  }

  /** An effect that takes no time and fetches nothing. */
  predicate Instant(e: Effect) {
    !e.Polled? && !e.Slept?
  }


  /** `event_alert(event)` at time `t`, for an event with this summary and
      start: nothing when the camera is on, otherwise a spoken reminder in
      the first minute, and a notification followed by speech after it. */
  function Alert(w: World, summary: string, start: int, t: int): (r: Step)
    ensures |r.effects| >= 1 && r.effects[0] == CameraQueried
    ensures forall i :: 0 <= i < |r.effects| ==> Instant(r.effects[i])
    ensures w.camera(t) == Success(true) ==> r == Step([CameraQueried], Done)
    ensures w.camera(t).Failure? ==> r == Step([CameraQueried], Raised(Collaborator(w.camera(t).error)))
  {
    var minutes := TruncDiv(t - start, Minute);
    match w.camera(t)
    case Failure(m) => Step([CameraQueried], Raised(Collaborator(m)))
    case Success(active) =>
      if active then Step([CameraQueried], Done)
      else if minutes == 0 then Then([CameraQueried], Speak(w, t, JustStarted(summary)))
      else
        var message := JoinNow(summary, minutes);
        var n := NotifyAt(w, t, AlertTitle, message);
        if n.outcome.Raised? then Then([CameraQueried], n)
        else Then([CameraQueried] + n.effects, Speak(w, t, message))
  }

  /** Within a minute of the start, either side, the alert only speaks. */
  lemma AlertFirstMinute(w: World, summary: string, start: int, t: int)
    requires w.camera(t) == Success(false)
    requires -Minute < t - start < Minute
    ensures Alert(w, summary, start, t).effects == [CameraQueried, Spoke(JustStarted(summary))]
    ensures Alert(w, summary, start, t).outcome == Speak(w, t, JustStarted(summary)).outcome
  {
    WholeMinutes(t - start);
  }

  /** The text given to notify always holds the summary between double
      quotes, which notify refuses: past the first minute an alert with the
      camera off raises AssertionError before anything is shown or spoken. */
  lemma AlertQuoteConflict(w: World, summary: string, start: int, t: int)
    requires w.camera(t) == Success(false)
    requires t - start >= Minute || t - start <= -Minute
    ensures Alert(w, summary, start, t) == Step([CameraQueried], Raised(AssertionFailed(MessageQuoteText)))
  {
    WholeMinutes(t - start);
    var message := JoinNow(summary, TruncDiv(t - start, Minute));
    assert message[10] == '"';
    assert '"' !in AlertTitle by {
      forall j | 0 <= j < |AlertTitle| ensures AlertTitle[j] != '"' {}
    }
  }

  /** An alert operation: the step taken for an event's summary and start at
      a given time. The loops below are proved for any such operation and
      run with `event_alert`'s. */
  type AlertOp = (string, int, int) -> Step

  /** `event_alert` in a world. */
  function AlertOf(w: World): AlertOp {
    (summary: string, start: int, t: int) => Alert(w, summary, start, t)
  }

  /** The alert for event `e`, as a function of the time it is raised at. */
  function AlertAt(alert: AlertOp, e: CalEvent): int -> Step
    requires e.TimeRange?
  {
    (t: int) => alert(e.details.summary, e.start, t)
  }

  /** `event_sequence` started at `t`, written for any alert and any list of
      pauses: an alert, then for each pause a sleep and another alert; an
      exception ends it. */
  function Cascade(alert: int -> Step, t: int, sleeps: seq<int>): Run
    decreases |sleeps|
  {
    var a := alert(t);
    if sleeps == [] || a.outcome.Raised? then Run(a.effects, t, a.outcome)
    else Prepend(a.effects + [Slept(sleeps[0])], Cascade(alert, t + sleeps[0], sleeps[1..]))
  }

  /** A cascade ends with the outcome of the alert raised at its end time.
      One that no alert cut short lasts the sum of its pauses, and with
      non-negative pauses it never lasts longer. */
  lemma {:induction false} CascadeDuration(alert: int -> Step, t: int, sleeps: seq<int>)
    requires forall i :: 0 <= i < |sleeps| ==> sleeps[i] >= 0
    ensures var r := Cascade(alert, t, sleeps);
      && r.outcome == alert(r.end).outcome
      && t <= r.end <= t + Sum(sleeps)
      && (r.outcome == Done ==> r.end == t + Sum(sleeps))
    decreases |sleeps|
  {
    if sleeps != [] && !alert(t).outcome.Raised? {
      CascadeDuration(alert, t + sleeps[0], sleeps[1..]);
    }
  }

  /** The total of a list of pauses. */
  function Sum(sleeps: seq<int>): (total: int)
    ensures (forall i :: 0 <= i < |sleeps| ==> sleeps[i] >= 0) ==> total >= 0
  {
    if sleeps == [] then 0 else sleeps[0] + Sum(sleeps[1..])
  }

  /** `event_sequence(event)` started at `t`: it lasts at most eight minutes,
      exactly eight when no alert raises, and ends with the outcome of the
      alert raised at its end time. */
  function Sequence(alert: AlertOp, e: CalEvent, t: int): (r: Run)
    requires e.TimeRange?
    ensures r.outcome == alert(e.details.summary, e.start, r.end).outcome
    ensures t <= r.end <= t + 480
    ensures r.outcome == Done ==> r.end == t + 480
  {
    assert Sum(AlertSleeps) == 480 by {
      assert AlertSleeps[1..] == [360] && AlertSleeps[1..][1..] == [];
    }
    var r := Cascade(AlertAt(alert, e), t, AlertSleeps);
    CascadeDuration(AlertAt(alert, e), t, AlertSleeps);
    assert AlertAt(alert, e)(r.end) == alert(e.details.summary, e.start, r.end);
    r
  }

  /** The sequence alerts at 0, 120 and 480 seconds after it starts, with a
      120 second and a 360 second sleep between, unless an alert raises. */
  lemma SequenceTimeline(alert: AlertOp, e: CalEvent, t: int)
    requires e.TimeRange?
    ensures var s, p := e.details.summary, e.start;
      var a0, a1, a2 := alert(s, p, t), alert(s, p, t + 120), alert(s, p, t + 480);
      Sequence(alert, e, t) ==
        if a0.outcome.Raised? then Run(a0.effects, t, a0.outcome)
        else if a1.outcome.Raised? then Run(a0.effects + [Slept(120)] + a1.effects, t + 120, a1.outcome)
        else Run(a0.effects + [Slept(120)] + a1.effects + [Slept(360)] + a2.effects, t + 480, a2.outcome)
  {
    var s, p := e.details.summary, e.start;
    var a0, a1, a2 := alert(s, p, t), alert(s, p, t + 120), alert(s, p, t + 480);
    var at := AlertAt(alert, e);
    assert at(t) == a0 && at(t + 120) == a1 && at(t + 480) == a2;
    assert AlertSleeps[1..] == [360] && AlertSleeps[1..][1..] == [];
    var c1 := Cascade(at, t + 120, [360]);
    assert c1 == if a1.outcome.Raised? then Run(a1.effects, t + 120, a1.outcome)
      else Run(a1.effects + [Slept(360)] + a2.effects, t + 480, a2.outcome);
    if !a0.outcome.Raised? && !a1.outcome.Raised? {
      assert a0.effects + [Slept(120)] + (a1.effects + [Slept(360)] + a2.effects)
        == a0.effects + [Slept(120)] + a1.effects + [Slept(360)] + a2.effects;
    }
  }

  /** With the camera on at every alert, nothing is shown or spoken, yet the
      sequence still runs its full eight minutes. */
  lemma SequenceWhileCameraActive(w: World, e: CalEvent, t: int)
    requires e.TimeRange?
    requires w.camera(t) == w.camera(t + 120) == w.camera(t + 480) == Success(true)
    ensures Sequence(AlertOf(w), e, t)
      == Run([CameraQueried, Slept(120), CameraQueried, Slept(360), CameraQueried], t + 480, Done)
  {
    SequenceTimeline(AlertOf(w), e, t);
    var s, p := e.details.summary, e.start;
    assert AlertOf(w)(s, p, t) == Alert(w, s, p, t);
    assert AlertOf(w)(s, p, t + 120) == Alert(w, s, p, t + 120);
    assert AlertOf(w)(s, p, t + 480) == Alert(w, s, p, t + 480);
  }

  /** Once the event has started, the second alert of a sequence finds at
      least two minutes gone; with the camera off it trips notify's quote
      assertion, and the sequence ends there without a third alert. */
  lemma SequenceStopsAtSecondAlert(w: World, e: CalEvent, t: int)
    requires e.TimeRange? && e.start <= t
    requires Alert(w, e.details.summary, e.start, t).outcome == Done && w.camera(t + 120) == Success(false)
    ensures Sequence(AlertOf(w), e, t)
      == Run(Alert(w, e.details.summary, e.start, t).effects + [Slept(120), CameraQueried], t + 120,
        Raised(AssertionFailed(MessageQuoteText)))
  {
    var s, p := e.details.summary, e.start;
    SequenceTimeline(AlertOf(w), e, t);
    assert AlertOf(w)(s, p, t) == Alert(w, s, p, t);
    assert AlertOf(w)(s, p, t + 120) == Alert(w, s, p, t + 120);
    AlertQuoteConflict(w, s, p, t + 120);
  }

  /** One pass of `main`'s loop at time `t`: poll the calendar, then sleep
      or run the alert sequence of the next event. */
  function Iteration(w: World, alert: AlertOp, t: int, allowAuth: bool): (r: Run)
    ensures |r.effects| >= 1 && r.effects[0] == Polled(allowAuth)
    ensures t <= r.end <= t + 480
    ensures GetCalendarEvents(w.calendar, allowAuth, t).Failure? ==>
      r == Run([Polled(allowAuth)], t, Raised(Collaborator(GetCalendarEvents(w.calendar, allowAuth, t).error)))
  {
    var polled := [Polled(allowAuth)];
    match GetCalendarEvents(w.calendar, allowAuth, t)
    case Failure(m) => Run(polled, t, Raised(Collaborator(m)))
    case Success(events) =>
      if events == [] then Run(polled + [Slept(DefaultSleep)], t + DefaultSleep, Done)
      else
        var untilStart := events[0].start - t;
        if untilStart > 0 then
          var pause := Min(DefaultSleep, untilStart);
          Run(polled + [Slept(pause)], t + pause, Done)
        else Prepend(polled, Sequence(alert, events[0], t))
  }

  /** No qualifying event: sleep the default five minutes, then poll again. */
  lemma PollWithoutEvents(w: World, alert: AlertOp, t: int, allowAuth: bool)
    requires GetCalendarEvents(w.calendar, allowAuth, t) == Success([])
    ensures Iteration(w, alert, t, allowAuth)
      == Run([Polled(allowAuth), Slept(DefaultSleep)], t + DefaultSleep, Done)
  {
  }

  /** The next event is still ahead: sleep at most five minutes and never
      past its start, waking exactly at the start when that is closer. */
  lemma PollBeforeStart(w: World, alert: AlertOp, t: int, allowAuth: bool)
    requires GetCalendarEvents(w.calendar, allowAuth, t).Success?
    requires var events := GetCalendarEvents(w.calendar, allowAuth, t).value;
      events != [] && events[0].start > t
    ensures var r := Iteration(w, alert, t, allowAuth);
      var start := GetCalendarEvents(w.calendar, allowAuth, t).value[0].start;
      && r.effects == [Polled(allowAuth), Slept(r.end - t)] && r.outcome == Done
      && 0 < r.end - t <= DefaultSleep && r.end <= start
      && (r.end == start || r.end - t == DefaultSleep)
  {
  }

  /** The next event has started: its alert sequence runs at once, the
      camera being queried before any sleep. */
  lemma PollAfterStart(w: World, t: int, allowAuth: bool)
    requires GetCalendarEvents(w.calendar, allowAuth, t).Success?
    requires var events := GetCalendarEvents(w.calendar, allowAuth, t).value;
      events != [] && events[0].start <= t
    ensures var next := GetCalendarEvents(w.calendar, allowAuth, t).value[0];
      && Iteration(w, AlertOf(w), t, allowAuth) == Prepend([Polled(allowAuth)], Sequence(AlertOf(w), next, t))
      && Iteration(w, AlertOf(w), t, allowAuth).effects[1] == CameraQueried
  {
    var next := GetCalendarEvents(w.calendar, allowAuth, t).value[0];
    SequenceTimeline(AlertOf(w), next, t);
    assert AlertOf(w)(next.details.summary, next.start, t) == Alert(w, next.details.summary, next.start, t);
  }

  /** The message of the crash notification. */
  function CrashText(error: Error): string {
    "Call alert crashed: " + Message(error)
  }

  /** The crash handler of `main`: notify, then re-raise. The original
      error is re-raised when the notification is shown; an error whose
      message holds a double quote trips notify's assertion instead, and a
      failed osascript run replaces the original with its own error. */
  function CrashReport(w: World, t: int, error: Error): (r: Step)
    ensures r.outcome.Raised?
    ensures '"' in Message(error) ==> r == Step([], Raised(AssertionFailed(MessageQuoteText)))
    ensures '"' !in Message(error) && w.osascript(t, Script(CrashTitle, CrashText(error))) == 0 ==>
      r == Step([Osascript(Script(CrashTitle, CrashText(error)))], Raised(error))
    ensures var status := w.osascript(t, Script(CrashTitle, CrashText(error)));
      '"' !in Message(error) && status != 0 ==>
        r == Step([Osascript(Script(CrashTitle, CrashText(error)))],
          Raised(ProcessFailed(Script(CrashTitle, CrashText(error)), status)))
  {
    CrashTextQuotes(error);
    var n := NotifyAt(w, t, CrashTitle, CrashText(error));
    Step(n.effects, if n.outcome.Raised? then n.outcome else Raised(error))
  }

  /** The crash text holds a double quote exactly when the error's message does. */
  lemma CrashTextQuotes(error: Error)
    ensures '"' !in CrashTitle
    ensures '"' in CrashText(error) <==> '"' in Message(error)
  {
    CrashTextsQuoteFree();
    var lead := "Call alert crashed: ";
    if '"' in Message(error) {
      InSuffix(lead, Message(error), '"');
    }
  }

  /** `main`'s exit after the handler: it takes no time and launches at most
      one osascript run. */
  function CrashSession(w: World, t: int, error: Error): (r: Session)
    ensures r.end == t && r.exit.Crashed?
    ensures |r.effects| <= 1 && forall i :: 0 <= i < |r.effects| ==> r.effects[i].Osascript?
  {
    var c := CrashReport(w, t, error);
    Session(c.effects, t, Crashed(c.outcome.error))
  }

  /** When the crash notification is shown, `main` ends with the original
      error, whatever it was. */
  lemma CrashReraisesOriginal(w: World, t: int, error: Error)
    requires '"' !in Message(error)
    requires w.osascript(t, Script(CrashTitle, CrashText(error))) == 0
    ensures CrashSession(w, t, error)
      == Session([Osascript(Script(CrashTitle, CrashText(error)))], t, Crashed(error))
  {
  }

  /** An error whose message holds a double quote is never reported: nothing
      is launched and notify's assertion error replaces it. */
  lemma CrashQuotedMessage(w: World, t: int, error: Error)
    requires '"' in Message(error)
    ensures CrashSession(w, t, error) == Session([], t, Crashed(AssertionFailed(MessageQuoteText)))
  {
  }

  /** `main` with a keyboard interrupt after `polls` passes of its loop. */
  function Loop(w: World, alert: AlertOp, t: int, firstStep: bool, polls: nat): (r: Session)
    ensures t <= r.end <= t + 480 * polls
    decreases polls
  {
    if polls == 0 then Session([], t, Interrupted)
    else
      var it := Iteration(w, alert, t, firstStep);
      if it.outcome.Raised? then PrependSession(it.effects, CrashSession(w, it.end, it.outcome.error))
      else PrependSession(it.effects, Loop(w, alert, it.end, false, polls - 1))
  }

  /** `main` is a pass of its loop followed by the crash report or by the
      rest of the loop. */
  lemma LoopStep(w: World, alert: AlertOp, t: int, firstStep: bool, polls: nat)
    requires polls > 0
    ensures var it := Iteration(w, alert, t, firstStep);
      Loop(w, alert, t, firstStep, polls) == PrependSession(it.effects,
        if it.outcome.Raised? then CrashSession(w, it.end, it.outcome.error)
        else Loop(w, alert, it.end, false, polls - 1))
  {
  }

  /** What is left of `main` after one pass of its loop. */
  lemma LoopAdvance(w: World, alert: AlertOp, whole: Session, trail: seq<Effect>, t: int,
                    firstStep: bool, polls: nat, it: Run, o: Outcome)
    requires polls > 0 && it == Iteration(w, alert, t, firstStep) && o == it.outcome
    requires whole == PrependSession(trail, Loop(w, alert, t, firstStep, polls))
    ensures !o.Raised? ==> whole == PrependSession(trail + it.effects, Loop(w, alert, it.end, false, polls - 1))
    ensures o.Raised? ==> whole == PrependSession(trail + it.effects, CrashSession(w, it.end, o.error))
  {
    var rest := if o.Raised? then CrashSession(w, it.end, o.error) else Loop(w, alert, it.end, false, polls - 1);
    assert trail + (it.effects + rest.effects) == (trail + it.effects) + rest.effects;
  }

  /** The crash title and the report of a quote conflict hold no double quote. */
  lemma CrashTextsQuoteFree()
    ensures '"' !in CrashTitle
    ensures '"' !in "Call alert crashed: " + MessageQuoteText
  {
    var message := "Call alert crashed: " + MessageQuoteText;
    forall j | 0 <= j < |message| ensures message[j] != '"' {}
    forall j | 0 <= j < |CrashTitle| ensures CrashTitle[j] != '"' {}
  }

  /** A quote-conflict crash is reported with one notification, and the
      assertion error is re-raised. */
  lemma CrashAfterQuoteConflict(w: World, t: int)
    requires w.osascript(t, Script(CrashTitle, "Call alert crashed: " + MessageQuoteText)) == 0
    ensures CrashSession(w, t, AssertionFailed(MessageQuoteText)) == Session(
      [Osascript(Script(CrashTitle, "Call alert crashed: " + MessageQuoteText))], t,
      Crashed(AssertionFailed(MessageQuoteText)))
  {
    CrashTextQuotes(AssertionFailed(MessageQuoteText));
    CrashTextsQuoteFree();
    CrashReraisesOriginal(w, t, AssertionFailed(MessageQuoteText));
  }

  /** A failed osascript run cannot be reported: its error message quotes
      the script, so the crash notification trips the quote assertion, and
      that assertion error replaces the original one. */
  lemma CrashAfterProcessFailure(w: World, t: int, script: string, status: int)
    requires '"' in script
    ensures CrashSession(w, t, ProcessFailed(script, status))
      == Session([], t, Crashed(AssertionFailed(MessageQuoteText)))
  {
    MessageQuotesScript(script, status, '"');
    CrashQuotedMessage(w, t, ProcessFailed(script, status));
  }

  /** The authorisation flags of the polls in a trace, in order. */
  function PollFlags(effects: seq<Effect>): seq<bool> {
    if effects == [] then []
    else (if effects[0].Polled? then [effects[0].allowAuth] else []) + PollFlags(effects[1..])
  }

  lemma {:induction false} PollFlagsAppend(a: seq<Effect>, b: seq<Effect>)
    ensures PollFlags(a + b) == PollFlags(a) + PollFlags(b)
    decreases |a|
  {
    if a != [] {
      var head := if a[0].Polled? then [a[0].allowAuth] else [];
      assert (a + b)[0] == a[0] && (a + b)[1..] == a[1..] + b;
      PollFlagsAppend(a[1..], b);
      assert head + (PollFlags(a[1..]) + PollFlags(b)) == (head + PollFlags(a[1..])) + PollFlags(b);
    } else {
      assert a + b == b;
    }
  }

  lemma {:induction false} NoPollFlags(effects: seq<Effect>)
    requires forall i :: 0 <= i < |effects| ==> !effects[i].Polled?
    ensures PollFlags(effects) == []
    decreases |effects|
  {
    if effects != [] {
      NoPollFlags(effects[1..]);
    }
  }

  /** An alert operation whose every effect is instant. */
  ghost predicate InstantAlerts(alert: AlertOp) {
    forall s, p, t, i :: 0 <= i < |alert(s, p, t).effects| ==> Instant(alert(s, p, t).effects[i])
  }

  lemma AlertOfInstant(w: World)
    ensures InstantAlerts(AlertOf(w))
  {
    forall s, p, t, i | 0 <= i < |AlertOf(w)(s, p, t).effects|
      ensures Instant(AlertOf(w)(s, p, t).effects[i])
    {
      assert AlertOf(w)(s, p, t) == Alert(w, s, p, t);
    }
  }

  /** A cascade of instant alerts sleeps but never polls the calendar. */
  lemma {:induction false} CascadeDoesNotPoll(alert: AlertOp, e: CalEvent, t: int, sleeps: seq<int>)
    requires e.TimeRange? && InstantAlerts(alert)
    ensures PollFlags(Cascade(AlertAt(alert, e), t, sleeps).effects) == []
    decreases |sleeps|
  {
    var a := AlertAt(alert, e)(t);
    assert a == alert(e.details.summary, e.start, t);
    NoPollFlags(a.effects);
    if sleeps != [] && !a.outcome.Raised? {
      var rest := Cascade(AlertAt(alert, e), t + sleeps[0], sleeps[1..]);
      CascadeDoesNotPoll(alert, e, t + sleeps[0], sleeps[1..]);
      PollFlagsAppend(a.effects, [Slept(sleeps[0])]);
      PollFlagsAppend(a.effects + [Slept(sleeps[0])], rest.effects);
    }
  }

  /** Each pass of the loop polls the calendar exactly once. */
  lemma IterationPollsOnce(w: World, alert: AlertOp, t: int, allowAuth: bool)
    requires InstantAlerts(alert)
    ensures PollFlags(Iteration(w, alert, t, allowAuth).effects) == [allowAuth]
  {
    var polled := [Polled(allowAuth)];
    assert PollFlags(polled) == [allowAuth];
    var r := Iteration(w, alert, t, allowAuth);
    var events := GetCalendarEvents(w.calendar, allowAuth, t);
    if events.Success? && events.value != [] && events.value[0].start <= t {
      CascadeDoesNotPoll(alert, events.value[0], t, AlertSleeps);
      PollFlagsAppend(polled, Sequence(alert, events.value[0], t).effects);
    } else if events.Success? {
      PollFlagsAppend(polled, r.effects[1..]);
      assert r.effects == polled + r.effects[1..];
    }
  }

  /** Reporting a crash does not poll the calendar. */
  lemma CrashDoesNotPoll(w: World, t: int, error: Error)
    ensures PollFlags(CrashSession(w, t, error).effects) == []
  {
    var c := CrashReport(w, t, error);
    var n := NotifyAt(w, t, CrashTitle, "Call alert crashed: " + Message(error));
    assert c.effects == n.effects;
    NoPollFlags(c.effects);
  }

  /** Between one and `polls` polls, the first with `first` and every later
      one with `False`. */
  predicate AuthFirstOnly(flags: seq<bool>, first: bool, polls: nat) {
    1 <= |flags| <= polls && flags[0] == first && forall i :: 1 <= i < |flags| ==> !flags[i]
  }

  lemma AuthFirstOnlyCons(first: bool, later: seq<bool>, polls: nat)
    requires polls > 0
    requires later == [] || (polls > 1 && AuthFirstOnly(later, false, polls - 1))
    ensures AuthFirstOnly([first] + later, first, polls)
  {
    var flags := [first] + later;
    forall i | 1 <= i < |flags| ensures !flags[i] {
      assert flags[i] == later[i - 1];
    }
  }

  /** `main` allows the interactive authorisation flow on its first poll
      only: every later poll passes `False`. */
  lemma {:induction false} LoopAuthOnFirstPoll(w: World, alert: AlertOp, t: int, firstStep: bool, polls: nat)
    requires polls > 0 && InstantAlerts(alert)
    ensures AuthFirstOnly(PollFlags(Loop(w, alert, t, firstStep, polls).effects), firstStep, polls)
    decreases polls
  {
    var it := Iteration(w, alert, t, firstStep);
    IterationPollsOnce(w, alert, t, firstStep);
    LoopStep(w, alert, t, firstStep, polls);
    var rest := if it.outcome.Raised? then CrashSession(w, it.end, it.outcome.error)
      else Loop(w, alert, it.end, false, polls - 1);
    PollFlagsAppend(it.effects, rest.effects);
    if it.outcome.Raised? {
      CrashDoesNotPoll(w, it.end, it.outcome.error);
    } else if polls > 1 {
      LoopAuthOnFirstPoll(w, alert, it.end, false, polls - 1);
    } else {
      assert rest.effects == [];
    }
    AuthFirstOnlyCons(firstStep, PollFlags(rest.effects), polls);
  }

  /** The same, for `main` as it runs: with `event_alert`. */
  lemma MainAuthOnFirstPoll(w: World, t: int, polls: nat)
    requires polls > 0
    ensures AuthFirstOnly(PollFlags(Loop(w, AlertOf(w), t, true, polls).effects), true, polls)
  {
    AlertOfInstant(w);
    LoopAuthOnFirstPoll(w, AlertOf(w), t, true, polls);
  }

  /** The clock and the trace of effects: the part of the world the
      program changes. */
  class Host {
    const world: World
    var now: int
    var effects: seq<Effect>

    constructor (world: World, now: int)
      ensures this.world == world && this.now == now && effects == []
    {
      this.world := world;
      this.now := now;
      effects := [];
    }

    method Record(es: seq<Effect>)
      modifies this
      ensures effects == old(effects) + es && now == old(now)
    {
      effects := effects + es;
    }

    /** `time.sleep(seconds)`, which refuses a negative length. */
    method Sleep(seconds: int)
      requires seconds >= 0
      modifies this
      ensures now == old(now) + seconds && effects == old(effects) + [Slept(seconds)]
    {
      now := now + seconds;
      effects := effects + [Slept(seconds)];
    }
  }

  lemma AppendTwice(a: seq<Effect>, b: seq<Effect>, c: seq<Effect>)
    ensures (a + b) + c == a + (b + c)
  {
  }

  lemma PrependSessionTwice(x: seq<Effect>, y: seq<Effect>, s: Session)
    ensures PrependSession(x, PrependSession(y, s)) == PrependSession(x + y, s)
  {
    assert x + (y + s.effects) == (x + y) + s.effects;
  }

  /** What is left of a cascade after its next alert. */
  lemma CascadeAdvance(alert: int -> Step, target: Run, trail: seq<Effect>, t: int, sleeps: seq<int>, i: nat)
    requires i <= |sleeps| && target == Prepend(trail, Cascade(alert, t, sleeps[i..]))
    ensures var a := alert(t);
      (a.outcome.Raised? || i == |sleeps|) ==> target == Run(trail + a.effects, t, a.outcome)
    ensures var a := alert(t);
      !a.outcome.Raised? && i < |sleeps| ==>
        target == Prepend(trail + (a.effects + [Slept(sleeps[i])]), Cascade(alert, t + sleeps[i], sleeps[i + 1..]))
  {
    var a := alert(t);
    var tail := sleeps[i..];
    if !a.outcome.Raised? && i < |sleeps| {
      assert tail != [] && tail[0] == sleeps[i] && tail[1..] == sleeps[i + 1..];
      var rest := Cascade(alert, t + sleeps[i], sleeps[i + 1..]);
      assert Cascade(alert, t, tail) == Prepend(a.effects + [Slept(sleeps[i])], rest);
      AppendTwice(trail, a.effects + [Slept(sleeps[i])], rest.effects);
    } else {
      assert a.outcome.Raised? || tail == [];
      assert Cascade(alert, t, tail) == Run(a.effects, t, a.outcome);
    }
  }

  /** The loop of `event_sequence`: alert, and after each pause of the list
      sleep and alert again, stopping at the first exception. */
  method AlertCascade(h: Host, alert: int -> Step, sleeps: seq<int>) returns (outcome: Outcome)
    requires forall i :: 0 <= i < |sleeps| ==> sleeps[i] >= 0
    modifies h
    ensures var r := Cascade(alert, old(h.now), sleeps);
      h.effects == old(h.effects) + r.effects && h.now == r.end && outcome == r.outcome
  {
    ghost var done := h.effects;
    ghost var target := Cascade(alert, h.now, sleeps);
    ghost var trail: seq<Effect> := [];
    assert [] + target.effects == target.effects;
    for i := 0 to |sleeps|
      invariant h.effects == done + trail
      invariant target == Prepend(trail, Cascade(alert, h.now, sleeps[i..]))
    {
      var a := alert(h.now);
      CascadeAdvance(alert, target, trail, h.now, sleeps, i);
      h.Record(a.effects);
      if a.outcome.Raised? {
        AppendTwice(done, trail, a.effects);
        return a.outcome;
      }
      h.Sleep(sleeps[i]);
      AppendTwice(done + trail, a.effects, [Slept(sleeps[i])]);
      AppendTwice(done, trail, a.effects + [Slept(sleeps[i])]);
      trail := trail + (a.effects + [Slept(sleeps[i])]);
    }
    var a := alert(h.now);
    CascadeAdvance(alert, target, trail, h.now, sleeps, |sleeps|);
    h.Record(a.effects);
    AppendTwice(done, trail, a.effects);
    outcome := a.outcome;
  }

  /** `event_sequence(event)`. */
  method EventSequence(h: Host, alert: AlertOp, e: CalEvent) returns (outcome: Outcome)
    requires e.TimeRange?
    modifies h
    ensures var r := Sequence(alert, e, old(h.now));
      h.effects == old(h.effects) + r.effects && h.now == r.end && outcome == r.outcome
  {
    outcome := AlertCascade(h, AlertAt(alert, e), AlertSleeps);
  }

  /** One pass of `main`'s loop: poll, then sleep or run the alert sequence. */
  method Poll(h: Host, alert: AlertOp, allowAuth: bool) returns (outcome: Outcome)
    modifies h
    ensures var r := Iteration(h.world, alert, old(h.now), allowAuth);
      h.effects == old(h.effects) + r.effects && h.now == r.end && outcome == r.outcome
  {
    var fetched := GetCalendarEvents(h.world.calendar, allowAuth, h.now);
    h.Record([Polled(allowAuth)]);
    if fetched.Failure? {
      return Raised(Collaborator(fetched.error));
    }
    if fetched.value == [] {
      h.Sleep(DefaultSleep);
      return Done;
    }
    var next := fetched.value[0];
    var untilStart := next.start - h.now;
    if untilStart > 0 {
      h.Sleep(Min(DefaultSleep, untilStart));
      return Done;
    }
    ghost var before := h.effects;
    outcome := EventSequence(h, alert, next);
    assert h.effects == old(h.effects) + ([Polled(allowAuth)] + h.effects[|before|..]);
  }

  /** The exception handler of `main`: notify of the crash, then re-raise. */
  method ReportCrash(h: Host, error: Error) returns (exit: Exit)
    modifies h
    ensures var s := CrashSession(h.world, old(h.now), error);
      h.effects == old(h.effects) + s.effects && h.now == s.end && exit == s.exit
  {
    var report := CrashReport(h.world, h.now, error);
    h.Record(report.effects);
    exit := Crashed(report.outcome.error);
  }

  /** The loop of `main()` with the given alert, interrupted after `polls`
      passes; an exception is reported and re-raised. */
  method PollLoop(h: Host, alert: AlertOp, polls: nat) returns (exit: Exit)
    modifies h
    ensures var s := Loop(h.world, alert, old(h.now), true, polls);
      h.effects == old(h.effects) + s.effects && h.now == s.end && exit == s.exit
  {
    ghost var start, done := h.now, h.effects;
    ghost var whole := Loop(h.world, alert, start, true, polls);
    ghost var trail: seq<Effect> := [];
    assert [] + whole.effects == whole.effects;
    var firstStep := true;
    for i := 0 to polls
      invariant firstStep <==> i == 0
      invariant h.effects == done + trail
      invariant whole == PrependSession(trail, Loop(h.world, alert, h.now, firstStep, polls - i))
    {
      ghost var t, pre := h.now, h.effects;
      ghost var it := Iteration(h.world, alert, t, firstStep);
      var o := Poll(h, alert, firstStep);
      assert h.effects == pre + it.effects;
      LoopAdvance(h.world, alert, whole, trail, t, firstStep, polls - i, it, o);
      AppendTwice(done, trail, it.effects);
      trail := trail + it.effects;
      if o.Raised? {
        ghost var crash := CrashSession(h.world, h.now, o.error);
        exit := ReportCrash(h, o.error);
        AppendTwice(done, trail, crash.effects);
        return;
      }
      firstStep := false;
    }
    exit := Interrupted;
  }

  /** `main()`, interrupted after `polls` passes of its loop. */
  method RunMain(h: Host, polls: nat) returns (exit: Exit)
    modifies h
    ensures var s := Loop(h.world, AlertOf(h.world), old(h.now), true, polls);
      h.effects == old(h.effects) + s.effects && h.now == s.end && exit == s.exit
  {
    exit := PollLoop(h, AlertOf(h.world), polls);
  }
}
