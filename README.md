# call-alert, modelled in Dafny

call-alert is a small macOS daemon. It polls a Google calendar for timed
events that have a video link. Once such an event has started, it runs an
alert sequence: three alerts, 0, 120 and 480 seconds after the sequence
begins. An alert does nothing while the camera is on. With the camera off,
in the first minute after the start it speaks "Your call "…" has just
started". Later it builds a reminder and hands it to `notify`, which
displays it through `osascript`, and then speaks it. That reminder also
holds the summary between double quotes, and `notify` refuses double
quotes. So as written, such an alert raises `AssertionError` before
anything is displayed or spoken, and `main`'s crash handler takes over.

This project models the core of the program in Dafny and proves
properties of that model:

- `format.dfy` (module `Format`): the renderings of `call_alert/__main__.py`.
  `int_as_word` turns counts into words, including Python's negative list
  indexing. `plural` gives the suffix. `display_interval` renders a duration
  in whole seconds, truncated toward zero like `int(x / 60)`.
- `calendar.dfy` (module `Calendar`): the rules of `call_alert/calendar_get.py`.
  These are the `video_link` choice, the filter of `get_calendar_events`,
  the query window, and `rfc3339`.
- `notification.dfy` (module `Notification`): `notify`. It makes two quote
  assertions, builds the AppleScript line and runs osascript with
  `check=True`.
- `scheduler.dfy` (module `Scheduler`) covers `main`, `event_sequence` and
  `event_alert`:
  - Each is a total function from a `World` and a start time to a trace of
    effects, an end time and an outcome.
  - Polls, camera queries, osascript launches, speech and sleeps are the
    effects.
  - Exceptions are the outcomes.
  - `Host` is a class that holds the clock and the recorded trace; its own
    methods are `Record` and `Sleep`. The module's methods `Poll`,
    `EventSequence`, `AlertCascade`, `ReportCrash`, `PollLoop` and `RunMain`
    act on a `Host` and run the loops step by step. Each is proved equal to
    its function.
- `text.dfy` (module `Text`) holds two kinds of string operations:
  - those the code calls: `str.replace`, and `str(v)` on an integer;
  - reading-back definitions the code never calls. `Split` and `Join` on
    one character, and `DigitsValue` (the value of a string of digits),
    exist so that round trips can be stated: `ScriptRoundTrip` and
    `IntAsWordRoundTrip`.
- `trace.dfy` (module `Trace`): effects, exceptions, `str(e)`.
- `results.dfy` (module `Results`): `Option` and `Result`.

The calendar service, the camera, the speech service and osascript's exit
status are oracles held in `World`. Each is a function of the time it is
called at. The clock is integer UTC epoch seconds, and only sleeps move it.
`main` loops forever until a keyboard interrupt. Here it runs `polls` passes
and then ends as `Interrupted`.

Facts about the code that the model proves:

- The alerts of a sequence come at 0, 120 and 480 seconds, because it
  sleeps 120 s and then 360 s (`SequenceTimeline`).
- Every alert after the first minute with the camera off raises
  `AssertionError` and shows nothing (`AlertQuoteConflict`,
  `SequenceStopsAtSecondAlert`).
- The crash handler notifies and then re-raises (`CrashReport`). An
  exception raised inside the `except` block replaces the one being
  handled. So when the crash notification itself fails, its error leaves
  `main`, not the original one.
- The notification script holds six double quotes more than its fields: two
  each around the message, the title and the sound name "default"
  (`ScriptQuoteCount`, `ScriptQuotes`).
- Given a failed osascript run, the crash handler cannot report it
  (`CrashAfterProcessFailure`). The failure's message quotes the script, so
  the crash notification trips the same assertion. `main` never reaches
  this case itself: `event_alert`'s `notify` fails its assertion before
  osascript runs, and the only osascript run `main` makes is the crash
  notification. That run's own failure leaves `main` directly.

## Model

| member | source | states |
|---|---|---|
| Format.TruncDiv | call_alert/__main__.py:54 | `int(a / b)` for a positive divisor truncates toward zero. A non-negative `a` lies in `[q*b, q*b + b)` with `q >= 0`. A negative `a` lies in `(q*b - b, q*b]` with `q <= 0`. |
| Format.WholeMinutes | call_alert/__main__.py:54 | `int(seconds / 60)` truncates toward zero. It is 0 exactly for durations strictly between -60 and 60 seconds. A non-negative duration lies in the minute `m` it names. A negative one lies in `(m-1, m]` minutes. |
| Format.IntAsWord | call_alert/__main__.py:85-90 | The result is never empty. It is a number word exactly for -10 <= v < 10. Otherwise it starts with a minus sign or a digit; which numeral it is, is stated by `IntAsWordRoundTrip` and `IntAsWordBelowWords`. |
| Format.IntAsWordRoundTrip | call_alert/__main__.py:85-90 | For any count `n >= 0`, reading back `int_as_word(n)` (a number word, or the digits of `str(n)`) gives `n`. |
| Format.IntAsWordInjective | call_alert/__main__.py:85-90 | Two different non-negative counts are never rendered alike. |
| Format.IntAsWordNegativeIndex | call_alert/__main__.py:86-88 | For `-10 <= v < 0`, Python's negative list index makes `int_as_word(v)` the word for `v + 10`. |
| Format.IntAsWordBelowWords | call_alert/__main__.py:89-90 | Below -10 the `IndexError` fallback is `str(v)`: a minus sign and the digits of `-v`, which read back as `-v`. |
| Format.Plural | call_alert/__main__.py:93-94 | The suffix is "s" exactly when the count is not 1, and empty exactly when it is 1. |
| Format.DisplayInterval | call_alert/__main__.py:68-82 | The rendering is "less than a minute" exactly for durations under a minute. The other bands are stated by `DisplayMinutes`, `DisplayHours`, `DisplayDayAndHours` and `DisplayDays`. |
| Format.DisplayUnderAMinute | call_alert/__main__.py:69-70 | Every duration under a minute, negative ones included, renders as "less than a minute". |
| Format.DisplayMinutes | call_alert/__main__.py:71-73 | Under an hour, the rendering is the numeral of the whole minutes. That number is between 1 and 59 and reads back from the numeral. |
| Format.DisplayHours | call_alert/__main__.py:74-76 | Under a day, the rendering is the word of the whole hours, between 1 and 23, with its plural suffix. |
| Format.DisplayDayAndHours | call_alert/__main__.py:77-79 | Under two days, the rendering is "1 day, " followed by the whole hours past the first day, between 0 and 23. |
| Format.DisplayDays | call_alert/__main__.py:80-82 | From two days up, the rendering is the whole days, at least two, with "day" and its suffix. |
| Calendar.VideoLink | call_alert/calendar_get.py:46-53 | A truthy `hangout_link` wins. Otherwise the link is the location exactly when it starts with "http". Otherwise there is none. A link returned is never empty. |
| Calendar.VideoLinkTruthy | call_alert/calendar_get.py:29 | Testing the link for truthiness is the same as asking whether there is one, and that holds exactly for a truthy hangout link or an "http" location. |
| Calendar.Qualifies | call_alert/calendar_get.py:29 | An entry qualifies exactly when it is timed, has a video link, and starts after the cutoff. |
| Calendar.QualifyingEvents | call_alert/calendar_get.py:26-30 | Every kept event is a timed event with a video link that starts after the cutoff. |
| Calendar.QualifyingEventsCount | call_alert/calendar_get.py:26-30 | The filter keeps each qualifying event exactly as often as it occurs and drops all others. |
| Calendar.QualifyingEventsInOrder | call_alert/calendar_get.py:26-30 | The kept events are a subsequence of the fetched ones, so the service's start order is kept. |
| Calendar.QualifyingEventsIdempotent | call_alert/calendar_get.py:26-30 | Filtering a filtered list changes nothing. |
| Calendar.QueryWindow | call_alert/calendar_get.py:108-109 | The query runs from five minutes before now to two days after that, and that window contains now. |
| Calendar.GetCalendarEvents | call_alert/calendar_get.py:20-30 | The service's failure for the query window is passed on unchanged. On success, the result is the service's answer filtered. Every returned event is timed, has a video link, and starts less than five minutes before now or later. Each qualifying event is kept as often as it occurs, in the service's order, and nothing else is kept. |
| Calendar.Rfc3339 | call_alert/calendar_get.py:119-121 | A naive timestamp fails the assertion with its text, and only a naive one does. |
| Calendar.Rfc3339NoUtcOffsetLeft | call_alert/calendar_get.py:121 | The result of an aware timestamp contains no "+00:00". |
| Calendar.Rfc3339Unchanged | call_alert/calendar_get.py:121 | Text without "+00:00" passes through unchanged. |
| Calendar.Rfc3339UtcSuffix | call_alert/calendar_get.py:121 | A local time followed by "+00:00" becomes the local time followed by "Z". |
| Notification.Notify | call_alert/notification.py:4-8 | A quote in the title raises the title assertion. Otherwise a quote in the message raises the message assertion. Nothing is launched exactly in those cases. Otherwise exactly the script is launched. It succeeds exactly when osascript exits 0, and otherwise raises the process failure with script and status. |
| Notification.Script | call_alert/notification.py:7 | The AppleScript line of the f-string. It has no contract of its own; its quote count and its split are proved in the next rows. |
| Notification.ScriptQuoteCount | call_alert/notification.py:7 | For any title and message, the script holds six double quotes more than the title and the message together. |
| Notification.ScriptRoundTrip | call_alert/notification.py:7 | For quote-free title and message, splitting the script at its double quotes gives the template pieces, the message and the title back. |
| Notification.ScriptQuotes | call_alert/notification.py:7 | Such a script holds exactly six double quotes. |
| Notification.NotifyLaunchesWellQuoted | call_alert/notification.py:4-8 | Every script notify launches holds exactly six double quotes, so the two assertions keep the fields delimited. |
| Trace.Message | call_alert/notification.py:8 | `str(e)` for a `CalledProcessError` holds the whole script at a fixed offset after the command's opening. For an assertion or a collaborator's exception it is the exception's own text. |
| Trace.MessageQuotesScript | call_alert/notification.py:8 | The message of the error from a failed osascript run contains every character of the script. In Python this holds for printable characters such as '"', which `repr` keeps as is. |
| Scheduler.Alert | call_alert/__main__.py:52-65 | An alert first queries the camera. It never polls or sleeps. With the camera active it does nothing else. When `camera_active()` raises, the alert ends at once with that collaborator error. |
| Scheduler.AlertFirstMinute | call_alert/__main__.py:53-59 | Within a minute of the start, with the camera off, the alert only speaks "has just started". |
| Scheduler.AlertQuoteConflict | call_alert/__main__.py:61-64 | Past the first minute, with the camera off, the alert raises notify's message assertion and nothing is shown or spoken. |
| Scheduler.JustStarted | call_alert/__main__.py:59 | The first-minute text holds the summary between two double quotes, right after "Your call ". |
| Scheduler.JoinNow | call_alert/__main__.py:61-63 | The reminder text holds the summary between two double quotes, right after "Your call ". This is why `notify` refuses it. |
| Scheduler.Cascade | call_alert/__main__.py:44-48 | The loop of `event_sequence` over any list of pauses. Its properties are proved in CascadeDuration. |
| Scheduler.CascadeDuration | call_alert/__main__.py:44-48 | A cascade ends with the outcome of the alert raised at its end time. With non-negative pauses it lasts at most their sum. It lasts exactly their sum when no alert raised. |
| Scheduler.Sequence | call_alert/__main__.py:42-49 | `event_sequence` lasts at most 480 seconds, and exactly 480 when no alert raised. It ends with the outcome of the alert raised at its end time. |
| Scheduler.SequenceTimeline | call_alert/__main__.py:42-48 | A sequence alerts at 0, 120 and 480 seconds, with sleeps of 120 and 360 seconds between. It ends at the first alert that raises. |
| Scheduler.SequenceWhileCameraActive | call_alert/__main__.py:44-56 | With the camera on at every alert, the sequence is three camera queries and two sleeps, and it lasts 480 seconds. |
| Scheduler.SequenceStopsAtSecondAlert | call_alert/__main__.py:44-64 | For a started event with the camera off at 120 s, the second alert raises the quote assertion and the third alert never runs. |
| Scheduler.Iteration | call_alert/__main__.py:17-34 | A pass starts with a poll carrying its flag. It takes between 0 and 480 seconds. A calendar failure ends it at once with that error. |
| Scheduler.PollWithoutEvents | call_alert/__main__.py:19-22 | With no qualifying event, the pass polls and then sleeps the default 300 seconds. |
| Scheduler.PollBeforeStart | call_alert/__main__.py:24-32 | Before the next start, the pass sleeps more than 0 and at most 300 seconds. It never sleeps past the start, and it wakes at the start or after exactly 300 seconds. |
| Scheduler.PollAfterStart | call_alert/__main__.py:33-34 | Once the next event has started, the pass is a poll followed by that event's sequence, and the camera is queried before any sleep. |
| Scheduler.IterationPollsOnce | call_alert/__main__.py:17-34 | Each pass polls the calendar exactly once, with the flag it was given. |
| Scheduler.CrashReport | call_alert/__main__.py:37-39 | The handler always ends in an exception, and there are three cases. If the error's message has a double quote, nothing is launched and notify's assertion error leaves. If the notification is shown, the original error is re-raised. If osascript fails, its own error replaces the original. |
| Scheduler.CrashSession | call_alert/__main__.py:37-39 | `main` ends crashed, at the time of the crash. The handler launches at most one osascript run and nothing else. |
| Scheduler.CrashReraisesOriginal | call_alert/__main__.py:37-39 | For any error with a quote-free message and a shown notification, `main` ends with one notification and the original error. |
| Scheduler.CrashQuotedMessage | call_alert/__main__.py:37-39 | For any error whose message has a double quote, nothing is launched, and notify's assertion error leaves `main` in its place. |
| Scheduler.CrashAfterQuoteConflict | call_alert/__main__.py:37-39 | A quote-assertion crash is reported with one notification and then re-raised. |
| Scheduler.CrashAfterProcessFailure | call_alert/__main__.py:37-39 | A failed osascript run cannot be reported: the report trips the quote assertion, launches nothing, and that assertion error leaves `main`. |
| Scheduler.Loop | call_alert/__main__.py:12-39 | `main` with a keyboard interrupt after `polls` passes. It lasts at most 480 seconds per pass. |
| Scheduler.LoopAuthOnFirstPoll | call_alert/__main__.py:13-18 | `main` polls between 1 and `polls` times. Only the first poll passes the initial flag; every later one passes `False`. |
| Scheduler.MainAuthOnFirstPoll | call_alert/__main__.py:13-18 | With `event_alert`, the interactive authorisation flow is allowed on the first poll only. |
| Scheduler.Host.Sleep | call_alert/__main__.py:21 | `time.sleep` moves the clock by its argument and records the sleep. |
| Scheduler.AlertCascade | call_alert/__main__.py:44-48 | The for loop over the pauses leaves exactly the trace, clock and outcome of the sequence function. |
| Scheduler.EventSequence | call_alert/__main__.py:42-49 | `event_sequence` records the alerts and sleeps of the sequence timeline and returns the outcome of the alert that ended it. |
| Scheduler.Poll | call_alert/__main__.py:17-34 | One pass of the loop changes the trace and clock exactly as the pass function says. |
| Scheduler.ReportCrash | call_alert/__main__.py:37-39 | The handler records the crash notification's effects and returns the exception that leaves `main`. |
| Scheduler.PollLoop | call_alert/__main__.py:12-39 | The `while True` loop, stopped after `polls` passes, produces the trace, clock and exit of the loop function, crash report included. |
| Scheduler.RunMain | call_alert/__main__.py:12-39 | `main()` with `event_alert` produces the trace, clock and exit of the loop function. |

## Left out

- OAuth, token files, the Google API client and pydantic parsing. The service is an oracle that returns parsed `AllDay`/`TimeRange` entries or an error message. Creator, organizer, html link, description and attendees are not modelled, because the core never reads them.
- `camera_active`, `play_text` and the speech backend. They are oracles that report a value or an exception message.
- `print` logging and `display_interval`'s use in it. The log lines have no effect on the world. `DisplayInterval` is still modelled on its own.
- Floating point and sub-second time. Timestamps and durations are whole epoch seconds. `Rfc3339` works on the `isoformat()` text it is given, and time-zone arithmetic is not modelled.
- Time spent inside collaborators. Only sleeps move the clock, and each collaborator is called at the current clock value.
- The infinite loop. `main` runs a bounded number of passes. A keyboard interrupt can happen only between passes, and `KeyboardInterrupt` raised inside a pass is not modelled.
- Nothing is lost by generality: the cascade and polling loops are proved for any alert operation, and `RunMain` and `MainAuthOnFirstPoll` instantiate them with `event_alert`.
- Trace.Message: the `CalledProcessError` text is modelled without Python's `repr` escaping of the script. It always uses the "returned non-zero exit status" wording. For a negative status, the signal that killed osascript, Python writes "died with <Signals…>" instead. No property here depends on that wording: the script is quoted in either form. `MessageQuotesScript` is used only for '"', which `repr` keeps; a newline or tab in the script would reach `str(e)` escaped.
- Rfc3339UtcSuffix: stated for a local time without '+' followed by "+00:00", the form `isoformat()` gives a UTC timestamp, rather than for every text.
- `call_alert/camera.py`, `call_alert/text_to_speech.py` and the authentication helpers of `call_alert/calendar_get.py` are not part of this model.
