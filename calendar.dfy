/**
 * The event rules of `call_alert/calendar_get.py`: which link counts as the
 * video link, which fetched events qualify, the window the calendar is
 * queried for, and the RFC 3339 rendering of a timestamp. Timestamps are
 * UTC epoch seconds.
 */
module Calendar {
  import opened Results
  import opened Text
  import opened Trace

  /** The fields of a calendar entry the core reads. */
  datatype Details = Details(summary: string, hangoutLink: Option<string>, location: Option<string>)

  /** An entry as the schema parses it: a whole-day entry or a timed one. */
  datatype CalEvent =
    | AllDay(details: Details, startDate: int, endDate: int)
    | TimeRange(details: Details, start: int, end: int)

  const GracePeriod := 300     // timedelta(minutes=5)
  const LookAhead := 172800    // timedelta(days=2)

  /** Python truthiness of an optional string: present and not empty. */
  predicate Truthy(s: Option<string>) {
    s.Some? && s.value != ""
  }

  /** `CalEvent.video_link`. */
  function VideoLink(d: Details): (r: Option<string>)
    ensures r.Some? ==> r.value != ""
    ensures Truthy(d.hangoutLink) ==> r == d.hangoutLink
    ensures !Truthy(d.hangoutLink) ==>
      (r.Some? <==> d.location.Some? && HasPrefix(d.location.value, "http"))
    ensures !Truthy(d.hangoutLink) && r.Some? ==> r == d.location
  {
    if Truthy(d.hangoutLink) then d.hangoutLink
    else if Truthy(d.location) && HasPrefix(d.location.value, "http") then d.location
    else None
  }

  /** The link is truthy exactly when there is one, so the filter's
      truthiness test is the same as asking whether a link exists. */
  lemma VideoLinkTruthy(d: Details)
    ensures Truthy(VideoLink(d)) <==> VideoLink(d).Some?
    ensures VideoLink(d).Some? <==> Truthy(d.hangoutLink) || (d.location.Some? && HasPrefix(d.location.value, "http"))
  {
  }

  /** The filter condition of `get_calendar_events`. */
  predicate Qualifies(e: CalEvent, cutoff: int): (b: bool)
    ensures b <==> e.TimeRange? && VideoLink(e.details).Some? && e.start > cutoff
  {
    e.TimeRange? && Truthy(VideoLink(e.details)) && e.start > cutoff
  }

  /** `r` is `s` with some elements left out, the rest in their order. */
  predicate IsSubsequence<T(==)>(r: seq<T>, s: seq<T>)
    decreases |s|
  {
    if r == [] then true
    else if s == [] then false
    else if r[0] == s[0] then IsSubsequence(r[1..], s[1..])
    else IsSubsequence(r, s[1..])
  }

  /** The list comprehension of `get_calendar_events`. */
  function QualifyingEvents(events: seq<CalEvent>, cutoff: int): (r: seq<CalEvent>)
    ensures forall i :: 0 <= i < |r| ==> Qualifies(r[i], cutoff)
    decreases |events|
  {
    if events == [] then []
    else
      var rest := QualifyingEvents(events[1..], cutoff);
      if Qualifies(events[0], cutoff) then [events[0]] + rest else rest
  }

  /** The filter keeps every qualifying entry, as often as it occurs, and
      drops every other one. */
  lemma {:induction false} QualifyingEventsCount(events: seq<CalEvent>, cutoff: int)
    ensures var r := QualifyingEvents(events, cutoff);
      forall e :: multiset(r)[e] == if Qualifies(e, cutoff) then multiset(events)[e] else 0
    decreases |events|
  {
    if events != [] {
      QualifyingEventsCount(events[1..], cutoff);
      assert events == [events[0]] + events[1..];
    }
  }

  /** The filter keeps the service's order. */
  lemma {:induction false} QualifyingEventsInOrder(events: seq<CalEvent>, cutoff: int)
    ensures IsSubsequence(QualifyingEvents(events, cutoff), events)
    decreases |events|
  {
    if events != [] {
      QualifyingEventsInOrder(events[1..], cutoff);
      var rest := QualifyingEvents(events[1..], cutoff);
      if Qualifies(events[0], cutoff) {
        assert ([events[0]] + rest)[1..] == rest;
      } else if rest != [] {
        assert Qualifies(rest[0], cutoff) && rest[0] != events[0];
      }
    }
  }

  /** Filtering what was already filtered changes nothing. */
  lemma {:induction false} QualifyingEventsIdempotent(events: seq<CalEvent>, cutoff: int)
    ensures QualifyingEvents(QualifyingEvents(events, cutoff), cutoff) == QualifyingEvents(events, cutoff)
    decreases |events|
  {
    if events != [] {
      QualifyingEventsIdempotent(events[1..], cutoff);
      var rest := QualifyingEvents(events[1..], cutoff);
      if Qualifies(events[0], cutoff) {
        assert ([events[0]] + rest)[1..] == rest;
      }
    }
  }

  /** The calendar service as the core sees it: given whether the interactive
      authorisation flow is allowed and the query window, the parsed entries in
      start order, or the message of the exception it raised. */
  type CalendarApi = (bool, int, int) -> Result<seq<CalEvent>, string>

  /** `min_datetime` of `get_calendar_events`. */
  function Cutoff(now: int): int {
    now - GracePeriod
  }

  /** The `timeMin` and `timeMax` of the query. */
  function QueryWindow(now: int): (w: (int, int))
    ensures w.0 == Cutoff(now) && w.1 - w.0 == LookAhead
    ensures w.0 < now < w.1
  {
    (Cutoff(now), Cutoff(now) + LookAhead)
  }

  /** `get_calendar_events(allow_auth_flow)` read at time `now`. */
  function GetCalendarEvents(api: CalendarApi, allowAuth: bool, now: int): (r: Result<seq<CalEvent>, string>)
    ensures r.Success? ==> forall i :: 0 <= i < |r.value| ==>
      r.value[i].TimeRange? && VideoLink(r.value[i].details).Some? && r.value[i].start > now - GracePeriod
    ensures var q := api(allowAuth, QueryWindow(now).0, QueryWindow(now).1);
      q.Failure? ==> r == Failure(q.error)
    ensures var q := api(allowAuth, QueryWindow(now).0, QueryWindow(now).1);
      q.Success? ==> (r.Success? && IsSubsequence(r.value, q.value)
        && forall e :: multiset(r.value)[e] == if Qualifies(e, Cutoff(now)) then multiset(q.value)[e] else 0)
  {
    var window := QueryWindow(now);
    match api(allowAuth, window.0, window.1)
    case Failure(message) => Failure(message)
    case Success(raw) =>
      QualifyingEventsCount(raw, Cutoff(now));
      QualifyingEventsInOrder(raw, Cutoff(now));
      Success(QualifyingEvents(raw, Cutoff(now)))
  }

  /** A timestamp as the Python side holds it: its `isoformat()` text and
      whether it carries a time zone. */
  datatype Timestamp = Timestamp(iso: string, aware: bool)

  const NaiveTimestampText := "Datetime object must have a timezone"
  const UtcOffset := "+00:00"

  /** `rfc3339(dt)`. */
  function Rfc3339(dt: Timestamp): (r: Result<string, Error>)
    ensures !dt.aware <==> r == Failure(AssertionFailed(NaiveTimestampText))
  {
    if !dt.aware then Failure(AssertionFailed(NaiveTimestampText))
    else Success(ReplaceAll(dt.iso, UtcOffset, "Z"))
  }

  /** No "+00:00" is left in the result. */
  lemma Rfc3339NoUtcOffsetLeft(dt: Timestamp)
    requires dt.aware
    ensures Rfc3339(dt).Success? && !Contains(Rfc3339(dt).value, UtcOffset)
  {
    assert forall c :: c in "Z" ==> c == 'Z';
    ReplaceAllRemoves(dt.iso, UtcOffset, "Z");
  }

  /** Text without "+00:00" passes through unchanged. */
  lemma Rfc3339Unchanged(dt: Timestamp)
    requires dt.aware && !Contains(dt.iso, UtcOffset)
    ensures Rfc3339(dt) == Success(dt.iso)
  {
    ReplaceAllAbsent(dt.iso, UtcOffset, "Z");
  }

  /** A UTC timestamp "YYYY-MM-DDTHH:MM:SS+00:00" ends in "Z" instead. */
  lemma {:induction false} Rfc3339UtcSuffix(local: string)
    requires '+' !in local
    ensures ReplaceAll(local + UtcOffset, UtcOffset, "Z") == local + "Z"
    decreases |local|
  {
    var s := local + UtcOffset;
    if local == [] {
      assert s[..6] == UtcOffset;
      assert s[6..] == [];
    } else {
      assert s[..6][0] == local[0] != '+';
      assert s[1..] == local[1..] + UtcOffset;
      Rfc3339UtcSuffix(local[1..]);
      assert local == [local[0]] + local[1..];
    }
  }
}
