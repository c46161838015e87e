/**
 * Event selection for a team: the event in progress now, or failing that
 * the one that ended most recently within the past year. Times are whole
 * seconds; the event list is the team's season as already decoded.
 */
module Events {
  import opened Options

  /** One event of a team's season: its code, display name, and first and last day. */
  datatype Event = Event(code: string, name: string, start: int, end: int)

  /** How far back the fallback looks: 365 days of 24 hours. */
  const LookBack: int := 365 * 24 * 3600

  /** `start.Before(now) && now.Before(end)`; `end` is the last day's start, not extended. */
  predicate InProgress(e: Event, now: int)
  {
    e.start < now < e.end
  }

  /** Ended before now, and later than one year ago. */
  predicate RecentlyEnded(e: Event, now: int)
  {
    now - LookBack < e.end < now
  }

  /** The first event in list order that is in progress. */
  function FirstInProgress(es: seq<Event>, now: int): (r: Option<nat>)
    ensures r.Some? ==> r.value < |es| && InProgress(es[r.value], now)
    ensures r.Some? ==> forall j :: 0 <= j < r.value ==> !InProgress(es[j], now)
    ensures r.None? ==> forall j :: 0 <= j < |es| ==> !InProgress(es[j], now)
  {
    if es == [] then None
    else if InProgress(es[0], now) then Some(0)
    else
      match FirstInProgress(es[1..], now)
      case None => None
      case Some(i) => Some(i + 1)
  }

  /** The cut-off the fallback loop holds after choosing `r` among `es`. */
  function Bar(es: seq<Event>, r: Option<nat>, now: int): int
    requires r.Some? ==> r.value < |es|
  {
    match r
    case None => now - LookBack
    case Some(k) => es[k].end
  }

  /**
   * The fallback loop's choice among the first `n` events: a later event
   * replaces the current one only if its end is strictly later, so the
   * latest recently ended event wins and ties keep the earliest.
   */
  function LatestEnded(es: seq<Event>, now: int, n: nat): (r: Option<nat>)
    requires n <= |es|
    ensures r.Some? ==> r.value < n && RecentlyEnded(es[r.value], now)
    ensures r.Some? ==> forall j :: 0 <= j < n && RecentlyEnded(es[j], now) ==> es[j].end <= es[r.value].end
    ensures r.Some? ==> forall j :: 0 <= j < r.value && RecentlyEnded(es[j], now) ==> es[j].end < es[r.value].end
    ensures r.None? ==> forall j :: 0 <= j < n ==> !RecentlyEnded(es[j], now)
  {
    if n == 0 then None
    else
      var prev := LatestEnded(es, now, n - 1);
      var e := es[n - 1];
      if e.end < now && Bar(es, prev, now) < e.end then Some(n - 1) else prev
  }

  /**
   * `determineEvent`'s answer as (code, name): the first event in
   * progress, else the latest recently ended one, else two empty strings.
   */
  function SelectEvent(es: seq<Event>, now: int): (string, string)
  {
    match FirstInProgress(es, now)
    case Some(i) => (es[i].code, es[i].name)
    case None =>
      match LatestEnded(es, now, |es|)
      case Some(k) => (es[k].code, es[k].name)
      case None => ("", "")
  }

  /** Returns the first in-progress event, or runs the fallback loop over the accumulators. */
  method DetermineEvent(events: seq<Event>, now: int) returns (code: string, name: string)
    ensures (code, name) == SelectEvent(events, now)
  {
    for i := 0 to |events|
      invariant forall j :: 0 <= j < i ==> !InProgress(events[j], now)
    {
      var e := events[i];
      if e.start < now && now < e.end {
        assert FirstInProgress(events, now) == Some(i) by {
          FirstInProgressUnique(events, now, i);
        }
        return e.code, e.name;
      }
    }
    assert FirstInProgress(events, now) == None;
    code, name := "", "";
    var currTime := now - LookBack;
    ghost var chosen: Option<nat> := None;
    for i := 0 to |events|
      invariant chosen == LatestEnded(events, now, i)
      invariant currTime == Bar(events, chosen, now)
      invariant chosen.None? ==> code == "" && name == ""
      invariant chosen.Some? ==> code == events[chosen.value].code && name == events[chosen.value].name
    {
      var end := events[i].end;
      if end < now && currTime < end {
        code := events[i].code;
        name := events[i].name;
        currTime := end;
        chosen := Some(i);
      }
    }
  }

  /** The first in-progress event is determined by the conditions that define it. */
  lemma {:induction false} FirstInProgressUnique(es: seq<Event>, now: int, i: nat)
    requires i < |es| && InProgress(es[i], now)
    requires forall j :: 0 <= j < i ==> !InProgress(es[j], now)
    ensures FirstInProgress(es, now) == Some(i)
  {
    if i > 0 {
      assert forall j :: 0 <= j < i - 1 ==> es[1..][j] == es[j + 1];
      FirstInProgressUnique(es[1..], now, i - 1);
    }
  }
}
