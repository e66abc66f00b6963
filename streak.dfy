/** The daily streak of the streak route: on each visit `UpdateStreak` creates
    the user's record, or extends, keeps or restarts the run of consecutive
    active days, and logs the day in a history limited to the last 60 entries.

    Times are milliseconds since the Unix epoch. The server's time zone is a
    fixed offset `tz` (milliseconds east of UTC): "local midnight" is the start
    of the local day of an instant, while the history is matched on the UTC
    calendar date, as the ISO text of a date gives it. The pure `Touch` states
    what one visit does to the record; `UpdateStreak` performs it on the
    document, field by field. */
module Streak {
  import opened Wrappers
  import opened UserStreakModel
  import ResponseModel

  const DayMs: int := 86400000

  /** The number of history entries a new day's visit keeps. */
  const HistoryLimit: nat := 60

  // ---------------------------------------------------------------------------
  // Days

  /** `setHours(0, 0, 0, 0)` in a zone `tz` ahead of UTC: the last local
      midnight at or before `t`. */
  function LocalMidnight(t: int, tz: int): (r: int)
    ensures r <= t < r + DayMs
    ensures (r + tz) % DayMs == 0
  {
    var q := (t + tz) / DayMs;
    assert q * DayMs <= t + tz < q * DayMs + DayMs;
    q * DayMs - tz
  }

  /** A local midnight is its own local midnight. */
  lemma MidnightIdempotent(t: int, tz: int)
    ensures LocalMidnight(LocalMidnight(t, tz), tz) == LocalMidnight(t, tz)
  {
    var m := LocalMidnight(t, tz);
    var q := (t + tz) / DayMs;
    assert m + tz == q * DayMs;
    assert (m + tz) / DayMs == q;
  }

  /** The UTC calendar day of `t`, numbered from the epoch: two instants have the
      same `toISOString().split('T')[0]` exactly when their `UtcDay` agree. */
  function UtcDay(t: int): (r: int)
    ensures r * DayMs <= t < r * DayMs + DayMs
  {
    t / DayMs
  }

  // ---------------------------------------------------------------------------
  // History

  /** Some history entry falls on UTC day `day`. */
  predicate HasEntryOn(h: seq<HistoryEntry>, day: int) {
    exists i :: 0 <= i < |h| && UtcDay(h[i].date) == day
  }

  /** `streakHistory.find(h => <same UTC date>)`: the first entry on `day`. */
  function FindOn(h: seq<HistoryEntry>, day: int): (r: Option<HistoryEntry>)
    ensures r.None? <==> !HasEntryOn(h, day)
    ensures r.Some? ==> r.value in h && UtcDay(r.value.date) == day
  {
    if h == [] then None
    else if UtcDay(h[0].date) == day then Some(h[0])
    else
      var r := FindOn(h[1..], day);
      assert HasEntryOn(h, day) ==> HasEntryOn(h[1..], day) by {
        if HasEntryOn(h, day) {
          var i :| 0 <= i < |h| && UtcDay(h[i].date) == day;
          assert i != 0 && h[1..][i - 1] == h[i];
        }
      }
      assert HasEntryOn(h[1..], day) ==> HasEntryOn(h, day) by {
        if HasEntryOn(h[1..], day) {
          var j :| 0 <= j < |h[1..]| && UtcDay(h[1..][j].date) == day;
          assert h[j + 1] == h[1..][j];
        }
      }
      r
  }

  /** `slice(-60)` applied once the history is longer than 60: the most recent
      60 entries, in their order. */
  function Window(h: seq<HistoryEntry>): (r: seq<HistoryEntry>)
    ensures |r| == if |h| <= HistoryLimit then |h| else HistoryLimit
    ensures r == h[|h| - |r|..]
  {
    if |h| > HistoryLimit then h[|h| - HistoryLimit..] else h
  }

  // ---------------------------------------------------------------------------
  // One visit

  /** The record after a visit at `now`; `prev` is the stored record, `None`
      for a user's first visit. */
  function Touch(prev: Option<StreakState>, now: int, tz: int): (r: StreakState)
    ensures prev.Some? ==> r.longestStreak >= prev.value.longestStreak
  {
    match prev
    case None => StreakState(1, 1, now, [HistoryEntry(now, true)])
    case Some(s) =>
      var today := LocalMidnight(now, tz);
      if LocalMidnight(s.lastActive, tz) == today then
        if FindOn(s.streakHistory, UtcDay(today)).Some? then s
        else s.(streakHistory := s.streakHistory + [HistoryEntry(today, true)])
      else
        var continued := LocalMidnight(s.lastActive, tz) == today - DayMs;
        var current := if continued then s.currentStreak + 1 else 1;
        var longest := if continued && current > s.longestStreak then current else s.longestStreak;
        StreakState(current, longest, today, Window(s.streakHistory + [HistoryEntry(today, true)]))
  }

  /** A visit that leaves the record as it was, so that nothing is saved. */
  predicate Idle(s: StreakState, now: int, tz: int) {
    LocalMidnight(s.lastActive, tz) == LocalMidnight(now, tz) &&
    HasEntryOn(s.streakHistory, UtcDay(LocalMidnight(now, tz)))
  }

  /** A first visit starts a run of one day, with one active history entry. */
  lemma TouchFirst(now: int, tz: int)
    ensures var r := Touch(None, now, tz);
      r.currentStreak == 1 && r.longestStreak == 1 && r.lastActive == now &&
      |r.streakHistory| == 1 && r.streakHistory[0].active && r.streakHistory[0].date == now
  {
  }

  /** A second visit on the same local day keeps the counters and `lastActive`,
      and adds today's entry exactly when no entry has today's UTC date. */
  lemma TouchSameDay(s: StreakState, now: int, tz: int)
    requires LocalMidnight(s.lastActive, tz) == LocalMidnight(now, tz)
    ensures var r := Touch(Some(s), now, tz);
      r.currentStreak == s.currentStreak && r.longestStreak == s.longestStreak &&
      r.lastActive == s.lastActive &&
      (HasEntryOn(s.streakHistory, UtcDay(LocalMidnight(now, tz))) ==> r == s) &&
      (!HasEntryOn(s.streakHistory, UtcDay(LocalMidnight(now, tz))) ==>
         r.streakHistory == s.streakHistory + [HistoryEntry(LocalMidnight(now, tz), true)])
  {
  }

  /** A visit on the local day after the last one extends the run by one day and
      keeps the longest run the maximum of the two. */
  lemma TouchNextDay(s: StreakState, now: int, tz: int)
    requires LocalMidnight(s.lastActive, tz) == LocalMidnight(now, tz) - DayMs
    ensures var r := Touch(Some(s), now, tz);
      r.currentStreak == s.currentStreak + 1 && r.lastActive == LocalMidnight(now, tz) &&
      r.longestStreak == if s.currentStreak + 1 > s.longestStreak then s.currentStreak + 1
                         else s.longestStreak
  {
  }

  /** Any other gap, including a last visit dated after today, restarts the run
      at one day and leaves the longest run alone. */
  lemma TouchGap(s: StreakState, now: int, tz: int)
    requires LocalMidnight(s.lastActive, tz) != LocalMidnight(now, tz)
    requires LocalMidnight(s.lastActive, tz) != LocalMidnight(now, tz) - DayMs
    ensures var r := Touch(Some(s), now, tz);
      r.currentStreak == 1 && r.lastActive == LocalMidnight(now, tz) &&
      r.longestStreak == s.longestStreak
  {
  }

  /** On a new day, today's entry ends the history, which holds the most recent
      entries, at most 60 of them, in their order. */
  lemma TouchNewDayHistory(s: StreakState, now: int, tz: int)
    requires LocalMidnight(s.lastActive, tz) != LocalMidnight(now, tz)
    ensures var h := Touch(Some(s), now, tz).streakHistory;
      var full := s.streakHistory + [HistoryEntry(LocalMidnight(now, tz), true)];
      h != [] && h[|h| - 1] == HistoryEntry(LocalMidnight(now, tz), true) &&
      |h| == (if |full| <= HistoryLimit then |full| else HistoryLimit) &&
      h == full[|full| - |h|..]
  {
    var h := Touch(Some(s), now, tz).streakHistory;
    var full := s.streakHistory + [HistoryEntry(LocalMidnight(now, tz), true)];
    assert h == full[|full| - |h|..];
    assert h[|h| - 1] == full[|full| - 1];
  }

  /** The same-day append is not trimmed: a full window of 60 entries without
      today's UTC date grows to 61. */
  lemma SameDayOverflow(s: StreakState, now: int, tz: int)
    requires |s.streakHistory| == HistoryLimit
    requires LocalMidnight(s.lastActive, tz) == LocalMidnight(now, tz)
    requires !HasEntryOn(s.streakHistory, UtcDay(LocalMidnight(now, tz)))
    ensures |Touch(Some(s), now, tz).streakHistory| == HistoryLimit + 1
  {
  }

  // ---------------------------------------------------------------------------
  // What every visit preserves

  /** The record's invariant: the run is at least one day and at most the longest
      run, and the history holds at most 60 entries, or 61 when the last one is
      the same-day entry of `lastActive`'s day. */
  predicate StreakInv(s: StreakState, tz: int) {
    1 <= s.currentStreak <= s.longestStreak &&
    (|s.streakHistory| <= HistoryLimit ||
     (|s.streakHistory| == HistoryLimit + 1 &&
      s.streakHistory[HistoryLimit].date == LocalMidnight(s.lastActive, tz)))
  }

  /** Every visit, the first included, yields a record satisfying the
      invariant. */
  lemma TouchKeepsInv(prev: Option<StreakState>, now: int, tz: int)
    requires prev.Some? ==> StreakInv(prev.value, tz)
    ensures StreakInv(Touch(prev, now, tz), tz)
  {
    if prev.Some? {
      var s := prev.value;
      var today := LocalMidnight(now, tz);
      var h := s.streakHistory;
      if LocalMidnight(s.lastActive, tz) == today && |h| == HistoryLimit + 1 {
        assert UtcDay(h[HistoryLimit].date) == UtcDay(today);
        assert HasEntryOn(h, UtcDay(today));
      }
    }
  }

  /** The invariant holds after any sequence of visits from a user's first. */
  lemma {:induction false} VisitsKeepInv(times: seq<int>, tz: int)
    requires times != []
    ensures StreakInv(Replay(times, tz), tz)
    decreases |times|
  {
    if |times| == 1 {
      TouchKeepsInv(None, times[0], tz);
    } else {
      VisitsKeepInv(times[..|times| - 1], tz);
      TouchKeepsInv(Some(Replay(times[..|times| - 1], tz)), times[|times| - 1], tz);
    }
  }

  /** The record after visits at `times`, starting from none. */
  function Replay(times: seq<int>, tz: int): StreakState
    requires times != []
    decreases |times|
  {
    if |times| == 1 then Touch(None, times[0], tz)
    else Touch(Some(Replay(times[..|times| - 1], tz)), times[|times| - 1], tz)
  }

  // ---------------------------------------------------------------------------
  // The update on the stored document

  /** `updateStreak(userId)` at time `now`, given the user's stored document
      (`null` when there is none): creates and saves a new record, or updates
      the stored one and saves it unless the visit changed nothing. */
  method UpdateStreak(found: UserStreak?, userId: UserId, now: int, tz: int) returns (s: UserStreak)
    requires found != null ==> found.userId == Some(userId)
    modifies found
    ensures found != null ==> s == found
    ensures found == null ==> fresh(s) && s.createdAt == now
    ensures found != null ==> s.createdAt == old(found.createdAt)
    ensures s.userId == Some(userId)
    ensures s.State() == Touch(if found == null then None else Some(old(found.State())), now, tz)
    ensures s.updatedAt == if found != null && Idle(old(found.State()), now, tz)
                           then old(found.updatedAt) else now
  {
    if found == null {
      s := new UserStreak(Some(userId), Some(1), Some(1), Some(now), [HistoryEntry(now, true)], now);
      var _ := s.Save(now);
      return;
    }
    s := found;
    var today := LocalMidnight(now, tz);
    var lastActive := LocalMidnight(s.lastActive, tz);
    var yesterday := today - DayMs;
    if lastActive == today {
      var historyToday := FindOn(s.streakHistory, UtcDay(today));
      if historyToday.None? {
        s.streakHistory := s.streakHistory + [HistoryEntry(today, true)];
        var _ := s.Save(now);
      }
      return;
    }
    if lastActive == yesterday {
      s.currentStreak := s.currentStreak + 1;
      s.lastActive := today;
      if s.currentStreak > s.longestStreak {
        s.longestStreak := s.currentStreak;
      }
    } else {
      s.currentStreak := 1;
      s.lastActive := today;
    }
    s.streakHistory := s.streakHistory + [HistoryEntry(today, true)];
    if |s.streakHistory| > HistoryLimit {
      s.streakHistory := s.streakHistory[|s.streakHistory| - HistoryLimit..];
    }
    var _ := s.Save(now);
  }

  // ---------------------------------------------------------------------------
  // Usage statistics

  datatype UsageStats = UsageStats(totalInteractions: nat, moodEntries: nat, eventsScheduled: nat)

  /** The number of the user's documents. */
  function CountUser(docs: seq<ResponseModel.ResponseDoc>, userId: UserId): (n: nat)
    ensures n <= |docs|
  {
    if docs == [] then 0
    else (if docs[0].userId == userId then 1 else 0) + CountUser(docs[1..], userId)
  }

  /** The number of the user's documents that carry a `moodTag`. */
  function CountTagged(docs: seq<ResponseModel.ResponseDoc>, userId: UserId): (n: nat)
    ensures n <= CountUser(docs, userId)
  {
    if docs == [] then 0
    else (if docs[0].userId == userId && docs[0].moodTag.Some? then 1 else 0)
         + CountTagged(docs[1..], userId)
  }

  /** `GET /stats` over the stored response documents: the user's interactions,
      the tagged ones among them, and a constant zero for scheduled events. */
  function Stats(docs: seq<ResponseModel.ResponseDoc>, userId: UserId): (r: UsageStats)
    ensures r.eventsScheduled == 0
    ensures r.moodEntries <= r.totalInteractions
  {
    UsageStats(CountUser(docs, userId), CountTagged(docs, userId), 0)
  }

  /** When every document carries a mood tag, as every document the schema
      creates does, all of the user's interactions count as mood entries. */
  lemma {:induction false} StatsAllTagged(docs: seq<ResponseModel.ResponseDoc>, userId: UserId)
    requires forall i :: 0 <= i < |docs| ==> docs[i].moodTag.Some?
    ensures Stats(docs, userId).moodEntries == Stats(docs, userId).totalInteractions
  {
    if docs != [] {
      StatsAllTagged(docs[1..], userId);
    }
  }
}
