/** The `UserStreak` document: one per user, holding the current and longest
    run of consecutive active days, the last active time and a history of
    active days. Times are milliseconds since the Unix epoch. */
module UserStreakModel {
  import opened Wrappers

  /** A user's object id, compared by value. */
  type UserId = string

  /** One element of `streakHistory`; `date` is required, `active` defaults to
      true. */
  datatype HistoryEntry = HistoryEntry(date: int, active: bool)

  /** The part of the document that the streak update reads and writes. */
  datatype StreakState = StreakState(
    currentStreak: int, longestStreak: int, lastActive: int, streakHistory: seq<HistoryEntry>)

  /** Casting one history element supplied as loose fields: without a date it
      is rejected, and a missing `active` flag becomes true. */
  function CastEntry(date: Option<int>, active: Option<bool>): (r: Option<HistoryEntry>)
    ensures r.None? <==> date.None?
    ensures r.Some? ==> r.value.date == date.value
    ensures r.Some? ==> (r.value.active <==> active != Some(false))
  {
    match date
    case None => None
    case Some(d) => Some(HistoryEntry(d, active.GetOr(true)))
  }

  class UserStreak {
    var userId: Option<UserId>
    var currentStreak: int
    var longestStreak: int
    var lastActive: int
    var streakHistory: seq<HistoryEntry>
    var createdAt: int
    var updatedAt: int

    /** `new UserStreak({...})`: fields left out take the schema defaults, 0 for
        both counters and the creation time `now` for the three dates. */
    constructor (userId: Option<UserId>, currentStreak: Option<int>, longestStreak: Option<int>,
                 lastActive: Option<int>, streakHistory: seq<HistoryEntry>, now: int)
      ensures this.userId == userId
      ensures this.currentStreak == currentStreak.GetOr(0)
      ensures this.longestStreak == longestStreak.GetOr(0)
      ensures this.lastActive == lastActive.GetOr(now)
      ensures this.streakHistory == streakHistory
      ensures createdAt == now && updatedAt == now
    {
      this.userId := userId;
      this.currentStreak := currentStreak.GetOr(0);
      this.longestStreak := longestStreak.GetOr(0);
      this.lastActive := lastActive.GetOr(now);
      this.streakHistory := streakHistory;
      createdAt := now;
      updatedAt := now;
    }

    function State(): StreakState
      reads this
    {
      StreakState(currentStreak, longestStreak, lastActive, streakHistory)
    }

    /** The schema's validation: `userId` is required. */
    predicate Valid()
      reads this
    {
      userId.Some?
    }

    /** `save()` at time `now`: validation runs first and a document without a
        `userId` is refused unchanged; otherwise the pre-save hook stamps
        `updatedAt` and nothing else changes. */
    method Save(now: int) returns (ok: bool)
      modifies this
      ensures ok <==> old(Valid())
      ensures updatedAt == if ok then now else old(updatedAt)
      ensures State() == old(State())
      ensures userId == old(userId) && createdAt == old(createdAt)
    {
      ok := Valid();
      if ok {
        updatedAt := now;
      }
    }
  }
}
