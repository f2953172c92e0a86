/**
 * The `user_stats` table and its data-access object. The table is keyed by `userId`; every
 * statement of the DAO is one of the map transformers below, and the class `UserDao` applies them
 * to its table in place.
 */
module UserDao {
  import opened Wrappers
  import opened Tables

  /** One row of `user_stats`. */
  datatype UserStats = UserStats(
    userId: string,
    totalPracticeTimeSeconds: int,
    completedSongCount: int,
    completedPartCount: int,
    earnedBadgesJson: string,
    currentLevel: int,
    currentXp: int,
    averageAccuracy: real)

  /** `UserStats(userId = u)`: every other column at its declared default. */
  function DefaultStats(userId: string): UserStats {
    UserStats(userId, 0, 0, 0, "[]", 1, 0, 0.0)
  }

  type Table = map<string, UserStats>

  /** Every row sits under its own primary key. */
  predicate Keyed(t: Table) {
    forall u :: u in t ==> t[u].userId == u
  }

  /** `INSERT OR REPLACE`: the row for `s.userId` becomes `s`; no other row changes. */
  function Upsert(t: Table, s: UserStats): (r: Table)
    ensures Keyed(t) ==> Keyed(r)
    ensures s.userId in r && r[s.userId] == s
    ensures forall u :: u != s.userId ==> (u in r <==> u in t)
    ensures forall u :: u != s.userId && u in t ==> r[u] == t[u]
  {
    t[s.userId := s]
  }

  /**
   * Applies a column update to the row of `userId`, when there is one (an `UPDATE ... WHERE
   * userId = :userId` that matches no row changes nothing).
   */
  function UpdateRow(t: Table, userId: string, f: UserStats -> UserStats): (r: Table)
    ensures r.Keys == t.Keys
    ensures userId in t ==> r[userId] == f(t[userId])
    ensures forall u :: u in t && u != userId ==> r[u] == t[u]
  {
    if userId in t then t[userId := f(t[userId])] else t
  }

  /** `totalPracticeTimeSeconds = totalPracticeTimeSeconds + :addTime` for one user. */
  function AddTotalTime(t: Table, userId: string, addTime: int): (r: Table)
    ensures Keyed(t) ==> Keyed(r)
    ensures r.Keys == t.Keys
    ensures userId !in t ==> r == t
    ensures userId in t ==>
      r[userId] == t[userId].(totalPracticeTimeSeconds := t[userId].totalPracticeTimeSeconds + addTime)
    ensures forall u :: u in t && u != userId ==> r[u] == t[u]
  {
    UpdateRow(t, userId, (s: UserStats) => s.(totalPracticeTimeSeconds := s.totalPracticeTimeSeconds + addTime))
  }

  /** `completedSongCount = completedSongCount + 1` for one user. */
  function IncrementSongs(t: Table, userId: string): (r: Table)
    ensures Keyed(t) ==> Keyed(r)
    ensures r.Keys == t.Keys
    ensures userId !in t ==> r == t
    ensures userId in t ==> r[userId] == t[userId].(completedSongCount := t[userId].completedSongCount + 1)
    ensures forall u :: u in t && u != userId ==> r[u] == t[u]
  {
    UpdateRow(t, userId, (s: UserStats) => s.(completedSongCount := s.completedSongCount + 1))
  }

  /** `averageAccuracy = :newAverage` for one user. */
  function SetAverageAccuracy(t: Table, userId: string, newAverage: real): (r: Table)
    ensures Keyed(t) ==> Keyed(r)
    ensures r.Keys == t.Keys
    ensures userId !in t ==> r == t
    ensures userId in t ==> r[userId] == t[userId].(averageAccuracy := newAverage)
    ensures forall u :: u in t && u != userId ==> r[u] == t[u]
  {
    UpdateRow(t, userId, (s: UserStats) => s.(averageAccuracy := newAverage))
  }

  /** Reading back a row just written gives that row. */
  lemma LookupAfterUpsert(t: Table, s: UserStats, u: string)
    ensures Lookup(Upsert(t, s), u) == if u == s.userId then Some(s) else Lookup(t, u)
  {
  }

  /** Updates to different users commute, so the order of two users' writes is invisible. */
  lemma AddTimeCommutes(t: Table, u1: string, u2: string, d1: int, d2: int)
    ensures AddTotalTime(AddTotalTime(t, u1, d1), u2, d2) == AddTotalTime(AddTotalTime(t, u2, d2), u1, d1)
  {
    var t1, t2 := AddTotalTime(t, u1, d1), AddTotalTime(t, u2, d2);
    var a, b := AddTotalTime(t1, u2, d2), AddTotalTime(t2, u1, d1);
    assert a.Keys == t.Keys && b.Keys == t.Keys;
    forall u | u in t
      ensures a[u] == b[u]
    {
      AddTimeAt(t, u1, d1, u);
      AddTimeAt(t, u2, d2, u);
      AddTimeAt(t1, u2, d2, u);
      AddTimeAt(t2, u1, d1, u);
    }
  }

  /** The row of `u` after adding time to `userId`: grown by `addTime` when they are the same user. */
  lemma AddTimeAt(t: Table, userId: string, addTime: int, u: string)
    requires u in t
    ensures var r := AddTotalTime(t, userId, addTime);
      u in r && r[u] == if u == userId then t[u].(totalPracticeTimeSeconds := t[u].totalPracticeTimeSeconds + addTime) else t[u]
  {
  }

  /** The `user_stats` table behind the DAO interface. */
  class UserDao {
    var rows: Table

    ghost predicate Valid()
      reads this
    {
      Keyed(rows)
    }

    constructor()
      ensures Valid() && rows == map[]
    {
      rows := map[];
    }

    /** `getUserStatsOneShot`. */
    method GetUserStatsOneShot(userId: string) returns (r: Option<UserStats>)
      ensures r == Lookup(rows, userId)
    {
      if userId in rows {
        r := Some(rows[userId]);
      } else {
        r := None;
      }
    }

    /** `insertOrUpdate` (conflict strategy REPLACE). */
    method InsertOrUpdate(userStats: UserStats)
      requires Valid()
      modifies this
      ensures Valid()
      ensures rows == Upsert(old(rows), userStats)
    {
      rows := rows[userStats.userId := userStats];
    }

    /** `updateTotalTime`. */
    method UpdateTotalTime(userId: string, addTime: int)
      requires Valid()
      modifies this
      ensures Valid()
      ensures rows == AddTotalTime(old(rows), userId, addTime)
    {
      if userId in rows {
        var s := rows[userId];
        rows := rows[userId := s.(totalPracticeTimeSeconds := s.totalPracticeTimeSeconds + addTime)];
      }
    }

    /** `incrementSongCount`. */
    method IncrementSongCount(userId: string)
      requires Valid()
      modifies this
      ensures Valid()
      ensures rows == IncrementSongs(old(rows), userId)
    {
      if userId in rows {
        var s := rows[userId];
        rows := rows[userId := s.(completedSongCount := s.completedSongCount + 1)];
      }
    }

    /** `updateAverageAccuracy`. */
    method UpdateAverageAccuracy(userId: string, newAverage: real)
      requires Valid()
      modifies this
      ensures Valid()
      ensures rows == SetAverageAccuracy(old(rows), userId, newAverage)
    {
      if userId in rows {
        rows := rows[userId := rows[userId].(averageAccuracy := newAverage)];
      }
    }
  }
}
