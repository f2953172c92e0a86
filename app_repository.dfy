/**
 * The repository over the three tables: saving a practice result (insert, then the local stats
 * update, then a push of unsynced rows), the push itself, and the pull of the server's stats.
 * The push runs in its own coroutine in the app; here it runs to completion right after the
 * save, and whether sending one row fails is an oracle keyed by row id.
 */
module AppRepository {
  import opened Wrappers
  import Tables
  import UserDao
  import HistoryDao
  import AchievementDao

  /** Seconds credited per saved practice, whatever the practice was. */
  const SessionSeconds := 180

  /**
   * The stats row after one more completed song: the user's current row, or the default row when
   * there is none, with one more song and `SessionSeconds` more practice time.
   */
  function StatsAfterSave(t: UserDao.Table, userId: string): (s: UserDao.UserStats)
    ensures UserDao.Keyed(t) ==> s.userId == userId
    ensures var base := if userId in t then t[userId] else UserDao.DefaultStats(userId);
      && s.completedSongCount == base.completedSongCount + 1
      && s.totalPracticeTimeSeconds == base.totalPracticeTimeSeconds + SessionSeconds
      && s.(completedSongCount := base.completedSongCount, totalPracticeTimeSeconds := base.totalPracticeTimeSeconds) == base
  {
    var current := Tables.Lookup(t, userId).GetOr(UserDao.DefaultStats(userId));
    current.(completedSongCount := current.completedSongCount + 1,
             totalPracticeTimeSeconds := current.totalPracticeTimeSeconds + SessionSeconds)
  }

  /** `updateUserStatsLocally` on the table. */
  function SaveStats(t: UserDao.Table, userId: string): UserDao.Table {
    UserDao.Upsert(t, StatsAfterSave(t, userId))
  }

  /** The stats table after `n` saves by the same user. */
  function SaveStatsTimes(t: UserDao.Table, userId: string, n: nat): UserDao.Table {
    if n == 0 then t else SaveStats(SaveStatsTimes(t, userId, n - 1), userId)
  }

  /**
   * `n` saves leave the user with exactly `n` more songs and `180 * n` more seconds than before
   * (counting from the default row for a new user), and every other column as it was.
   */
  lemma {:induction false} RepeatedSaves(t: UserDao.Table, userId: string, n: nat)
    requires UserDao.Keyed(t)
    requires n >= 1
    ensures var base := if userId in t then t[userId] else UserDao.DefaultStats(userId);
      var r := SaveStatsTimes(t, userId, n);
      && UserDao.Keyed(r) && userId in r
      && r[userId].completedSongCount == base.completedSongCount + n
      && r[userId].totalPracticeTimeSeconds == base.totalPracticeTimeSeconds + SessionSeconds * n
      && r[userId].(completedSongCount := base.completedSongCount,
                    totalPracticeTimeSeconds := base.totalPracticeTimeSeconds) == base
  {
    if n > 1 {
      RepeatedSaves(t, userId, n - 1);
    }
  }

  /**
   * The history table after a push: every row that was unsynced and whose sending did not fail is
   * now synced; every other row is as it was.
   */
  function AfterSync(t: HistoryDao.Table, fails: int -> bool): (r: HistoryDao.Table)
    ensures HistoryDao.Keyed(t) ==> HistoryDao.Keyed(r)
    ensures r.Keys == t.Keys
    ensures HistoryDao.UnsyncedIds(r) == set id | id in HistoryDao.UnsyncedIds(t) && fails(id)
    ensures forall id :: id in t ==> r[id] == t[id].(isSynced := t[id].isSynced || !fails(id))
  {
    map id | id in t :: t[id].(isSynced := t[id].isSynced || !fails(id))
  }

  /** With no failures a push leaves nothing unsynced. */
  lemma SyncWithoutFailures(t: HistoryDao.Table)
    ensures HistoryDao.UnsyncedIds(AfterSync(t, _ => false)) == {}
  {
  }

  /** The row the server's pull writes: fixed counters, everything else at its default. */
  function MockServerStats(userId: string): UserDao.UserStats {
    UserDao.DefaultStats(userId).(completedSongCount := 100, totalPracticeTimeSeconds := 45000,
                          currentLevel := 5, completedPartCount := 42, averageAccuracy := 92.5)
  }

  class AppRepository {
    const userDao: UserDao.UserDao
    const historyDao: HistoryDao.HistoryDao
    const achievementDao: AchievementDao.AchievementDao

    ghost predicate Valid()
      reads this, userDao, historyDao, achievementDao
    {
      userDao.Valid() && historyDao.Valid() && achievementDao.Valid()
    }

    constructor(userDao: UserDao.UserDao, historyDao: HistoryDao.HistoryDao,
                achievementDao: AchievementDao.AchievementDao)
      requires userDao.Valid() && historyDao.Valid() && achievementDao.Valid()
      ensures Valid()
      ensures this.userDao == userDao && this.historyDao == historyDao && this.achievementDao == achievementDao
    {
      this.userDao := userDao;
      this.historyDao := historyDao;
      this.achievementDao := achievementDao;
    }

    /** `savePracticeResult`: insert, update the stats, then push. */
    method SavePracticeResult(history: HistoryDao.PracticeHistory, fails: int -> bool) returns (newId: int)
      requires Valid()
      modifies userDao, historyDao
      ensures Valid()
      ensures var ins := HistoryDao.InsertReplace(old(historyDao.rows), old(historyDao.nextId), history);
        && newId == ins.rowId
        && historyDao.nextId == ins.nextId
        && historyDao.rows == AfterSync(ins.table, fails)
        && userDao.rows == SaveStats(old(userDao.rows), history.userId)
    {
      newId := historyDao.InsertHistory(history);
      UpdateUserStatsLocally(history);
      SyncUnsyncedData(fails);
    }

    /** `updateUserStatsLocally`. */
    method UpdateUserStatsLocally(history: HistoryDao.PracticeHistory)
      requires Valid()
      modifies userDao
      ensures Valid()
      ensures userDao.rows == SaveStats(old(userDao.rows), history.userId)
    {
      var found := userDao.GetUserStatsOneShot(history.userId);
      var currentStats := found.GetOr(UserDao.DefaultStats(history.userId));
      var updatedStats := currentStats.(
        completedSongCount := currentStats.completedSongCount + 1,
        totalPracticeTimeSeconds := currentStats.totalPracticeTimeSeconds + SessionSeconds);
      userDao.InsertOrUpdate(updatedStats);
    }

    /**
     * `syncUnsyncedData`: reads the unsynced rows once, then tries each; a failed row is logged
     * and skipped, and the loop goes on.
     */
    method SyncUnsyncedData(fails: int -> bool)
      requires Valid()
      modifies historyDao`rows
      ensures Valid()
      ensures historyDao.rows == AfterSync(old(historyDao.rows), fails)
    {
      var unsyncedList := historyDao.GetUnsyncedData();
      ghost var before := historyDao.rows;
      for n := 0 to |unsyncedList|
        invariant Valid()
        invariant historyDao.rows.Keys == before.Keys
        invariant forall id :: id in before ==>
          historyDao.rows[id] == (if !fails(id) && exists i :: 0 <= i < n && unsyncedList[i].id == id
                                  then before[id].(isSynced := true) else before[id])
      {
        if !fails(unsyncedList[n].id) {
          historyDao.MarkAsSynced(unsyncedList[n].id);
        }
      }
      forall id | id in before
        ensures historyDao.rows[id] == AfterSync(before, fails)[id]
      {
        if !before[id].isSynced && !fails(id) {
          assert id in HistoryDao.UnsyncedIds(before);
          assert before[id] in unsyncedList;
        }
      }
    }

    /** `fetchInitialData`: on success the user's row is the server's; a failure is passed on. */
    method FetchInitialData(userId: string, networkFails: bool) returns (ok: bool)
      requires Valid()
      modifies userDao
      ensures Valid()
      ensures ok == !networkFails
      ensures ok ==> userDao.rows == UserDao.Upsert(old(userDao.rows), MockServerStats(userId))
      ensures !ok ==> userDao.rows == old(userDao.rows)
    {
      if networkFails {
        return false;
      }
      userDao.InsertOrUpdate(MockServerStats(userId));
      return true;
    }
  }
}
