/**
 * The shared view model: saving a practice under the signed-in test user, and the manual refresh
 * guarded by `isSyncing`, whose toast message moves from "in progress" to success or failure.
 * The refresh coroutine is modelled as running to completion inside `RefreshData`.
 */
module MainViewModel {
  import opened Wrappers
  import UserDao
  import HistoryDao
  import AppRepository

  const CurrentUserId := "user_test_01"
  const InProgressMessage := "서버에서 최신 데이터를 가져오는 중..."
  const SuccessMessage := "최신 데이터 동기화 완료!"
  const FailureMessage := "동기화 실패: 네트워크 상태를 확인해주세요."

  /** The history row `savePracticeResult` builds, stamped with the clock reading `now`. */
  function NewHistory(title: string, score: int, accuracy: real, songId: string, now: int): HistoryDao.PracticeHistory {
    HistoryDao.PracticeHistory(
      id := 0, userId := CurrentUserId, songId := songId, songTitle := title,
      artistName := "Unknown", partName := "Part 1", practiceDate := now,
      score := score, accuracy := accuracy, isSynced := false)
  }

  /**
   * A practice saved from the view model always becomes a new row under the test user, carrying
   * the given title, score, accuracy and song, and it waits in the sync queue until pushed.
   */
  lemma NewHistoryIsNewRow(t: HistoryDao.Table, nextId: int, title: string, score: int,
                           accuracy: real, songId: string, now: int)
    requires HistoryDao.Below(t, nextId)
    ensures var ins := HistoryDao.InsertReplace(t, nextId, NewHistory(title, score, accuracy, songId, now));
      var row := ins.table[ins.rowId];
      && ins.rowId !in t
      && ins.rowId in HistoryDao.UnsyncedIds(ins.table)
      && row.userId == CurrentUserId && row.artistName == "Unknown" && row.partName == "Part 1"
      && row.songTitle == title && row.score == score && row.accuracy == accuracy && row.songId == songId
  {
  }

  class MainViewModel {
    const repository: AppRepository.AppRepository
    var isSyncing: bool
    var syncMessage: Option<string>

    ghost predicate Valid()
      reads this, repository, repository.userDao, repository.historyDao, repository.achievementDao
    {
      repository.Valid()
    }

    constructor(repository: AppRepository.AppRepository)
      requires repository.Valid()
      ensures Valid() && this.repository == repository
      ensures !isSyncing && syncMessage == None
    {
      this.repository := repository;
      isSyncing := false;
      syncMessage := None;
    }

    /** `clearSyncMessage`. */
    method ClearSyncMessage()
      modifies this`syncMessage
      ensures syncMessage == None
    {
      syncMessage := None;
    }

    /** `savePracticeResult`, with the push's per-row failures as an oracle. */
    method SavePracticeResult(title: string, score: int, accuracy: real, songId: string, now: int,
                              fails: int -> bool)
      requires Valid()
      modifies repository.userDao, repository.historyDao
      ensures Valid()
      ensures var ins := HistoryDao.InsertReplace(old(repository.historyDao.rows), old(repository.historyDao.nextId),
                                                  NewHistory(title, score, accuracy, songId, now));
        && repository.historyDao.rows == AppRepository.AfterSync(ins.table, fails)
        && repository.historyDao.nextId == ins.nextId
        && repository.userDao.rows == AppRepository.SaveStats(old(repository.userDao.rows), CurrentUserId)
    {
      var newHistory := NewHistory(title, score, accuracy, songId, now);
      var _ := repository.SavePracticeResult(newHistory, fails);
    }

    /**
     * The part of `refreshData` that runs before the coroutine first suspends: nothing while a
     * refresh is running; otherwise `isSyncing` is raised and the progress message shown.
     */
    method StartRefresh() returns (started: bool)
      modifies this`isSyncing, this`syncMessage
      ensures started == !old(isSyncing)
      ensures isSyncing
      ensures started ==> syncMessage == Some(InProgressMessage)
      ensures !started ==> syncMessage == old(syncMessage)
    {
      if isSyncing {
        return false;
      }
      isSyncing := true;
      syncMessage := Some(InProgressMessage);
      started := true;
    }

    /** The rest of the coroutine: the pull, the outcome message, and the `finally` that clears `isSyncing`. */
    method FinishRefresh(networkFails: bool) returns (outcome: string)
      requires Valid() && isSyncing
      modifies this`isSyncing, this`syncMessage, repository.userDao
      ensures Valid() && !isSyncing && syncMessage == Some(outcome)
      ensures outcome == if networkFails then FailureMessage else SuccessMessage
      ensures repository.userDao.rows == if networkFails then old(repository.userDao.rows)
        else UserDao.Upsert(old(repository.userDao.rows), AppRepository.MockServerStats(CurrentUserId))
    {
      var ok := repository.FetchInitialData(CurrentUserId, networkFails);
      outcome := if ok then SuccessMessage else FailureMessage;
      syncMessage := Some(outcome);
      isSyncing := false;
    }

    /**
     * `refreshData` with its coroutine run to completion. While a refresh is running it does
     * nothing; otherwise it shows the progress message, pulls, shows the outcome and clears
     * `isSyncing` whatever the outcome. `messages` lists the messages shown, in order.
     */
    method RefreshData(networkFails: bool) returns (messages: seq<string>)
      requires Valid()
      modifies this`isSyncing, this`syncMessage, repository.userDao
      ensures Valid()
      ensures old(isSyncing) ==>
        && messages == [] && isSyncing && syncMessage == old(syncMessage)
        && repository.userDao.rows == old(repository.userDao.rows)
      ensures !old(isSyncing) ==>
        && !isSyncing
        && messages == [InProgressMessage, if networkFails then FailureMessage else SuccessMessage]
        && syncMessage == Some(messages[1])
        && repository.userDao.rows == if networkFails then old(repository.userDao.rows)
           else UserDao.Upsert(old(repository.userDao.rows), AppRepository.MockServerStats(CurrentUserId))
    {
      messages := [];
      var started := StartRefresh();
      if !started {
        return;
      }
      messages := [InProgressMessage];
      var outcome := FinishRefresh(networkFails);
      messages := messages + [outcome];
    }

    /**
     * A second tap on the sync button while the first refresh is still pulling: the second call
     * is turned away by the guard, and the run ends exactly as a single refresh does.
     */
    method RefreshTappedTwice(networkFails: bool) returns (secondStarted: bool)
      requires Valid() && !isSyncing
      modifies this`isSyncing, this`syncMessage, repository.userDao
      ensures !secondStarted
      ensures Valid() && !isSyncing
      ensures syncMessage == Some(if networkFails then FailureMessage else SuccessMessage)
      ensures repository.userDao.rows == if networkFails then old(repository.userDao.rows)
        else UserDao.Upsert(old(repository.userDao.rows), AppRepository.MockServerStats(CurrentUserId))
    {
      var firstStarted := StartRefresh();
      secondStarted := StartRefresh();
      var _ := FinishRefresh(networkFails);
    }
  }
}
