/**
 * Turns a server analysis result plus the metadata recovered from its file name into a local
 * `practice_history` row. The save time is the clock reading, passed in as `now`.
 */
module AnalysisMapper {
  import opened Wrappers
  import opened AnalysisDto
  import opened FilenameParser
  import opened HistoryDao

  /**
   * `mapToPracticeHistory`: the file-name fields go to the identifying columns, the summary score
   * to both score and accuracy, and the row starts unsynced with an id still to be generated.
   */
  function MapToPracticeHistory(analysisResult: AnalysisResultResponse, metadata: ParsedMetadata,
                                songTitle: string, now: int): (h: PracticeHistory)
    ensures h.id == 0 && !h.isSynced
    ensures h.userId == metadata.userId && h.songId == metadata.songId
    ensures h.artistName == metadata.artist && h.partName == metadata.partNumber
    ensures h.songTitle == songTitle && h.practiceDate == now
    ensures h.score == analysisResult.summary.totalScore && h.accuracy == h.score as real
  {
    PracticeHistory(
      id := 0,
      userId := metadata.userId,
      songId := metadata.songId,
      songTitle := songTitle,
      artistName := metadata.artist,
      partName := metadata.partNumber,
      practiceDate := now,
      score := analysisResult.summary.totalScore,
      accuracy := analysisResult.summary.totalScore as real,
      isSynced := false)
  }

  /**
   * Parsing a result file named `u__s__a__p.ext` and mapping it files the practice under user `u`,
   * song `s`, artist `a` and part `p`.
   */
  lemma ResultFileToHistory(u: string, s: string, a: string, p: string, ext: string,
                            analysisResult: AnalysisResultResponse, songTitle: string, now: int)
    requires '_' !in u && '_' !in s && '_' !in a && '_' !in p && '.' !in ext
    ensures var parsed := Parse(u + "__" + s + "__" + a + "__" + p + "." + ext);
      && parsed.Some?
      && var h := MapToPracticeHistory(analysisResult, parsed.value, songTitle, now);
         h.userId == u && h.songId == s && h.artistName == a && h.partName == p
  {
    ParseRoundTrip(u, s, a, p, ext);
  }

  /**
   * Saving a mapped result creates a new row (it replaces nothing) and queues that row for the
   * next sync.
   */
  lemma MappedRowQueuedForSync(t: Table, nextId: int, analysisResult: AnalysisResultResponse,
                               metadata: ParsedMetadata, songTitle: string, now: int)
    requires Below(t, nextId)
    ensures var ins := InsertReplace(t, nextId, MapToPracticeHistory(analysisResult, metadata, songTitle, now));
      && ins.rowId !in t
      && UnsyncedIds(ins.table) == UnsyncedIds(t) + {ins.rowId}
  {
    var ins := InsertReplace(t, nextId, MapToPracticeHistory(analysisResult, metadata, songTitle, now));
    assert ins.rowId in UnsyncedIds(ins.table);
  }
}
