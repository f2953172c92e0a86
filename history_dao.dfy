/**
 * The `practice_history` table and its data-access object. Rows are keyed by an auto-generated
 * `id`: an inserted row whose `id` is 0 receives a fresh one, larger than every id the table has
 * handed out (SQLite's AUTOINCREMENT), and an insert with an explicit id replaces that row.
 */
module HistoryDao {
  import opened Tables

  /** One row of `practice_history`. */
  datatype PracticeHistory = PracticeHistory(
    id: int,
    userId: string,
    songId: string,
    songTitle: string,
    artistName: string,
    partName: string,
    practiceDate: int,
    score: int,
    accuracy: real,
    isSynced: bool)

  type Table = map<int, PracticeHistory>

  /** Every row sits under its own primary key. */
  predicate Keyed(t: Table) {
    forall id :: id in t ==> t[id].id == id
  }

  /** Every id in use is below the next id the auto-increment counter will hand out. */
  predicate Below(t: Table, nextId: int) {
    forall id :: id in t ==> id < nextId
  }

  /** What `insertHistory` leaves behind: the new table, the new counter and the returned row id. */
  datatype Inserted = Inserted(table: Table, nextId: int, rowId: int)

  /**
   * `INSERT OR REPLACE` with an auto-generated key: a row whose id is 0 gets a fresh id, any other
   * id is used as given and replaces the row stored under it; the row id is returned.
   */
  function InsertReplace(t: Table, nextId: int, h: PracticeHistory): (r: Inserted)
    requires Below(t, nextId)
    ensures Below(r.table, r.nextId) && r.nextId >= nextId
    ensures Keyed(t) ==> Keyed(r.table)
    ensures h.id != 0 ==> r.rowId == h.id
    ensures h.id == 0 ==> r.rowId !in t
    ensures r.table.Keys == t.Keys + {r.rowId}
    ensures r.table[r.rowId] == h.(id := r.rowId)
    ensures forall id :: id in t && id != r.rowId ==> r.table[id] == t[id]
  {
    var rowId := if h.id == 0 then nextId else h.id;
    Inserted(t[rowId := h.(id := rowId)], if rowId + 1 > nextId then rowId + 1 else nextId, rowId)
  }

  /** `UPDATE practice_history SET isSynced = 1 WHERE id = :id`. */
  function MarkSynced(t: Table, id: int): (r: Table)
    ensures Keyed(t) ==> Keyed(r)
    ensures r.Keys == t.Keys
    ensures id in t ==> r[id] == t[id].(isSynced := true)
    ensures forall k :: k in t && k != id ==> r[k] == t[k]
  {
    if id in t then t[id := t[id].(isSynced := true)] else t
  }

  /** The ids `getUnsyncedData` selects. */
  function UnsyncedIds(t: Table): set<int> {
    set id | id in t && !t[id].isSynced
  }

  /** The ids `getHistoryBySong` selects. */
  function SongIds(t: Table, songId: string): set<int> {
    set id | id in t && t[id].songId == songId
  }

  /** `r` lists exactly the rows of `t` whose ids are `ids`, each once. */
  predicate ListsRows(r: seq<PracticeHistory>, t: Table, ids: set<int>) {
    && (forall i :: 0 <= i < |r| ==> r[i].id in ids && r[i].id in t && t[r[i].id] == r[i])
    && (forall id :: id in ids ==> id in t && t[id] in r)
    && IdsDistinct(r)
  }

  /** No id is listed twice. */
  predicate IdsDistinct(r: seq<PracticeHistory>) {
    forall i, j :: 0 <= i < j < |r| ==> r[i].id != r[j].id
  }

  /** `ORDER BY practiceDate DESC`. */
  predicate NewestFirst(r: seq<PracticeHistory>) {
    forall i, j :: 0 <= i < j < |r| ==> r[i].practiceDate >= r[j].practiceDate
  }

  /** Puts `h` before the first row that is not newer than it. */
  function InsertNewestFirst(h: PracticeHistory, r: seq<PracticeHistory>): (s: seq<PracticeHistory>)
    ensures multiset(s) == multiset(r) + multiset{h}
    ensures |s| == |r| + 1
  {
    if r == [] || r[0].practiceDate <= h.practiceDate then [h] + r
    else
      assert r == [r[0]] + r[1..];
      [r[0]] + InsertNewestFirst(h, r[1..])
  }

  /** Insertion keeps the newest-first order. */
  lemma {:induction false} InsertNewestFirstSorted(h: PracticeHistory, r: seq<PracticeHistory>)
    requires NewestFirst(r)
    ensures NewestFirst(InsertNewestFirst(h, r))
  {
    if r == [] || r[0].practiceDate <= h.practiceDate {
      ConsNewestFirst(h, r);
    } else {
      var rest := InsertNewestFirst(h, r[1..]);
      assert NewestFirst(rest) by {
        InsertNewestFirstSorted(h, r[1..]);
      }
      assert forall j :: 0 <= j < |rest| ==> r[0].practiceDate >= rest[j].practiceDate by {
        forall j | 0 <= j < |rest|
          ensures r[0].practiceDate >= rest[j].practiceDate
        {
          var x := rest[j];
          assert x in multiset(rest);
          assert x in multiset(r[1..]) + multiset{h};
          if x in multiset(r[1..]) {
            assert x in r[1..];
          }
        }
      }
      ConsNewestFirst(r[0], rest);
    }
  }

  /** A row no older than every row of a newest-first list can go in front of it. */
  lemma ConsNewestFirst(h: PracticeHistory, r: seq<PracticeHistory>)
    requires NewestFirst(r)
    requires forall j :: 0 <= j < |r| ==> h.practiceDate >= r[j].practiceDate
    ensures NewestFirst([h] + r)
  {
    forall i, j | 0 <= i < j < |[h] + r|
      ensures ([h] + r)[i].practiceDate >= ([h] + r)[j].practiceDate
    {
      if i > 0 {
        assert ([h] + r)[i] == r[i - 1];
      }
      assert ([h] + r)[j] == r[j - 1];
    }
  }

  /** Insertion adds exactly `h`. */
  lemma InsertNewestFirstMembers(h: PracticeHistory, r: seq<PracticeHistory>)
    ensures forall x :: x in InsertNewestFirst(h, r) <==> x == h || x in r
  {
    var s := InsertNewestFirst(h, r);
    forall x: PracticeHistory
      ensures x in s <==> x == h || x in r
    {
      assert x in s <==> x in multiset(s);
      assert x in r <==> x in multiset(r);
    }
  }

  /** Insertion adds exactly `h`, and keeps ids distinct when `h`'s id is new. */
  lemma {:induction false} InsertNewestFirstIds(h: PracticeHistory, r: seq<PracticeHistory>)
    ensures forall x :: x in InsertNewestFirst(h, r) <==> x == h || x in r
    ensures IdsDistinct(r) && (forall i :: 0 <= i < |r| ==> r[i].id != h.id) ==>
      IdsDistinct(InsertNewestFirst(h, r))
  {
    InsertNewestFirstMembers(h, r);
    if r == [] || r[0].practiceDate <= h.practiceDate {
      if IdsDistinct(r) && (forall i :: 0 <= i < |r| ==> r[i].id != h.id) {
        ConsIdsDistinct(h, r);
      }
    } else if IdsDistinct(r) && (forall i :: 0 <= i < |r| ==> r[i].id != h.id) {
      var rest := InsertNewestFirst(h, r[1..]);
      assert IdsDistinct(rest) by {
        InsertNewestFirstIds(h, r[1..]);
      }
      InsertNewestFirstMembers(h, r[1..]);
      assert forall j :: 0 <= j < |rest| ==> rest[j].id != r[0].id by {
        forall j | 0 <= j < |rest|
          ensures rest[j].id != r[0].id
        {
          assert rest[j] in rest;
          if rest[j] != h {
            var k :| 0 <= k < |r[1..]| && r[1..][k] == rest[j];
            assert r[k + 1] == rest[j];
          }
        }
      }
      ConsIdsDistinct(r[0], rest);
    }
  }

  /** A row whose id no row of a list with distinct ids has can go in front of it. */
  lemma ConsIdsDistinct(h: PracticeHistory, r: seq<PracticeHistory>)
    requires IdsDistinct(r)
    requires forall j :: 0 <= j < |r| ==> r[j].id != h.id
    ensures IdsDistinct([h] + r)
  {
    forall i, j | 0 <= i < j < |[h] + r|
      ensures ([h] + r)[i].id != ([h] + r)[j].id
    {
      if i > 0 {
        assert ([h] + r)[i] == r[i - 1];
      }
      assert ([h] + r)[j] == r[j - 1];
    }
  }

  /** After the scan of `keys[..n]`, `r` lists exactly the scanned rows of song `songId`, each once. */
  ghost predicate SongScanned(r: seq<PracticeHistory>, t: Table, keys: seq<int>, n: nat, songId: string)
    requires n <= |keys|
  {
    && (forall x :: x in r ==> x.id in keys[..n] && x.id in t && t[x.id] == x && x.songId == songId)
    && (forall k :: k in keys[..n] && k in t && t[k].songId == songId ==> t[k] in r)
    && IdsDistinct(r)
  }

  /** One scanned key: its row is inserted newest-first when it belongs to the song. */
  /** After scanning `keys[..n]`, `r` lists exactly the unsynced rows seen so far, each once. */
  ghost predicate UnsyncedScanned(r: seq<PracticeHistory>, t: Table, keys: seq<int>, n: nat)
    requires n <= |keys|
  {
    && (forall x :: x in r ==> x.id in keys[..n] && x.id in t && t[x.id] == x && !x.isSynced)
    && (forall k :: k in keys[..n] && k in t && !t[k].isSynced ==> t[k] in r)
    && IdsDistinct(r)
  }

  /** Scanning one more key appends its row when it is unsynced. */
  lemma UnsyncedScanStep(r: seq<PracticeHistory>, t: Table, keys: seq<int>, n: nat)
    requires n < |keys| && Distinct(keys) && Keyed(t) && forall i :: 0 <= i < |keys| ==> keys[i] in t
    requires UnsyncedScanned(r, t, keys, n)
    ensures var h := t[keys[n]];
      UnsyncedScanned(if !h.isSynced then r + [h] else r, t, keys, n + 1)
  {
    var k := keys[n];
    var h := t[k];
    assert keys[..n + 1] == keys[..n] + [k];
    if !h.isSynced {
      var r' := r + [h];
      forall i, j | 0 <= i < j < |r'|
        ensures r'[i].id != r'[j].id
      {
        if j == |r| {
          assert r[i] in r;
        }
      }
    }
  }

  lemma SongScanStep(r: seq<PracticeHistory>, t: Table, keys: seq<int>, n: nat, songId: string)
    requires n < |keys| && Distinct(keys) && Keyed(t) && forall i :: 0 <= i < |keys| ==> keys[i] in t
    requires SongScanned(r, t, keys, n, songId) && NewestFirst(r)
    ensures var h := t[keys[n]];
      var r' := if h.songId == songId then InsertNewestFirst(h, r) else r;
      SongScanned(r', t, keys, n + 1, songId) && NewestFirst(r')
  {
    var k := keys[n];
    assert keys[..n + 1] == keys[..n] + [k];
    if t[k].songId == songId {
      forall i | 0 <= i < |r|
        ensures r[i].id != t[k].id
      {
        assert r[i] in r;
      }
      InsertNewestFirstIds(t[k], r);
      InsertNewestFirstSorted(t[k], r);
    }
  }

  /** Marking a row synced twice is the same as marking it once. */
  lemma MarkSyncedIdempotent(t: Table, id: int)
    ensures MarkSynced(MarkSynced(t, id), id) == MarkSynced(t, id)
  {
  }

  /** A row marked synced leaves the unsynced selection, and nothing else does. */
  lemma MarkSyncedLeavesUnsynced(t: Table, id: int)
    ensures UnsyncedIds(MarkSynced(t, id)) == UnsyncedIds(t) - {id}
  {
  }

  /** The `practice_history` table behind the DAO interface, with its auto-increment counter. */
  class HistoryDao {
    var rows: Table
    var nextId: int

    ghost predicate Valid()
      reads this
    {
      Keyed(rows) && Below(rows, nextId) && nextId >= 1
    }

    constructor()
      ensures Valid() && rows == map[] && nextId == 1
    {
      rows := map[];
      nextId := 1;
    }

    /** `insertHistory` (conflict strategy REPLACE), returning the row id. */
    method InsertHistory(history: PracticeHistory) returns (rowId: int)
      requires Valid()
      modifies this
      ensures Valid()
      ensures var r := InsertReplace(old(rows), old(nextId), history);
        rows == r.table && nextId == r.nextId && rowId == r.rowId
    {
      if history.id == 0 {
        rowId := nextId;
      } else {
        rowId := history.id;
      }
      rows := rows[rowId := history.(id := rowId)];
      if rowId + 1 > nextId {
        nextId := rowId + 1;
      }
    }

    /** `getHistoryBySong`: that song's rows, newest first. */
    method GetHistoryBySong(songId: string) returns (r: seq<PracticeHistory>)
      requires Valid()
      ensures ListsRows(r, rows, SongIds(rows, songId))
      ensures NewestFirst(r)
    {
      var keys := KeysOf(rows);
      r := [];
      for n := 0 to |keys|
        invariant SongScanned(r, rows, keys, n, songId)
        invariant NewestFirst(r)
      {
        var k := keys[n];
        SongScanStep(r, rows, keys, n, songId);
        if rows[k].songId == songId {
          r := InsertNewestFirst(rows[k], r);
        }
      }
      assert keys[..|keys|] == keys;
    }

    /** `getUnsyncedData`: every row not yet sent, in scan order. */
    method GetUnsyncedData() returns (r: seq<PracticeHistory>)
      requires Valid()
      ensures ListsRows(r, rows, UnsyncedIds(rows))
    {
      var keys := KeysOf(rows);
      r := [];
      for n := 0 to |keys|
        invariant UnsyncedScanned(r, rows, keys, n)
      {
        var k := keys[n];
        UnsyncedScanStep(r, rows, keys, n);
        if !rows[k].isSynced {
          r := r + [rows[k]];
        }
      }
      assert keys[..|keys|] == keys;
    }

    /** `markAsSynced`. */
    method MarkAsSynced(id: int)
      requires Valid()
      modifies this`rows
      ensures Valid()
      ensures rows == MarkSynced(old(rows), id)
    {
      if id in rows {
        rows := rows[id := rows[id].(isSynced := true)];
      }
    }
  }
}
