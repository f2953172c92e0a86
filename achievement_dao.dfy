/**
 * The `achievements` table and its data-access object, keyed by `achievementId`. The bulk insert
 * uses the IGNORE conflict strategy: a row whose id is already present is dropped and the stored
 * row is kept.
 */
module AchievementDao {
  import opened Wrappers
  import opened Tables

  /** One row of `achievements`. */
  datatype Achievement = Achievement(
    achievementId: string,
    title: string,
    description: string,
    currentProgress: int,
    targetValue: int,
    isCompleted: bool,
    rewardXp: int,
    iconResName: string)

  type Table = map<string, Achievement>

  /** Every row sits under its own primary key. */
  predicate Keyed(t: Table) {
    forall id :: id in t ==> t[id].achievementId == id
  }

  /** The first achievement in `list` with the given id, if any. */
  function FirstWithId(list: seq<Achievement>, id: string): (r: Option<Achievement>)
    ensures r.None? <==> forall i :: 0 <= i < |list| ==> list[i].achievementId != id
    ensures r.Some? ==> r.value in list && r.value.achievementId == id
  {
    if list == [] then None
    else if list[0].achievementId == id then Some(list[0])
    else FirstWithId(list[1..], id)
  }

  /**
   * `insertAchievements` with IGNORE, one row after the other: rows already stored stay as they
   * are, and a new id takes the first row of the list that carries it.
   */
  function InsertIgnoring(t: Table, list: seq<Achievement>): (r: Table)
    ensures Keyed(t) ==> Keyed(r)
    decreases |list|
  {
    if list == [] then t
    else
      var a := list[0];
      var t' := if a.achievementId in t then t else t[a.achievementId := a];
      InsertIgnoring(t', list[1..])
  }

  /**
   * What the seeding leaves in the table: the stored ids and every id of the list; a stored row
   * unchanged, and under a new id the first row of the list that carries it.
   */
  lemma {:induction false} InsertIgnoringContents(t: Table, list: seq<Achievement>)
    ensures var r := InsertIgnoring(t, list);
      && (forall id :: id in r <==> id in t || FirstWithId(list, id).Some?)
      && (forall id :: id in t ==> r[id] == t[id])
      && (forall id :: id !in t && FirstWithId(list, id).Some? ==> r[id] == FirstWithId(list, id).value)
    decreases |list|
  {
    if list != [] {
      var a := list[0];
      var t' := if a.achievementId in t then t else t[a.achievementId := a];
      var rest := list[1..];
      var r := InsertIgnoring(t', rest);
      assert r == InsertIgnoring(t, list);
      InsertIgnoringContents(t', rest);
      forall id
        ensures id in r <==> id in t || FirstWithId(list, id).Some?
        ensures id in t ==> r[id] == t[id]
        ensures id !in t && FirstWithId(list, id).Some? ==> r[id] == FirstWithId(list, id).value
      {
        if id == a.achievementId {
          assert FirstWithId(list, id) == Some(a);
        } else {
          assert FirstWithId(list, id) == FirstWithId(rest, id);
        }
      }
    }
  }

  /** `UPDATE achievements SET currentProgress = :progress, isCompleted = :isCompleted WHERE ...`. */
  function SetProgress(t: Table, id: string, progress: int, isCompleted: bool): (r: Table)
    ensures Keyed(t) ==> Keyed(r)
    ensures r.Keys == t.Keys
    ensures id !in t ==> r == t
    ensures id in t ==> r[id] == t[id].(currentProgress := progress, isCompleted := isCompleted)
    ensures forall k :: k in t && k != id ==> r[k] == t[k]
  {
    if id in t then t[id := t[id].(currentProgress := progress, isCompleted := isCompleted)] else t
  }

  /** Seeding the table twice with the same list changes nothing the second time. */
  lemma {:induction false} InsertIgnoringTwice(t: Table, list: seq<Achievement>)
    ensures InsertIgnoring(InsertIgnoring(t, list), list) == InsertIgnoring(t, list)
  {
    var once := InsertIgnoring(t, list);
    var twice := InsertIgnoring(once, list);
    InsertIgnoringContents(t, list);
    InsertIgnoringContents(once, list);
    assert twice.Keys == once.Keys;
  }

  /** The `achievements` table behind the DAO interface. */
  class AchievementDao {
    var rows: Table

    ghost predicate Valid()
      reads this
    {
      Keyed(rows)
    }

    constructor()
      ensures Valid() && rows == map[]
    {
      rows := map[];
    }

    /** `getAllAchievements`: every row once, in scan order. */
    method GetAllAchievements() returns (r: seq<Achievement>)
      requires Valid()
      ensures forall a :: a in r <==> a.achievementId in rows && rows[a.achievementId] == a
      ensures Distinct(r)
    {
      var t := rows;
      var keys := KeysOf(t);
      r := seq(|keys|, i requires 0 <= i < |keys| => t[keys[i]]);
      forall i, j | 0 <= i < j < |r|
        ensures r[i] != r[j]
      {
        assert r[i].achievementId == keys[i] && r[j].achievementId == keys[j];
      }
      forall a
        ensures a in r <==> a.achievementId in rows && rows[a.achievementId] == a
      {
        if a.achievementId in rows && rows[a.achievementId] == a {
          var i :| 0 <= i < |keys| && keys[i] == a.achievementId;
          assert r[i] == a;
        }
      }
    }

    /** `insertAchievements` (conflict strategy IGNORE). */
    method InsertAchievements(achievements: seq<Achievement>)
      requires Valid()
      modifies this
      ensures Valid()
      ensures rows == InsertIgnoring(old(rows), achievements)
    {
      ghost var goal := InsertIgnoring(old(rows), achievements);
      for n := 0 to |achievements|
        invariant Valid()
        invariant InsertIgnoring(rows, achievements[n..]) == goal
      {
        var a := achievements[n];
        if a.achievementId !in rows {
          rows := rows[a.achievementId := a];
        }
        assert achievements[n..][1..] == achievements[n + 1..];
      }
    }

    /** `updateProgress`. */
    method UpdateProgress(id: string, progress: int, isCompleted: bool)
      requires Valid()
      modifies this
      ensures Valid()
      ensures rows == SetProgress(old(rows), id, progress, isCompleted)
    {
      if id in rows {
        rows := rows[id := rows[id].(currentProgress := progress, isCompleted := isCompleted)];
      }
    }

    /** `getAchievement`. */
    method GetAchievement(id: string) returns (r: Option<Achievement>)
      ensures r == Lookup(rows, id)
    {
      if id in rows {
        r := Some(rows[id]);
      } else {
        r := None;
      }
    }
  }
}
