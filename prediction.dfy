/**
 * What one call of `PredictCompactionFiles` returns for a snapshot and a
 * blacklist: the level-0 path when level 0 is over its trigger, otherwise
 * the per-level selection (with up to three supplementary rounds) over
 * every level but the last, followed by the cascade pass.
 */
module Prediction {
  import opened KeyRanges
  import opened VersionStorage
  import opened Selection
  import opened Score

  /** At most this many supplementary selections are made for one level. */
  const MAX_SUPPLEMENTARY_ROUNDS: nat := 3

  /**
   * The supplementary rounds for `level`: while rounds are left and the
   * re-estimated score is over the trigger, add the next selection that
   * avoids everything chosen so far, stopping when that selection is empty.
   */
  function SupplementaryRounds(v: VersionStorageInfo, level: int, blacklist: set<nat>,
                               current: set<nat>, score: real, roundsLeft: nat): (r: set<nat>)
    requires 0 <= level < v.NumLevels()
    ensures current <= r && (r - current) !! blacklist
    ensures roundsLeft == 0 || !(score > COMPACTION_TRIGGER) ==> r == current
    decreases roundsLeft
  {
    if roundsLeft == 0 || !(score > COMPACTION_TRIGGER) then current
    else
      var extra := NextCompactionFilesFrom(v, level, current, blacklist);
      if extra == {} then current
      else
        var grown := current + extra;
        SupplementaryRounds(v, level, blacklist, grown, NewScore(v, level, grown), roundsLeft - 1)
  }

  /** One level of the main pass, applied to the result built so far. */
  function LevelRound(v: VersionStorageInfo, level: int, blacklist: set<nat>, current: set<nat>): (r: set<nat>)
    requires 0 <= level < v.NumLevels()
    ensures current <= r && (r - current) !! blacklist
    ensures v.CompactionScore(level) > COMPACTION_TRIGGER ==> LevelCompactionFiles(v, level) - blacklist <= r
    ensures !(v.CompactionScore(level) > COMPACTION_TRIGGER) ==> r == current
  {
    if !(v.CompactionScore(level) > COMPACTION_TRIGGER) then current
    else
      var withLevel := current + (LevelCompactionFiles(v, level) - blacklist);
      SupplementaryRounds(v, level, blacklist, withLevel, NewScore(v, level, withLevel), MAX_SUPPLEMENTARY_ROUNDS)
  }

  /** The main pass from `level` on, over every level but the last. */
  function SelectionFrom(v: VersionStorageInfo, blacklist: set<nat>, level: nat, current: set<nat>): (r: set<nat>)
    ensures current <= r && (r - current) !! blacklist
    decreases v.NumLevels() - level
  {
    if level + 1 >= v.NumLevels() then current
    else SelectionFrom(v, blacklist, level + 1, LevelRound(v, level, blacklist, current))
  }

  /**
   * Some deeper level `u` (not the last) is over its trigger and every
   * level strictly between `level` and `u` is above the intermediate threshold.
   */
  predicate CascadeTriggered(v: VersionStorageInfo, level: int)
    requires 0 <= level < v.NumLevels()
    ensures CascadeTriggered(v, level) ==> level + 2 < v.NumLevels()
  {
    exists u :: level < u < v.NumLevels() - 1
      && v.CompactionScore(u) > COMPACTION_TRIGGER && IntermediateLevelsHigh(v, u, level)
  }

  /** One level of the cascade pass: a level under its trigger that a cascade reaches. */
  function CascadeRound(v: VersionStorageInfo, blacklist: set<nat>, level: int, current: set<nat>): (r: set<nat>)
    requires 0 <= level < v.NumLevels()
    ensures current <= r && (r - current) !! blacklist
    ensures r != current ==> !(v.CompactionScore(level) > COMPACTION_TRIGGER) && CascadeTriggered(v, level)
  {
    if v.CompactionScore(level) > COMPACTION_TRIGGER then current
    else if CascadeTriggered(v, level) then current + (LevelCompactionFiles(v, level) - blacklist)
    else current
  }

  /** The cascade pass from `level` on, over every level but the last two. */
  function CascadeFrom(v: VersionStorageInfo, blacklist: set<nat>, level: nat, current: set<nat>): (r: set<nat>)
    ensures current <= r && (r - current) !! blacklist
    decreases v.NumLevels() - level
  {
    if level + 2 >= v.NumLevels() then current
    else CascadeFrom(v, blacklist, level + 1, CascadeRound(v, blacklist, level, current))
  }

  /** The result of one prediction call. */
  function PredictedFiles(v: VersionStorageInfo, blacklist: set<nat>): (r: set<nat>)
    requires v.Valid()
    ensures v.CompactionScore(0) > COMPACTION_TRIGGER ==> FileIds(v.LevelFiles(0)) <= r
    ensures !(v.CompactionScore(0) > COMPACTION_TRIGGER) ==> r !! blacklist
  {
    if v.CompactionScore(0) > COMPACTION_TRIGGER then LevelZeroPrediction(v)
    else CascadeFrom(v, blacklist, 0, SelectionFrom(v, blacklist, 0, {}))
  }

  /** Numbers of all files of the snapshot. */
  function AllFileIds(v: VersionStorageInfo): set<nat> {
    set l, f | 0 <= l < v.NumLevels() && f in v.LevelFiles(l) :: f.number
  }

  lemma LevelFileIdsWithin(v: VersionStorageInfo, level: int)
    requires 0 <= level < v.NumLevels()
    ensures FileIds(v.LevelFiles(level)) <= AllFileIds(v)
  {
    forall x | x in FileIds(v.LevelFiles(level))
      ensures x in AllFileIds(v)
    {
      var f :| f in v.LevelFiles(level) && f.number == x;
    }
  }

  /** Numbers of the files of `level` and of the level below it. */
  lemma TwoLevelIdsWithin(v: VersionStorageInfo, level: int)
    requires 0 <= level < v.NumLevels()
    ensures FileIds(v.LevelFiles(level)) + (if level + 1 < v.NumLevels() then FileIds(v.LevelFiles(level + 1)) else {})
         <= AllFileIds(v)
  {
    LevelFileIdsWithin(v, level);
    if level + 1 < v.NumLevels() {
      LevelFileIdsWithin(v, level + 1);
    }
  }

  /** A partial result made only of snapshot file numbers that are not blacklisted. */
  predicate Sound(v: VersionStorageInfo, blacklist: set<nat>, s: set<nat>) {
    s <= AllFileIds(v) && s !! blacklist
  }

  /**
   * The supplementary rounds only add to the result, and what they add are
   * snapshot file numbers that are not blacklisted.
   */
  lemma {:induction false} SupplementaryRoundsSound(v: VersionStorageInfo, level: int, blacklist: set<nat>,
                                                    current: set<nat>, score: real, roundsLeft: nat)
    requires 0 <= level < v.NumLevels()
    requires Sound(v, blacklist, current)
    ensures current <= SupplementaryRounds(v, level, blacklist, current, score, roundsLeft)
    ensures Sound(v, blacklist, SupplementaryRounds(v, level, blacklist, current, score, roundsLeft))
    decreases roundsLeft
  {
    if roundsLeft > 0 && score > COMPACTION_TRIGGER {
      var extra := NextCompactionFilesFrom(v, level, current, blacklist);
      if extra != {} {
        NextCompactionFilesWithinLevels(v, level, current, blacklist);
        TwoLevelIdsWithin(v, level);
        var grown := current + extra;
        SupplementaryRoundsSound(v, level, blacklist, grown, NewScore(v, level, grown), roundsLeft - 1);
      }
    }
  }

  lemma LevelRoundSound(v: VersionStorageInfo, level: int, blacklist: set<nat>, current: set<nat>)
    requires 0 <= level < v.NumLevels()
    requires Sound(v, blacklist, current)
    ensures current <= LevelRound(v, level, blacklist, current)
    ensures Sound(v, blacklist, LevelRound(v, level, blacklist, current))
  {
    if v.CompactionScore(level) > COMPACTION_TRIGGER {
      LevelCompactionFilesWithinLevels(v, level);
      TwoLevelIdsWithin(v, level);
      var withLevel := current + (LevelCompactionFiles(v, level) - blacklist);
      SupplementaryRoundsSound(v, level, blacklist, withLevel, NewScore(v, level, withLevel), MAX_SUPPLEMENTARY_ROUNDS);
    }
  }

  /** The main pass only adds snapshot file numbers that are not blacklisted. */
  lemma {:induction false} SelectionFromSound(v: VersionStorageInfo, blacklist: set<nat>, level: nat, current: set<nat>)
    requires Sound(v, blacklist, current)
    ensures current <= SelectionFrom(v, blacklist, level, current)
    ensures Sound(v, blacklist, SelectionFrom(v, blacklist, level, current))
    decreases v.NumLevels() - level
  {
    if level + 1 < v.NumLevels() {
      LevelRoundSound(v, level, blacklist, current);
      SelectionFromSound(v, blacklist, level + 1, LevelRound(v, level, blacklist, current));
    }
  }

  /** So does the cascade pass. */
  lemma {:induction false} CascadeFromSound(v: VersionStorageInfo, blacklist: set<nat>, level: nat, current: set<nat>)
    requires Sound(v, blacklist, current)
    ensures current <= CascadeFrom(v, blacklist, level, current)
    ensures Sound(v, blacklist, CascadeFrom(v, blacklist, level, current))
    decreases v.NumLevels() - level
  {
    if level + 2 < v.NumLevels() {
      LevelCompactionFilesWithinLevels(v, level);
      TwoLevelIdsWithin(v, level);
      CascadeFromSound(v, blacklist, level + 1, CascadeRound(v, blacklist, level, current));
    }
  }

  /**
   * Every predicted number is the number of a file of the snapshot, and
   * outside the level-0 path no blacklisted number is ever predicted.
   */
  lemma PredictedFilesSound(v: VersionStorageInfo, blacklist: set<nat>)
    requires v.Valid()
    ensures PredictedFiles(v, blacklist) <= AllFileIds(v)
    ensures v.CompactionScore(0) <= COMPACTION_TRIGGER ==> PredictedFiles(v, blacklist) !! blacklist
  {
    if v.CompactionScore(0) > COMPACTION_TRIGGER {
      LevelFileIdsWithin(v, 0);
      if v.NumLevels() > 1 {
        LevelFileIdsWithin(v, 1);
      }
    } else {
      SelectionFromSound(v, blacklist, 0, {});
      CascadeFromSound(v, blacklist, 0, SelectionFrom(v, blacklist, 0, {}));
    }
  }

  /**
   * The main pass from `level` on picks up the files chosen for every level
   * it visits whose score is over the trigger.
   */
  lemma {:induction false} SelectionFromReaches(v: VersionStorageInfo, blacklist: set<nat>, level: nat,
                                                current: set<nat>, target: nat)
    requires level <= target && target + 1 < v.NumLevels()
    requires v.CompactionScore(target) > COMPACTION_TRIGGER
    ensures LevelCompactionFiles(v, target) - blacklist <= SelectionFrom(v, blacklist, level, current)
    decreases target - level
  {
    var next := LevelRound(v, level, blacklist, current);
    assert SelectionFrom(v, blacklist, level, current) == SelectionFrom(v, blacklist, level + 1, next);
    if level < target {
      SelectionFromReaches(v, blacklist, level + 1, next, target);
    } else {
      var chosen := LevelCompactionFiles(v, target) - blacklist;
      var result := SelectionFrom(v, blacklist, level + 1, next);
      assert chosen <= next;
      assert next <= result;
      assert chosen <= result;
    }
  }

  /**
   * The cascade pass from `level` on picks up the files chosen for every
   * level it visits that is under its trigger and that a cascade reaches.
   */
  lemma {:induction false} CascadeFromReaches(v: VersionStorageInfo, blacklist: set<nat>, level: nat,
                                              current: set<nat>, target: nat)
    requires level <= target && target + 2 < v.NumLevels()
    requires !(v.CompactionScore(target) > COMPACTION_TRIGGER) && CascadeTriggered(v, target)
    ensures LevelCompactionFiles(v, target) - blacklist <= CascadeFrom(v, blacklist, level, current)
    decreases target - level
  {
    var next := CascadeRound(v, blacklist, level, current);
    assert CascadeFrom(v, blacklist, level, current) == CascadeFrom(v, blacklist, level + 1, next);
    if level < target {
      CascadeFromReaches(v, blacklist, level + 1, next, target);
    } else {
      assert next <= CascadeFrom(v, blacklist, level + 1, next);
    }
  }

  /**
   * Outside the level-0 path the prediction holds, apart from blacklisted
   * numbers, the files chosen for every level but the last that is over its
   * trigger, and for every level but the last two that is under its trigger
   * and that a cascade reaches.
   */
  lemma PredictedFilesReachesLevels(v: VersionStorageInfo, blacklist: set<nat>, level: nat)
    requires v.Valid() && !(v.CompactionScore(0) > COMPACTION_TRIGGER)
    requires level < v.NumLevels()
    ensures level + 1 < v.NumLevels() && v.CompactionScore(level) > COMPACTION_TRIGGER
            ==> LevelCompactionFiles(v, level) - blacklist <= PredictedFiles(v, blacklist)
    ensures level + 2 < v.NumLevels() && !(v.CompactionScore(level) > COMPACTION_TRIGGER) && CascadeTriggered(v, level)
            ==> LevelCompactionFiles(v, level) - blacklist <= PredictedFiles(v, blacklist)
  {
    var selected := SelectionFrom(v, blacklist, 0, {});
    if level + 1 < v.NumLevels() && v.CompactionScore(level) > COMPACTION_TRIGGER {
      SelectionFromReaches(v, blacklist, 0, {}, level);
    }
    if level + 2 < v.NumLevels() && !(v.CompactionScore(level) > COMPACTION_TRIGGER) && CascadeTriggered(v, level) {
      CascadeFromReaches(v, blacklist, 0, selected, level);
    }
  }

  /**
   * When level 0 is over its trigger the prediction is exactly the
   * level-0 files and the level-1 files overlapping at least one of them.
   */
  lemma LevelZeroPathExact(v: VersionStorageInfo, blacklist: set<nat>, x: nat)
    requires v.Valid() && v.CompactionScore(0) > COMPACTION_TRIGGER
    ensures x in PredictedFiles(v, blacklist) <==>
      || (exists f :: f in v.LevelFiles(0) && f.number == x)
      || (v.NumLevels() > 1
          && exists f :: f in v.LevelFiles(1) && f.number == x
                         && exists g :: g in v.LevelFiles(0) && Overlaps(f.Range(), g.Range()))
  {
  }

  /**
   * On the level-0 path only levels 0 and 1 matter: the blacklist and
   * every deeper level can change without changing the prediction.
   */
  lemma LevelZeroPathSeesOnlyTopLevels(v: VersionStorageInfo, w: VersionStorageInfo, blacklist: set<nat>, blacklist': set<nat>)
    requires v.Valid() && w.Valid()
    requires v.levels[0] == w.levels[0] && v.CompactionScore(0) > COMPACTION_TRIGGER
    requires (v.NumLevels() > 1) == (w.NumLevels() > 1)
    requires v.NumLevels() > 1 ==> v.levels[1] == w.levels[1]
    ensures PredictedFiles(v, blacklist) == PredictedFiles(w, blacklist')
  {
  }

  /**
   * Level 0 over its trigger with files [a,f], [c,h], [k,m] and level 1
   * with files [b,g], [x,z]: the prediction is the three level-0 files
   * and the level-1 file [b,g].
   */
  lemma LevelZeroScenario(blacklist: set<nat>)
    ensures var l0 := [FileMetaData(1, [97], [102], 10), FileMetaData(2, [99], [104], 10), FileMetaData(3, [107], [109], 10)];
            var l1 := [FileMetaData(4, [98], [103], 10), FileMetaData(5, [120], [122], 10)];
            var v := VersionStorageInfo([LevelState(1.5, 30, l0), LevelState(0.5, 20, l1)]);
            PredictedFiles(v, blacklist) == {1, 2, 3, 4}
  {
    var l0 := [FileMetaData(1, [97], [102], 10), FileMetaData(2, [99], [104], 10), FileMetaData(3, [107], [109], 10)];
    var l1 := [FileMetaData(4, [98], [103], 10), FileMetaData(5, [120], [122], 10)];
    ScenarioLevelIds(l0, l1);
    var v := VersionStorageInfo([LevelState(1.5, 30, l0), LevelState(0.5, 20, l1)]);
    assert v.LevelFiles(0) == l0 && v.LevelFiles(1) == l1;
    assert LevelZeroPrediction(v) == FileIds(l0) + OverlapAnyIds(l1, l0);
  }

  /** The file numbers of the scenario's two levels, and which level-1 files overlap level 0. */
  lemma ScenarioLevelIds(l0: seq<FileMetaData>, l1: seq<FileMetaData>)
    requires l0 == [FileMetaData(1, [97], [102], 10), FileMetaData(2, [99], [104], 10), FileMetaData(3, [107], [109], 10)]
    requires l1 == [FileMetaData(4, [98], [103], 10), FileMetaData(5, [120], [122], 10)]
    ensures FileIds(l0) == {1, 2, 3}
    ensures OverlapAnyIds(l1, l0) == {4}
  {
    assert Overlaps(l1[0].Range(), l0[0].Range());
    assert forall g :: g in l0 ==> !Overlaps(l1[1].Range(), g.Range());
  }
}
