/**
 * Level scores: the trigger thresholds, the check that the levels between
 * two levels are all close to their trigger, and the re-estimated score of
 * a level once some of its files are taken away.
 */
module Score {
  import opened VersionStorage
  import opened Selection

  /** A level whose score is above this is due for compaction. */
  const COMPACTION_TRIGGER: real := 1.0

  /** An intermediate level whose score is above this lets a cascade through. */
  const INTERMEDIATE_TRIGGER: real := 0.8

  /**
   * Every level strictly between `target` and `start` scores above the
   * intermediate threshold.
   */
  predicate IntermediateLevelsHigh(v: VersionStorageInfo, start: int, target: int)
    requires start <= target + 1 || (-1 <= target && start <= v.NumLevels())
    ensures start <= target + 1 ==> IntermediateLevelsHigh(v, start, target)
  {
    forall l :: target < l < start ==> v.CompactionScore(l) > INTERMEDIATE_TRIGGER
  }

  /**
   * Bytes of the files of `fs` whose numbers are in `remove`, summed in
   * file order in an unsigned 64-bit accumulator (so the sum wraps).
   */
  function RemovedBytes(fs: seq<FileMetaData>, remove: set<nat>): Uint64 {
    if fs == [] then 0
    else
      var prefix := RemovedBytes(fs[..|fs| - 1], remove);
      var last := fs[|fs| - 1];
      if last.number in remove then (prefix + last.fileSize) % UINT64_LIMIT else prefix
  }

  /**
   * The level's score after taking away the files in `remove`, scaled by
   * the bytes that remain; zero for level 0, for a level that does not
   * exist and when more bytes are removed than the level holds.
   */
  function NewScore(v: VersionStorageInfo, level: int, remove: set<nat>): real
  {
    if level < 1 || level >= v.NumLevels() then 0.0
    else
      var levelSize := v.NumLevelBytes(level);
      var removed := RemovedBytes(v.LevelFiles(level), remove);
      if removed > levelSize then 0.0
      else
        var scorePerByte := if levelSize > 0 then v.CompactionScore(level) / levelSize as real else 0.0;
        scorePerByte * (levelSize - removed) as real
  }

  /** The cases in which the re-estimated score is zero. */
  lemma NewScoreZeroCases(v: VersionStorageInfo, level: int, remove: set<nat>)
    ensures level < 1 || level >= v.NumLevels() ==> NewScore(v, level, remove) == 0.0
    ensures 1 <= level < v.NumLevels() && RemovedBytes(v.LevelFiles(level), remove) > v.NumLevelBytes(level)
            ==> NewScore(v, level, remove) == 0.0
    ensures 1 <= level < v.NumLevels() && v.NumLevelBytes(level) == 0 ==> NewScore(v, level, remove) == 0.0
  {
  }

  /** Otherwise the score shrinks in proportion to the bytes removed. */
  lemma NewScoreMainCase(v: VersionStorageInfo, level: int, remove: set<nat>)
    requires 1 <= level < v.NumLevels()
    requires v.NumLevelBytes(level) > 0
    requires RemovedBytes(v.LevelFiles(level), remove) <= v.NumLevelBytes(level)
    ensures NewScore(v, level, remove)
            == v.CompactionScore(level)
               * (v.NumLevelBytes(level) as real - RemovedBytes(v.LevelFiles(level), remove) as real)
               / v.NumLevelBytes(level) as real
  {
  }

  /** A non-negative score never grows and never goes negative. */
  lemma NewScoreWithinScore(v: VersionStorageInfo, level: int, remove: set<nat>)
    requires 1 <= level < v.NumLevels()
    requires v.CompactionScore(level) >= 0.0
    ensures 0.0 <= NewScore(v, level, remove) <= v.CompactionScore(level)
  {
    var size := v.NumLevelBytes(level);
    var removed := RemovedBytes(v.LevelFiles(level), remove);
    if removed <= size && size > 0 {
      var s := v.CompactionScore(level);
      var perByte := s / size as real;
      assert perByte >= 0.0;
      assert perByte * size as real == s;
      assert perByte * (size - removed) as real <= perByte * size as real;
    }
  }

  /**
   * Only the level's own files count toward the removed bytes: two removal
   * sets that agree on the numbers of the level's files remove as much.
   */
  lemma {:induction false} RemovedBytesOnlyLevelFiles(fs: seq<FileMetaData>, remove: set<nat>, remove': set<nat>)
    requires forall f :: f in fs ==> (f.number in remove <==> f.number in remove')
    ensures RemovedBytes(fs, remove) == RemovedBytes(fs, remove')
  {
    if fs != [] {
      var prefix := fs[..|fs| - 1];
      assert forall f :: f in prefix ==> f in fs;
      RemovedBytesOnlyLevelFiles(prefix, remove, remove');
    }
  }

  /** Nothing is removed when no file of `fs` has a number in `remove`. */
  lemma {:induction false} RemovedBytesNoneRemoved(fs: seq<FileMetaData>, remove: set<nat>)
    requires forall f :: f in fs ==> f.number !in remove
    ensures RemovedBytes(fs, remove) == 0
  {
    if fs != [] {
      var prefix := fs[..|fs| - 1];
      assert forall f :: f in prefix ==> f in fs;
      RemovedBytesNoneRemoved(prefix, remove);
    }
  }

  /** Hence ids of files outside the level never change the re-estimated score. */
  lemma NewScoreOnlyLevelFiles(v: VersionStorageInfo, level: int, remove: set<nat>)
    requires 0 <= level < v.NumLevels()
    ensures NewScore(v, level, remove) == NewScore(v, level, remove * FileIds(v.LevelFiles(level)))
  {
    RemovedBytesOnlyLevelFiles(v.LevelFiles(level), remove, remove * FileIds(v.LevelFiles(level)));
  }
}
