/**
 * The predictor object: a read-only snapshot, the ledger counting how
 * often each file has been predicted and the blacklist of numbers reported as wrong predictions.
 * Each method follows the loops of db/compaction/compaction_predictor.cc
 * and is proved equal to the matching function of Selection, Score,
 * Prediction or Ledger.
 */
module Predictor {
  import opened KeyOrder
  import opened KeyRanges
  import opened VersionStorage
  import opened Selection
  import opened Score
  import opened Prediction
  import opened Ledger

  class CompactionPredictor {
    /** The snapshot; a constant, so no operation can change it. */
    const vstorage: VersionStorageInfo
    /**
     * File number to the number of rounds it was predicted since its entry
     * was created; a round without it leaves the count unchanged.
     */
    var predictedFiles: map<nat, nat>
    /** File numbers reported as wrong predictions. */
    var incorrectPredictedFiles: set<nat>

    ghost predicate Valid() {
      vstorage.Valid()
    }

    constructor (vstorage: VersionStorageInfo)
      requires vstorage.Valid()
      ensures Valid()
      ensures this.vstorage == vstorage
      ensures predictedFiles == map[] && incorrectPredictedFiles == {}
    {
      this.vstorage := vstorage;
      predictedFiles := map[];
      incorrectPredictedFiles := {};
    }

    /** The level is over its trigger. */
    function CheckLevelScore(level: int): (r: bool)
      requires 0 <= level < vstorage.NumLevels()
      ensures r <==> vstorage.CompactionScore(level) > COMPACTION_TRIGGER
    {
      vstorage.CompactionScore(level) > COMPACTION_TRIGGER
    }

    /** The range ends before the file starts; such ranges do not overlap. */
    function Before(level: int, smallestKey: Key, largestKey: Key, fileSmallest: Key, fileLargest: Key): (r: bool)
      ensures r ==> !Overlaps(KeyRange(smallestKey, largestKey), KeyRange(fileSmallest, fileLargest))
      ensures r ==> !Overlaps(KeyRange(fileSmallest, fileLargest), KeyRange(smallestKey, largestKey))
    {
      OverlapsSymmetric(KeyRange(smallestKey, largestKey), KeyRange(fileSmallest, fileLargest));
      Compare(largestKey, fileSmallest) < 0
    }

    /** Some file of the level with number `fileNumber` overlaps `[smallestKey, largestKey]`. */
    method KeysInRangeOverlapWithFile(level: int, smallestKey: Key, largestKey: Key, fileNumber: nat) returns (r: bool)
      requires 0 <= level < vstorage.NumLevels()
      ensures r <==> exists f :: f in vstorage.LevelFiles(level) && f.number == fileNumber
                                 && Overlaps(KeyRange(smallestKey, largestKey), f.Range())
    {
      var levelFiles := vstorage.LevelFiles(level);
      var range := KeyRange(smallestKey, largestKey);
      var i := 0;
      while i < |levelFiles|
        invariant 0 <= i <= |levelFiles|
        invariant forall j :: 0 <= j < i ==> !(levelFiles[j].number == fileNumber && Overlaps(range, levelFiles[j].Range()))
      {
        var file := levelFiles[i];
        if file.number == fileNumber {
          if !(Compare(smallestKey, file.largest) > 0 || Compare(largestKey, file.smallest) < 0) {
            return true;
          }
        }
        i := i + 1;
      }
      return false;
    }

    /** Every level strictly between `targetLevel` and `startLevel` scores above 0.8. */
    method CheckIntermediateLevelsBetween(startLevel: int, targetLevel: int) returns (r: bool)
      requires startLevel <= targetLevel + 1 || (-1 <= targetLevel && startLevel <= vstorage.NumLevels())
      ensures r <==> IntermediateLevelsHigh(vstorage, startLevel, targetLevel)
      ensures startLevel <= targetLevel + 1 ==> r
    {
      var level := startLevel - 1;
      while level > targetLevel
        invariant level < startLevel
        invariant level == startLevel - 1 || (targetLevel <= level && startLevel <= vstorage.NumLevels())
        invariant forall l :: level < l < startLevel ==> vstorage.CompactionScore(l) > INTERMEDIATE_TRIGGER
      {
        if vstorage.CompactionScore(level) <= INTERMEDIATE_TRIGGER {
          return false;
        }
        level := level - 1;
      }
      return true;
    }

    /** The same check under the header's name. */
    method CheckIntermediateLevels(upperLevel: int, lowerLevel: int) returns (r: bool)
      requires upperLevel <= lowerLevel + 1 || (-1 <= lowerLevel && upperLevel <= vstorage.NumLevels())
      ensures r <==> IntermediateLevelsHigh(vstorage, upperLevel, lowerLevel)
    {
      r := CheckIntermediateLevelsBetween(upperLevel, lowerLevel);
    }

    /** The per-level selection from the level's first file. */
    method GetLevelCompactionFiles(level: int) returns (files: set<nat>)
      requires 0 <= level < vstorage.NumLevels()
      ensures files == LevelCompactionFiles(vstorage, level)
    {
      files := {};
      var levelFiles := vstorage.LevelFiles(level);
      if |levelFiles| == 0 {
        return;
      }
      var startIndex := 0;
      var startFile := levelFiles[startIndex];
      var start := startFile.Range();
      files := files + {startFile.number};
      var i := 0;
      while i < |levelFiles|
        invariant 0 <= i <= |levelFiles|
        invariant files == {startFile.number} + OverlapIds(levelFiles[..i], start)
      {
        OverlapIdsSnoc(levelFiles, start, i);
        if i != startIndex {
          var otherFile := levelFiles[i];
          if !(Compare(startFile.smallest, otherFile.largest) > 0 || Compare(startFile.largest, otherFile.smallest) < 0) {
            files := files + {otherFile.number};
          }
        }
        i := i + 1;
      }
      assert levelFiles[..i] == levelFiles;
      if level + 1 < vstorage.NumLevels() {
        var nextLevelFiles := vstorage.LevelFiles(level + 1);
        ghost var sameLevel := files;
        var j := 0;
        while j < |nextLevelFiles|
          invariant 0 <= j <= |nextLevelFiles|
          invariant files == sameLevel + OverlapIds(nextLevelFiles[..j], start)
        {
          OverlapIdsSnoc(nextLevelFiles, start, j);
          var file := nextLevelFiles[j];
          if !(Compare(startFile.smallest, file.largest) > 0 || Compare(startFile.largest, file.smallest) < 0) {
            files := files + {file.number};
          }
          j := j + 1;
        }
        assert nextLevelFiles[..j] == nextLevelFiles;
      }
    }

    /** The re-estimated score of `level` once the files numbered in `filesToRemove` are gone. */
    method CalculateNewScore(level: int, filesToRemove: set<nat>) returns (score: real)
      ensures score == NewScore(vstorage, level, filesToRemove)
    {
      if level < 1 || level >= vstorage.NumLevels() {
        return 0.0;
      }
      var levelSize := vstorage.NumLevelBytes(level);
      var removedSize: Uint64 := 0;
      var levelFiles := vstorage.LevelFiles(level);
      var i := 0;
      while i < |levelFiles|
        invariant 0 <= i <= |levelFiles|
        invariant removedSize == RemovedBytes(levelFiles[..i], filesToRemove)
      {
        assert levelFiles[..i + 1][..i] == levelFiles[..i];
        var file := levelFiles[i];
        if file.number in filesToRemove {
          removedSize := (removedSize + file.fileSize) % UINT64_LIMIT;
        }
        i := i + 1;
      }
      assert levelFiles[..i] == levelFiles;
      if removedSize > levelSize {
        return 0.0;
      }
      var newLevelSize := levelSize - removedSize;
      var scorePerByte := 0.0;
      if levelSize > 0 {
        scorePerByte := vstorage.CompactionScore(level) / levelSize as real;
      }
      score := scorePerByte * newLevelSize as real;
    }

    /** The supplementary selection from the first file that is neither excluded nor blacklisted. */
    method GetNextCompactionFilesFrom(level: int, excludedFiles: set<nat>) returns (files: set<nat>)
      requires 0 <= level < vstorage.NumLevels()
      ensures files == NextCompactionFilesFrom(vstorage, level, excludedFiles, incorrectPredictedFiles)
    {
      files := {};
      var levelFiles := vstorage.LevelFiles(level);
      if |levelFiles| == 0 {
        return;
      }
      var startIndex := |levelFiles|;
      var k := 0;
      while k < |levelFiles|
        invariant 0 <= k <= |levelFiles|
        invariant forall j :: 0 <= j < k ==> !Eligible(levelFiles[j], excludedFiles, incorrectPredictedFiles)
      {
        var fileNumber := levelFiles[k].number;
        if fileNumber !in excludedFiles && fileNumber !in incorrectPredictedFiles {
          startIndex := k;
          files := {fileNumber};
          break;
        }
        k := k + 1;
      }
      if startIndex == |levelFiles| {
        return;
      }
      FirstEligibleUnique(levelFiles, excludedFiles, incorrectPredictedFiles, startIndex);
      NextCompactionFilesFromAt(vstorage, level, excludedFiles, incorrectPredictedFiles, startIndex);
      var start := levelFiles[startIndex].Range();
      files := AddEligibleOverlapping(levelFiles, start, startIndex, excludedFiles, files);
      if level + 1 < vstorage.NumLevels() {
        files := AddEligibleOverlapping(vstorage.LevelFiles(level + 1), start, -1, excludedFiles, files);
      }
    }

    /**
     * One scan of a supplementary selection: `files` plus the numbers of the
     * files of `fs` that overlap `start` and are neither excluded nor
     * blacklisted; the file at index `skip`, already counted, is passed over.
     */
    method AddEligibleOverlapping(fs: seq<FileMetaData>, start: KeyRange, skip: int, excludedFiles: set<nat>,
                                  files: set<nat>) returns (result: set<nat>)
      requires 0 <= skip < |fs| ==> fs[skip].number in files
      ensures result == files + (OverlapIds(fs, start) - excludedFiles - incorrectPredictedFiles)
    {
      result := files;
      var i := 0;
      while i < |fs|
        invariant 0 <= i <= |fs|
        invariant result == files + (OverlapIds(fs[..i], start) - excludedFiles - incorrectPredictedFiles)
      {
        EligibleOverlapIdsSnoc(fs, start, i, excludedFiles, incorrectPredictedFiles);
        if i != skip {
          var file := fs[i];
          if !(file.number in excludedFiles || file.number in incorrectPredictedFiles) {
            if !(Compare(start.smallest, file.largest) > 0 || Compare(start.largest, file.smallest) < 0) {
              result := result + {file.number};
            }
          }
        }
        i := i + 1;
      }
      assert fs[..i] == fs;
    }

    /** The numbers of `files` that were not reported as wrong predictions. */
    method FilterIncorrectPredicted(files: set<nat>) returns (filtered: set<nat>)
      ensures filtered == files - incorrectPredictedFiles
    {
      filtered := {};
      var remaining := files;
      while remaining != {}
        invariant remaining <= files
        invariant filtered == (files - remaining) - incorrectPredictedFiles
        decreases |remaining|
      {
        var file :| file in remaining;
        if file !in incorrectPredictedFiles {
          filtered := filtered + {file};
        }
        remaining := remaining - {file};
      }
    }

    /** The level-0 path: all level-0 files and the level-1 files overlapping one of them. */
    method LevelZeroCandidates() returns (candidates: set<nat>)
      requires Valid()
      ensures candidates == LevelZeroPrediction(vstorage)
    {
      candidates := {};
      var levelFiles := vstorage.LevelFiles(0);
      var i := 0;
      while i < |levelFiles|
        invariant 0 <= i <= |levelFiles|
        invariant candidates == FileIds(levelFiles[..i])
      {
        FileIdsSnoc(levelFiles, i);
        candidates := candidates + {levelFiles[i].number};
        i := i + 1;
      }
      assert levelFiles[..i] == levelFiles;
      if vstorage.NumLevels() > 1 && |levelFiles| != 0 {
        var l1Files := vstorage.LevelFiles(1);
        ghost var levelZero := candidates;
        var j := 0;
        while j < |l1Files|
          invariant 0 <= j <= |l1Files|
          invariant candidates == levelZero + OverlapAnyIds(l1Files[..j], levelFiles)
        {
          OverlapAnyIdsSnoc(l1Files, levelFiles, j);
          var l1File := l1Files[j];
          var hasOverlap := AnyFileOverlaps(l1File.Range(), levelFiles);
          if hasOverlap {
            candidates := candidates + {l1File.number};
          }
          j := j + 1;
        }
        assert l1Files[..j] == l1Files;
      }
    }

    /** Whether `r` overlaps some file of `others`, scanning them in order and stopping at the first. */
    method AnyFileOverlaps(r: KeyRange, others: seq<FileMetaData>) returns (found: bool)
      ensures found == OverlapsAnyFile(r, others)
    {
      var k := 0;
      while k < |others|
        invariant 0 <= k <= |others|
        invariant forall m :: 0 <= m < k ==> !Overlaps(r, others[m].Range())
      {
        var other := others[k];
        if !(Compare(r.smallest, other.largest) > 0 || Compare(r.largest, other.smallest) < 0) {
          assert other in others && Overlaps(r, other.Range());
          return true;
        }
        k := k + 1;
      }
      forall g | g in others
        ensures !Overlaps(r, g.Range())
      {
        var m :| 0 <= m < |others| && others[m] == g;
      }
      return false;
    }

    /** Counts every number of the round once more in the ledger. */
    method IncrementPredictionCounts(round: set<nat>)
      modifies this`predictedFiles
      ensures predictedFiles == Incremented(old(predictedFiles), round)
    {
      ghost var initial := predictedFiles;
      ghost var counted: set<nat> := {};
      var remaining := round;
      while remaining != {}
        invariant counted !! remaining && counted + remaining == round
        invariant predictedFiles == Incremented(initial, counted)
        decreases remaining
      {
        var file :| file in remaining;
        IncrementedStep(initial, counted, file);
        predictedFiles := predictedFiles[file := Count(predictedFiles, file) + 1];
        counted := counted + {file};
        remaining := remaining - {file};
      }
    }

    /** Drops every ledger entry counted more than three times. */
    method EvictStalePredictions()
      modifies this`predictedFiles
      ensures predictedFiles == Evicted(old(predictedFiles))
    {
      ghost var initial := predictedFiles;
      var remaining := predictedFiles.Keys;
      while remaining != {}
        invariant remaining <= initial.Keys
        invariant forall id :: id in predictedFiles <==> id in initial && (id in remaining || initial[id] <= EVICTION_COUNT)
        invariant forall id :: id in predictedFiles ==> predictedFiles[id] == initial[id]
        decreases |remaining|
      {
        var file :| file in remaining;
        if predictedFiles[file] > EVICTION_COUNT {
          predictedFiles := predictedFiles - {file};
        }
        remaining := remaining - {file};
      }
      assert predictedFiles.Keys == Evicted(initial).Keys;
    }

    /**
     * The body of the main pass for one level: the level's own selection,
     * minus the blacklist, then up to three supplementary selections while
     * the re-estimated score stays over the trigger.
     */
    method SelectForLevel(level: int, predicted: set<nat>) returns (currentPredicted: set<nat>)
      requires 0 <= level < vstorage.NumLevels()
      ensures currentPredicted == LevelRound(vstorage, level, incorrectPredictedFiles, predicted)
    {
      currentPredicted := predicted;
      if !CheckLevelScore(level) {
        return;
      }
      var levelFiles := GetLevelCompactionFiles(level);
      var filteredFiles := FilterIncorrectPredicted(levelFiles);
      currentPredicted := currentPredicted + filteredFiles;
      var newScore := CalculateNewScore(level, currentPredicted);
      if newScore > COMPACTION_TRIGGER {
        var alreadyPredicted := currentPredicted;
        var i := 0;
        while i < MAX_SUPPLEMENTARY_ROUNDS && newScore > COMPACTION_TRIGGER
          invariant 0 <= i <= MAX_SUPPLEMENTARY_ROUNDS
          invariant alreadyPredicted == currentPredicted
          invariant newScore == NewScore(vstorage, level, currentPredicted)
          invariant SupplementaryRounds(vstorage, level, incorrectPredictedFiles, currentPredicted, newScore, MAX_SUPPLEMENTARY_ROUNDS - i)
                 == LevelRound(vstorage, level, incorrectPredictedFiles, predicted)
        {
          var additionalFiles := GetNextCompactionFilesFrom(level, alreadyPredicted);
          if additionalFiles == {} {
            break;
          }
          currentPredicted := currentPredicted + additionalFiles;
          alreadyPredicted := alreadyPredicted + additionalFiles;
          newScore := CalculateNewScore(level, currentPredicted);
          i := i + 1;
        }
      }
    }

    /**
     * The body of the cascade pass for one level: a level under its trigger
     * takes its own selection, minus the blacklist, when some deeper level
     * cascades into it.
     */
    method SelectForCascade(level: int, predicted: set<nat>) returns (currentPredicted: set<nat>)
      requires 0 <= level < vstorage.NumLevels()
      ensures currentPredicted == CascadeRound(vstorage, incorrectPredictedFiles, level, predicted)
    {
      currentPredicted := predicted;
      if CheckLevelScore(level) {
        return;
      }
      var upperLevel := level + 1;
      while upperLevel < vstorage.NumLevels() - 1
        invariant level + 1 <= upperLevel
        invariant upperLevel <= vstorage.NumLevels() - 1 || upperLevel == level + 1
        invariant currentPredicted == predicted
        invariant forall u :: level < u < upperLevel ==>
                    !(vstorage.CompactionScore(u) > COMPACTION_TRIGGER && IntermediateLevelsHigh(vstorage, u, level))
      {
        var cascades := false;
        if CheckLevelScore(upperLevel) {
          cascades := CheckIntermediateLevelsBetween(upperLevel, level);
        }
        if cascades {
          var levelFiles := GetLevelCompactionFiles(level);
          var filteredFiles := FilterIncorrectPredicted(levelFiles);
          currentPredicted := currentPredicted + filteredFiles;
          return;
        }
        upperLevel := upperLevel + 1;
      }
    }

    /**
     * One prediction round: returns the predicted file numbers and records
     * them in the ledger.
     */
    method PredictCompactionFiles() returns (currentPredicted: set<nat>)
      requires Valid()
      modifies this`predictedFiles
      ensures currentPredicted == PredictedFiles(vstorage, incorrectPredictedFiles)
      ensures predictedFiles == AfterRound(old(predictedFiles), currentPredicted)
    {
      currentPredicted := {};
      if vstorage.CompactionScore(0) > COMPACTION_TRIGGER {
        currentPredicted := LevelZeroCandidates();
        IncrementPredictionCounts(currentPredicted);
        EvictStalePredictions();
        return;
      }

      var level := 0;
      while level < vstorage.NumLevels() - 1
        invariant 0 <= level <= vstorage.NumLevels() - 1
        invariant predictedFiles == old(predictedFiles)
        invariant SelectionFrom(vstorage, incorrectPredictedFiles, level, currentPredicted)
               == SelectionFrom(vstorage, incorrectPredictedFiles, 0, {})
      {
        currentPredicted := SelectForLevel(level, currentPredicted);
        level := level + 1;
      }
      ghost var selected := currentPredicted;

      level := 0;
      while level < vstorage.NumLevels() - 2
        invariant 0 <= level
        invariant level <= vstorage.NumLevels() - 2 || level == 0
        invariant predictedFiles == old(predictedFiles)
        invariant CascadeFrom(vstorage, incorrectPredictedFiles, level, currentPredicted)
               == CascadeFrom(vstorage, incorrectPredictedFiles, 0, selected)
      {
        currentPredicted := SelectForCascade(level, currentPredicted);
        level := level + 1;
      }

      IncrementPredictionCounts(currentPredicted);
      EvictStalePredictions();
    }

    /** Forgets the ledger entries of files the engine has compacted. */
    method RemoveCompactedFiles(compactedFiles: set<nat>)
      modifies this`predictedFiles
      ensures predictedFiles == old(predictedFiles) - compactedFiles
    {
      var remaining := compactedFiles;
      while remaining != {}
        invariant remaining <= compactedFiles
        invariant predictedFiles == old(predictedFiles) - (compactedFiles - remaining)
        decreases |remaining|
      {
        var file :| file in remaining;
        predictedFiles := predictedFiles - {file};
        remaining := remaining - {file};
      }
    }

    /**
     * Forgets the ledger entries of wrongly predicted files and blacklists
     * their numbers for later rounds.
     */
    method RemoveIncorrectPredictedFiles(incorrectFiles: set<nat>)
      modifies this`predictedFiles, this`incorrectPredictedFiles
      ensures predictedFiles == old(predictedFiles) - incorrectFiles
      ensures incorrectPredictedFiles == old(incorrectPredictedFiles) + incorrectFiles
    {
      var remaining := incorrectFiles;
      while remaining != {}
        invariant remaining <= incorrectFiles
        invariant predictedFiles == old(predictedFiles) - (incorrectFiles - remaining)
        invariant incorrectPredictedFiles == old(incorrectPredictedFiles)
        decreases |remaining|
      {
        var file :| file in remaining;
        predictedFiles := predictedFiles - {file};
        remaining := remaining - {file};
      }
      incorrectPredictedFiles := incorrectPredictedFiles + incorrectFiles;
    }
  }
}
