# CompactionPredictor, modelled in Dafny

This project models `CompactionPredictor`, the compaction-outcome
predictor of a leveled LSM tree (RocksDB fork). The predictor reads a
read-only snapshot of the version storage: for each level its compaction
score, its byte total and its files in order. Each file has a number, a
user-key range `[smallest, largest]` and a size. From that snapshot it
guesses which file numbers the next compaction round will touch. Across
calls it keeps a ledger from file number to the number of rounds the
file was predicted since its entry was created (a round without the file
leaves the count unchanged), and a blacklist of numbers reported as
wrong predictions.

Layout, one module per file:

- `key_order.dfy` (`KeyOrder`): user keys as byte strings, bytewise
  three-way `Compare` (RocksDB's default comparator), proved to be a total
  order.
- `key_ranges.dfy` (`KeyRanges`): closed key ranges and the overlap test
  the source writes out everywhere. The test is symmetric, and on
  well-formed ranges it holds exactly when the ranges share a key.
- `version_storage.dfy` (`VersionStorage`): the snapshot as an immutable
  datatype (`VersionStorageInfo`, `LevelState`, `FileMetaData`).
- `selection.dfy` (`Selection`): the file sets the predictor selects: the
  level-0 path, the per-level selection from a level's first file, and the
  supplementary selection from the first file that is neither excluded
  nor blacklisted.
- `score.dfy` (`Score`): trigger thresholds (1.0 and 0.8), the check that
  intermediate levels are all above 0.8, and the re-estimated score after
  removing files.
- `prediction.dfy` (`Prediction`): what one call of
  `PredictCompactionFiles` returns, as functions of the snapshot and the
  blacklist, with lemmas about that result.
- `ledger.dfy` (`Ledger`): the ledger update after a round and its
  properties.
- `compaction_predictor.dfy` (`Predictor`): the class
  `CompactionPredictor`. The snapshot is a `const` field. The ledger is a
  `map<nat, nat>` field and the blacklist a `set<nat>` field. Its methods
  follow the source's loops. Each is proved equal to, or characterised
  by, a specification function or expression.

Modelling choices:

- File numbers are `nat`. The source keys its sets by
  `std::to_string(number)`, which is injective, so numbers stand for the
  strings.
- File sizes and level byte totals are unsigned 64-bit values. The
  removed-bytes sum in the score re-estimation wraps modulo 2^64, as the
  `uint64_t` accumulator does.
- Scores are `real`. `CompactionScore(level)` is taken as the score of
  level `level`, as the code indexes it; whether the engine orders these
  values differently is a matter of db/version_set.h, and the model takes
  them as free inputs.
- Sets iterated by the source (`for (file : set)`) are visited in an
  arbitrary order. Each loop body is independent of the order, so the
  result is the same for every order.
- The source duplicates its ledger update and its blacklist filter. Each is
  one method here (`IncrementPredictionCounts`, `EvictStalePredictions`,
  `FilterIncorrectPredicted`). The bodies of the two per-level passes are
  the methods `SelectForLevel` and `SelectForCascade`.

Behaviour of the code that the model keeps as written:

- The header declares `predicted_files_` as a set of strings
  (compaction_predictor.h:56). The code uses it as a counter map, and so
  does the model.
- `incorrect_predicted_files_` and `RemoveIncorrectPredictedFiles` are used
  by the code but not declared in the header. The model has both.
- The level-0 path puts the level-0 file numbers themselves into the
  result (`LevelZeroScenario` shows this on a small example). It does not
  filter the blacklist.
- The per-level selection always starts at the level's first file. It
  takes only files that overlap that file directly, with no closure under
  overlap (`LevelCompactionFilesNotClosed`). No file is skipped as "being
  compacted".
- The code compares user keys with `Slice::compare` (a memcmp, then the
  lengths) in every overlap test, never through a comparator object. Its
  overlap tests therefore ignore a non-bytewise column-family comparator,
  and the model's bytewise `Compare` keeps that.
- `GetNextCompactionFilesFrom` skips its start file by pointer equality;
  the model skips the start file's index.
- The cascade pass gives level `L` a selection when some deeper level
  `u > L` (not the last level) is over 1.0 and every level strictly
  between them is above 0.8. There is no soft level-1 trigger, no priority
  order, no round-robin cursor and no largest-file fallback.

## Model

| member | source | states |
|---|---|---|
| `KeyOrder.Compare` | db/compaction/compaction_predictor.cc:183-184 | key comparison yields -1, 0 or 1, and 0 exactly for equal keys |
| `KeyOrder.CompareAntisymmetric` | db/compaction/compaction_predictor.cc:183-184 | swapping the keys negates the comparison |
| `KeyOrder.CompareTransitive` | db/compaction/compaction_predictor.cc:183-184 | "not after" is transitive, strictly if either step is strict |
| `KeyRanges.OverlapsSymmetric` | db/compaction/compaction_predictor.cc:30-31 | the overlap test gives the same answer with its ranges swapped |
| `KeyRanges.Overlaps` | db/compaction/compaction_predictor.cc:30-31 | the overlap test holds iff neither range starts after the other ends, whichever range is taken first |
| `KeyRanges.OverlapsIffSharedKey` | db/compaction/compaction_predictor.cc:205-206 | on well-formed ranges the overlap test holds iff some key lies in both ranges |
| `Predictor.CompactionPredictor.constructor` | db/compaction/compaction_predictor.h:12-13 | a fresh predictor keeps the given snapshot and has an empty ledger and blacklist |
| `Predictor.CompactionPredictor.CheckLevelScore` | db/compaction/compaction_predictor.h:22-24 | true iff the level's score is above 1.0 |
| `Predictor.CompactionPredictor.Before` | db/compaction/compaction_predictor.cc:272-278 | a range that ends before the file starts does not overlap it, in either argument order |
| `Predictor.CompactionPredictor.KeysInRangeOverlapWithFile` | db/compaction/compaction_predictor.cc:255-269 | true iff some file of the level with that number overlaps the range |
| `Predictor.CompactionPredictor.CheckIntermediateLevelsBetween` | db/compaction/compaction_predictor.cc:151-158 | true iff every level strictly between target and start scores above 0.8; true when start <= target + 1 |
| `Predictor.CompactionPredictor.CheckIntermediateLevels` | db/compaction/compaction_predictor.h:43-45 | the same answer as CheckIntermediateLevelsBetween |
| `Score.IntermediateLevelsHigh` | db/compaction/compaction_predictor.cc:151-158 | with no level strictly between start and target the check holds |
| `Selection.LevelCompactionFiles` | db/compaction/compaction_predictor.cc:160-215 | the per-level selection is empty iff the level is empty, and otherwise holds the first file |
| `Selection.LevelCompactionFilesMembers` | db/compaction/compaction_predictor.cc:173-211 | a number is selected iff it is the first file's, or a same-level or next-level file with it overlaps the first file |
| `Selection.LevelCompactionFilesNotClosed` | db/compaction/compaction_predictor.cc:177-191 | a file overlapping a selected file but not the first file is left out |
| `Selection.LevelCompactionFilesWithinLevels` | db/compaction/compaction_predictor.cc:160-215 | the per-level selection holds only numbers of files of the level and the next level |
| `Predictor.CompactionPredictor.GetLevelCompactionFiles` | db/compaction/compaction_predictor.cc:160-215 | the loops compute exactly the per-level selection |
| `Selection.FirstEligible` | db/compaction/compaction_predictor.cc:296-306 | the index of the first file neither excluded nor blacklisted, or the level length if none |
| `Selection.NextCompactionFilesFrom` | db/compaction/compaction_predictor.cc:287-360 | the supplementary selection avoids the excluded and blacklisted numbers, is empty iff no file of the level is eligible, and holds the first eligible file |
| `Selection.NextCompactionFilesWithinLevels` | db/compaction/compaction_predictor.cc:313-357 | the supplementary selection holds only numbers of files of the level and the next level |
| `Predictor.CompactionPredictor.GetNextCompactionFilesFrom` | db/compaction/compaction_predictor.cc:287-360 | the loops compute exactly the supplementary selection under the current blacklist |
| `Predictor.CompactionPredictor.AddEligibleOverlapping` | db/compaction/compaction_predictor.cc:313-356 | one scan adds exactly the files of the list that overlap the start file and are neither excluded nor blacklisted |
| `Predictor.CompactionPredictor.CalculateNewScore` | db/compaction/compaction_predictor.cc:217-253 | the loop computes exactly the re-estimated score |
| `Score.NewScoreZeroCases` | db/compaction/compaction_predictor.cc:218-238 | zero for level 0 or a missing level, when more bytes are removed than the level holds, and for a zero-byte level |
| `Score.NewScoreMainCase` | db/compaction/compaction_predictor.cc:240-252 | otherwise score x (level bytes - removed) / level bytes |
| `Score.NewScoreWithinScore` | db/compaction/compaction_predictor.cc:236-252 | for a non-negative score the re-estimate lies between 0 and the score |
| `Score.RemovedBytesOnlyLevelFiles` | db/compaction/compaction_predictor.cc:228-233 | removal sets that agree on the level's file numbers remove the same bytes |
| `Score.RemovedBytesNoneRemoved` | db/compaction/compaction_predictor.cc:225-233 | no bytes are removed when no file of the level has a number in the removal set |
| `Score.NewScoreOnlyLevelFiles` | db/compaction/compaction_predictor.cc:228-233 | numbers of files outside the level do not change the re-estimate |
| `Predictor.CompactionPredictor.LevelZeroCandidates` | db/compaction/compaction_predictor.cc:15-41 | the loops compute exactly the level-0 path's selection |
| `Selection.LevelZeroPrediction` | db/compaction/compaction_predictor.cc:15-41 | the level-0 path holds every level-0 file number and otherwise only level-1 file numbers |
| `Predictor.CompactionPredictor.AnyFileOverlaps` | db/compaction/compaction_predictor.cc:27-35 | the scan finds an overlap iff some file of the list overlaps the range |
| `Prediction.LevelZeroPathExact` | db/compaction/compaction_predictor.cc:15-57 | with level 0 over 1.0 a number is predicted iff it is a level-0 file's, or a level-1 file's that overlaps some level-0 file |
| `Prediction.LevelZeroPathSeesOnlyTopLevels` | db/compaction/compaction_predictor.cc:15-57 | on the level-0 path the blacklist and levels 2 and deeper do not affect the prediction |
| `Prediction.LevelZeroScenario` | db/compaction/compaction_predictor.cc:15-41 | on a two-level example the prediction is the three level-0 files plus the one overlapping level-1 file |
| `Predictor.CompactionPredictor.FilterIncorrectPredicted` | db/compaction/compaction_predictor.cc:67-73 | the result is the given numbers minus the blacklist |
| `Predictor.CompactionPredictor.SelectForLevel` | db/compaction/compaction_predictor.cc:62-105 | the main-pass body for one level computes exactly one step of the main pass |
| `Predictor.CompactionPredictor.SelectForCascade` | db/compaction/compaction_predictor.cc:110-128 | the cascade body for one level computes exactly one step of the cascade pass |
| `Prediction.SupplementaryRounds` | db/compaction/compaction_predictor.cc:85-104 | the rounds only add numbers, none of them blacklisted, and add nothing with no round left or the score not over 1.0 |
| `Prediction.LevelRound` | db/compaction/compaction_predictor.cc:62-105 | a level over 1.0 adds its whole per-level selection minus the blacklist, plus only non-blacklisted numbers; any other level adds nothing |
| `Prediction.SelectionFrom` | db/compaction/compaction_predictor.cc:61-106 | the main pass only adds numbers, none of them blacklisted |
| `Prediction.CascadeTriggered` | db/compaction/compaction_predictor.cc:113-114 | a cascade reaches a level only when at least two levels lie below it |
| `Prediction.CascadeRound` | db/compaction/compaction_predictor.cc:110-127 | a cascade step adds only non-blacklisted numbers, and adds any only for a level not over 1.0 that a cascade reaches |
| `Prediction.CascadeFrom` | db/compaction/compaction_predictor.cc:109-129 | the cascade pass only adds numbers, none of them blacklisted |
| `Prediction.PredictedFiles` | db/compaction/compaction_predictor.cc:10-146 | on the level-0 path every level-0 file is predicted; otherwise no blacklisted number is |
| `Prediction.SupplementaryRoundsSound` | db/compaction/compaction_predictor.cc:85-104 | the supplementary rounds only grow the result, and only with non-blacklisted snapshot file numbers |
| `Prediction.LevelRoundSound` | db/compaction/compaction_predictor.cc:62-105 | one level of the main pass only grows the result, and only with non-blacklisted snapshot file numbers |
| `Prediction.SelectionFromSound` | db/compaction/compaction_predictor.cc:61-106 | the main pass only grows the result, and only with non-blacklisted snapshot file numbers |
| `Prediction.CascadeFromSound` | db/compaction/compaction_predictor.cc:109-129 | the cascade pass only grows the result, and only with non-blacklisted snapshot file numbers |
| `Prediction.PredictedFilesSound` | db/compaction/compaction_predictor.cc:10-145 | every predicted number is a snapshot file number; outside the level-0 path none is blacklisted |
| `Prediction.SelectionFromReaches` | db/compaction/compaction_predictor.cc:61-106 | the main pass keeps the per-level selection, minus the blacklist, of every level it visits that is over 1.0 |
| `Prediction.CascadeFromReaches` | db/compaction/compaction_predictor.cc:109-129 | the cascade pass keeps the per-level selection, minus the blacklist, of every level it visits that is not over 1.0 and that a cascade reaches |
| `Prediction.PredictedFilesReachesLevels` | db/compaction/compaction_predictor.cc:61-129 | outside the level-0 path the prediction contains, minus the blacklist, the per-level selection of every level but the last over 1.0 and of every level but the last two that a cascade reaches |
| `Predictor.CompactionPredictor.PredictCompactionFiles` | db/compaction/compaction_predictor.cc:10-146 | returns exactly the prediction for the snapshot and blacklist, and leaves the ledger as one round's update of the old ledger |
| `Predictor.CompactionPredictor.IncrementPredictionCounts` | db/compaction/compaction_predictor.cc:132-134 | every number of the round is counted once more; a new entry starts at 1 |
| `Predictor.CompactionPredictor.EvictStalePredictions` | db/compaction/compaction_predictor.cc:137-143 | exactly the entries counted more than 3 times are erased |
| `Ledger.Incremented` | db/compaction/compaction_predictor.cc:132-134 | the keys become the old keys plus the round; a number of the round gets its count plus one, any other entry keeps its count |
| `Ledger.Evicted` | db/compaction/compaction_predictor.cc:137-143 | exactly the entries with count at most 3 are kept, with their counts |
| `Ledger.AfterRound` | db/compaction/compaction_predictor.cc:131-143 | a round adds no number outside it, leaves every count at most 3, and keeps the count of every number it does not predict |
| `Ledger.AfterRoundEntry` | db/compaction/compaction_predictor.cc:131-143 | a predicted number survives with count + 1 iff that is at most 3; any other entry keeps its count iff that is at most 3 |
| `Ledger.AfterRoundKeepsCountsInRange` | db/compaction/compaction_predictor.cc:131-143 | if every count is in 1..3 before a round, every count is in 1..3 after it |
| `Ledger.EvictedAfterFourRounds` | db/compaction/compaction_predictor.cc:44-55 | a number with no entry that each of four rounds predicts goes 1, 2, 3 and then has no entry |
| `Ledger.RoundOfSingleEntry` | db/compaction/compaction_predictor.cc:131-143 | predicting the only entry, at count c, leaves it at c + 1 if that is at most 3, and empties the ledger otherwise |
| `Ledger.MissedRoundKeepsCount` | db/compaction/compaction_predictor.cc:131-143 | predicted, missed, predicted again: the count is 2, so the count is not reset by a missed round |
| `Ledger.EntryRecreatedAfterEviction` | db/compaction/compaction_predictor.cc:131-143 | an entry at 1 predicted four more times is evicted after the third and recreated at 1 by the fourth |
| `Predictor.CompactionPredictor.RemoveCompactedFiles` | db/compaction/compaction_predictor.cc:281-285 | erases exactly the given numbers from the ledger |
| `Predictor.CompactionPredictor.RemoveIncorrectPredictedFiles` | db/compaction/compaction_predictor.cc:362-371 | erases exactly the given numbers from the ledger and adds them to the blacklist |

The snapshot is a `const` field of the class, so no operation can change
a score, a byte total or a file list. `PredictCompactionFiles` returns a
function of the snapshot and the blacklist, so two calls on the same
snapshot with the same blacklist return the same set. The supplementary
loop runs at most three times: `SupplementaryRounds` decreases its round
budget, which starts at `MAX_SUPPLEMENTARY_ROUNDS` (3). Outside the
level-0 path the prediction is bounded from both sides.
`PredictedFilesSound` bounds it from above: snapshot numbers only, none
blacklisted. `PredictedFilesReachesLevels` bounds it from below: the
selection of every level the two passes trigger, minus the blacklist.

## Left out

- How the engine computes scores, level byte totals and file lists
  (`VersionStorageInfo`): db/version_set.h is not part of this model. They
  are inputs, and the byte total need not equal the sum of file sizes.
- `InternalKey::user_key()`: a file's range is given directly by its user
  keys; the extraction from internal keys is not modelled.
- IEEE-754 double rounding: scores and the re-estimated score are exact
  reals, and 0.8 is the exact decimal rather than the nearest double.
- `std::to_string` formatting: file numbers stand for their strings.
- Out-of-range levels: `GetLevelCompactionFiles`,
  `GetNextCompactionFilesFrom`, `KeysInRangeOverlapWithFile`,
  `CheckLevelScore` and `CheckIntermediateLevelsBetween` (when levels lie
  between its two arguments) require a level
  below `NumLevels()`, because the source indexes the level vectors without
  a bound check there (only `CalculateNewScore` guards, at
  compaction_predictor.cc:218), so an out-of-range call is undefined
  behaviour rather than an error path to model.
- The `level` parameter of `Before`: it is unused in the source and kept
  only in the signature.
- Thread safety: the source has none, and there is no concurrency to model.
