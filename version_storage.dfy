/**
 * The read-only snapshot the predictor looks at: for each level its
 * compaction score, its byte total and its files in order. How the engine
 * computes these is not part of this model; they are inputs.
 */
module VersionStorage {
  import opened KeyOrder
  import opened KeyRanges

  const UINT64_LIMIT: int := 0x1_0000_0000_0000_0000

  /** An unsigned 64-bit value (file sizes, level byte totals). */
  type Uint64 = x: int | 0 <= x < UINT64_LIMIT

  /** One table file: its number, its user-key range and its size in bytes. */
  datatype FileMetaData = FileMetaData(number: nat, smallest: Key, largest: Key, fileSize: Uint64) {
    function Range(): KeyRange {
      KeyRange(smallest, largest)
    }
  }

  /** What the snapshot says about one level. */
  datatype LevelState = LevelState(compactionScore: real, numLevelBytes: Uint64, files: seq<FileMetaData>)

  /** The whole snapshot; level `i` is `levels[i]`. */
  datatype VersionStorageInfo = VersionStorageInfo(levels: seq<LevelState>) {
    /** The engine always has at least one level. */
    predicate Valid() {
      |levels| >= 1
    }

    function NumLevels(): nat {
      |levels|
    }

    /** The score of level `level`, indexed by level as the predictor's code reads it. */
    function CompactionScore(level: int): real
      requires 0 <= level < NumLevels()
    {
      levels[level].compactionScore
    }

    function NumLevelBytes(level: int): Uint64
      requires 0 <= level < NumLevels()
    {
      levels[level].numLevelBytes
    }

    function LevelFiles(level: int): seq<FileMetaData>
      requires 0 <= level < NumLevels()
    {
      levels[level].files
    }
  }
}
