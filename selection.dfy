/**
 * The file sets the predictor selects from one snapshot: the level-0
 * path, the per-level selection from the first file of a level, and the
 * supplementary selection from the first file not yet chosen.
 */
module Selection {
  import opened KeyOrder
  import opened KeyRanges
  import opened VersionStorage

  /** Numbers of all files in `fs`. */
  function FileIds(fs: seq<FileMetaData>): set<nat> {
    set f | f in fs :: f.number
  }

  /** Numbers of the files in `fs` whose range overlaps `r`. */
  function OverlapIds(fs: seq<FileMetaData>, r: KeyRange): set<nat> {
    set f | f in fs && Overlaps(r, f.Range()) :: f.number
  }

  /** Some file of `others` overlaps `r`. */
  predicate OverlapsAnyFile(r: KeyRange, others: seq<FileMetaData>) {
    exists g :: g in others && Overlaps(r, g.Range())
  }

  /** Numbers of the files in `fs` that overlap at least one file of `others`. */
  function OverlapAnyIds(fs: seq<FileMetaData>, others: seq<FileMetaData>): set<nat> {
    set f | f in fs && OverlapsAnyFile(f.Range(), others) :: f.number
  }

  lemma FileIdsSnoc(fs: seq<FileMetaData>, i: nat)
    requires i < |fs|
    ensures FileIds(fs[..i + 1]) == FileIds(fs[..i]) + {fs[i].number}
  {
    assert fs[..i + 1] == fs[..i] + [fs[i]];
  }

  lemma OverlapIdsSnoc(fs: seq<FileMetaData>, r: KeyRange, i: nat)
    requires i < |fs|
    ensures OverlapIds(fs[..i + 1], r)
         == OverlapIds(fs[..i], r) + (if Overlaps(r, fs[i].Range()) then {fs[i].number} else {})
  {
    assert fs[..i + 1] == fs[..i] + [fs[i]];
  }

  lemma EligibleOverlapIdsSnoc(fs: seq<FileMetaData>, r: KeyRange, i: nat, excluded: set<nat>, blacklist: set<nat>)
    requires i < |fs|
    ensures OverlapIds(fs[..i + 1], r) - excluded - blacklist
         == (OverlapIds(fs[..i], r) - excluded - blacklist)
            + (if Overlaps(r, fs[i].Range()) && Eligible(fs[i], excluded, blacklist) then {fs[i].number} else {})
  {
    OverlapIdsSnoc(fs, r, i);
  }

  lemma OverlapAnyIdsSnoc(fs: seq<FileMetaData>, others: seq<FileMetaData>, i: nat)
    requires i < |fs|
    ensures OverlapAnyIds(fs[..i + 1], others)
         == OverlapAnyIds(fs[..i], others)
            + (if OverlapsAnyFile(fs[i].Range(), others) then {fs[i].number} else {})
  {
    assert fs[..i + 1] == fs[..i] + [fs[i]];
  }

  /**
   * The level-0 path: every level-0 file, and, when level 1 exists and
   * level 0 is not empty, every level-1 file overlapping some level-0 file.
   */
  function LevelZeroPrediction(v: VersionStorageInfo): (r: set<nat>)
    requires v.Valid()
    ensures FileIds(v.LevelFiles(0)) <= r
    ensures r <= FileIds(v.LevelFiles(0)) + (if v.NumLevels() > 1 then FileIds(v.LevelFiles(1)) else {})
  {
    var l0 := v.LevelFiles(0);
    FileIds(l0) + (if v.NumLevels() > 1 && l0 != [] then OverlapAnyIds(v.LevelFiles(1), l0) else {})
  }

  /** Numbers of the files of `level + 1` overlapping `r`; none if `level` is the last level. */
  function NextLevelOverlapIds(v: VersionStorageInfo, level: int, r: KeyRange): set<nat>
    requires 0 <= level < v.NumLevels()
  {
    if level + 1 < v.NumLevels() then OverlapIds(v.LevelFiles(level + 1), r) else {}
  }

  /**
   * The per-level selection: the first file of the level, the files of
   * the same level that overlap it, and the files of the next level that
   * overlap it.
   */
  function LevelCompactionFiles(v: VersionStorageInfo, level: int): (r: set<nat>)
    requires 0 <= level < v.NumLevels()
    ensures r == {} <==> v.LevelFiles(level) == []
    ensures v.LevelFiles(level) != [] ==> v.LevelFiles(level)[0].number in r
  {
    var fs := v.LevelFiles(level);
    if fs == [] then {}
    else
      var start := fs[0].Range();
      {fs[0].number} + OverlapIds(fs, start) + NextLevelOverlapIds(v, level, start)
  }

  /** A file may start or join a supplementary selection. */
  predicate Eligible(f: FileMetaData, excluded: set<nat>, blacklist: set<nat>) {
    f.number !in excluded && f.number !in blacklist
  }

  /** Index of the first eligible file of `fs`, or `|fs|` if there is none. */
  function FirstEligible(fs: seq<FileMetaData>, excluded: set<nat>, blacklist: set<nat>): (k: nat)
    ensures k <= |fs|
    ensures forall j :: 0 <= j < k ==> !Eligible(fs[j], excluded, blacklist)
    ensures k < |fs| ==> Eligible(fs[k], excluded, blacklist)
  {
    if fs == [] then 0
    else if Eligible(fs[0], excluded, blacklist) then 0
    else 1 + FirstEligible(fs[1..], excluded, blacklist)
  }

  /** The first eligible index is the only index with nothing eligible before it and an eligible file at it. */
  lemma FirstEligibleUnique(fs: seq<FileMetaData>, excluded: set<nat>, blacklist: set<nat>, k: nat)
    requires k <= |fs|
    requires forall j :: 0 <= j < k ==> !Eligible(fs[j], excluded, blacklist)
    requires k < |fs| ==> Eligible(fs[k], excluded, blacklist)
    ensures k == FirstEligible(fs, excluded, blacklist)
  {
  }

  /**
   * The supplementary selection: starting from the first eligible file of
   * the level, that file, the eligible files of the same level overlapping
   * it and the eligible files of the next level overlapping it.
   */
  function NextCompactionFilesFrom(v: VersionStorageInfo, level: int, excluded: set<nat>, blacklist: set<nat>): (r: set<nat>)
    requires 0 <= level < v.NumLevels()
    ensures r !! excluded && r !! blacklist
    ensures r == {} <==> forall f :: f in v.LevelFiles(level) ==> !Eligible(f, excluded, blacklist)
    ensures var k := FirstEligible(v.LevelFiles(level), excluded, blacklist);
            k < |v.LevelFiles(level)| ==> v.LevelFiles(level)[k].number in r
  {
    var fs := v.LevelFiles(level);
    var k := FirstEligible(fs, excluded, blacklist);
    if k == |fs| then {}
    else
      var start := fs[k].Range();
      {fs[k].number}
        + (OverlapIds(fs, start) - excluded - blacklist)
        + (NextLevelOverlapIds(v, level, start) - excluded - blacklist)
  }

  /** The supplementary selection spelled out for a level with an eligible file at `k`. */
  lemma NextCompactionFilesFromAt(v: VersionStorageInfo, level: int, excluded: set<nat>, blacklist: set<nat>, k: nat)
    requires 0 <= level < v.NumLevels()
    requires k == FirstEligible(v.LevelFiles(level), excluded, blacklist) < |v.LevelFiles(level)|
    ensures var fs := v.LevelFiles(level);
            NextCompactionFilesFrom(v, level, excluded, blacklist)
            == {fs[k].number}
               + (OverlapIds(fs, fs[k].Range()) - excluded - blacklist)
               + (NextLevelOverlapIds(v, level, fs[k].Range()) - excluded - blacklist)
  {
  }

  /**
   * The per-level selection holds the start file, the same-level and
   * next-level files that overlap the start file, and nothing else.
   */
  lemma LevelCompactionFilesMembers(v: VersionStorageInfo, level: int, x: nat)
    requires 0 <= level < v.NumLevels()
    requires v.LevelFiles(level) != []
    ensures var fs := v.LevelFiles(level);
            var start := fs[0].Range();
            x in LevelCompactionFiles(v, level) <==>
              || x == fs[0].number
              || (exists f :: f in fs && f.number == x && Overlaps(start, f.Range()))
              || (level + 1 < v.NumLevels()
                  && exists f :: f in v.LevelFiles(level + 1) && f.number == x && Overlaps(start, f.Range()))
  {
  }

  /**
   * The per-level selection is not closed under overlap: a file that
   * overlaps a selected file but not the start file is left out.
   */
  lemma LevelCompactionFilesNotClosed()
    ensures var a := FileMetaData(1, [1], [2], 100);
            var b := FileMetaData(2, [2], [3], 100);
            var c := FileMetaData(3, [3], [4], 100);
            var v := VersionStorageInfo([LevelState(2.0, 300, [a, b, c])]);
            && Overlaps(b.Range(), c.Range())
            && LevelCompactionFiles(v, 0) == {1, 2}
  {
    var a := FileMetaData(1, [1], [2], 100);
    var b := FileMetaData(2, [2], [3], 100);
    var c := FileMetaData(3, [3], [4], 100);
    assert Compare([2], [3]) < 0 && Compare([1], [3]) < 0;
    assert Compare([3], [3]) == 0;
    assert Overlaps(a.Range(), b.Range()) && !Overlaps(a.Range(), c.Range());
    assert OverlapIds([a, b, c], a.Range()) == {1, 2};
  }

  /** The supplementary selection holds only numbers of files of the level and the next level. */
  lemma NextCompactionFilesWithinLevels(v: VersionStorageInfo, level: int, excluded: set<nat>, blacklist: set<nat>)
    requires 0 <= level < v.NumLevels()
    ensures NextCompactionFilesFrom(v, level, excluded, blacklist)
         <= FileIds(v.LevelFiles(level)) + (if level + 1 < v.NumLevels() then FileIds(v.LevelFiles(level + 1)) else {})
  {
  }

  /** So does the per-level selection. */
  lemma LevelCompactionFilesWithinLevels(v: VersionStorageInfo, level: int)
    requires 0 <= level < v.NumLevels()
    ensures LevelCompactionFiles(v, level)
         <= FileIds(v.LevelFiles(level)) + (if level + 1 < v.NumLevels() then FileIds(v.LevelFiles(level + 1)) else {})
  {
  }
}
