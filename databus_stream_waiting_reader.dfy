/**
 * The waiting variant of the stream reader over a merged or local stream
 * directory.  It accepts every listed file, and at the end of a file it
 * moves on to the next file of the map, else rebuilds the map from the
 * minute directory of the current file and tries again, else waits for a
 * file above the current one to be created.
 *
 * The methods below are the overrides this variant adds to the base
 * reader; they act on a `DatabusStreamReader` object's state.
 */
module DatabusStreamWaitingReaders {

  import opened Wrappers
  import opened StreamFiles
  import opened FileMaps
  import opened FileSystems
  import opened DatabusStreamReaders

  /** The date of the minute directory a file of the map lies in. */
  function DirDate(streamDir: string, e: Entry): nat
    requires Placed(streamDir, e)
  {
    DateFromStreamDir(streamDir, e.path).value
  }

  /** The file system as last seen after `used` snapshots of `later` have been taken. */
  function Snapshot(fs: FileSystem, later: seq<FileSystem>, used: nat): FileSystem
    requires used <= |later|
  {
    if used == 0 then fs else later[used - 1]
  }

  /** What `readLine` does at the end of the current file. */
  datatype WaitingStep = NextInMap | NextAfterRebuild | GiveUp | NextHigher | WaitForCreation

  /**
   * The branch `readLine` takes at the end of the file with key `cur`: `m`
   * is the map before, `rebuilt` the map after the rebuild from the date of
   * the current file's directory.
   */
  function WaitingEndOfFile(m: seq<Entry>, rebuilt: seq<Entry>, cur: FileKey, noNewFiles: bool): WaitingStep {
    if Successor(m, cur).Some? then NextInMap
    else if Successor(rebuilt, cur).Some? then NextAfterRebuild
    else if noNewFiles then GiveUp
    else if Higher(rebuilt, cur).Some? then NextHigher
    else WaitForCreation
  }

  /** `readLine` returns `null` only in the `noNewFiles` mode. */
  lemma GivesUpOnlyWithoutNewFiles(m: seq<Entry>, rebuilt: seq<Entry>, cur: FileKey, noNewFiles: bool)
    requires WaitingEndOfFile(m, rebuilt, cur, noNewFiles) == GiveUp
    ensures noNewFiles && Successor(m, cur).None? && Successor(rebuilt, cur).None?
  {
  }

  /**
   * While the current file is still listed after the rebuild, the reader
   * never jumps to a next higher file: either a next file exists, or there
   * is nothing above the current one and it gives up or waits.
   */
  lemma NoJumpWhileListed(m: seq<Entry>, rebuilt: seq<Entry>, cur: FileKey, noNewFiles: bool)
    requires Sorted(rebuilt) && HasKey(rebuilt, cur)
    ensures WaitingEndOfFile(m, rebuilt, cur, noNewFiles) != NextHigher
    ensures WaitingEndOfFile(m, rebuilt, cur, noNewFiles) == WaitForCreation
            ==> !noNewFiles && IndexOf(rebuilt, cur).value == |rebuilt| - 1
  {
    SuccessorIsHigher(rebuilt, cur);
  }

  /** Every file the reader moves to at end of file is the least file above the current one in the map it uses. */
  lemma MovesToLeastAbove(m: seq<Entry>, rebuilt: seq<Entry>, cur: FileKey, noNewFiles: bool)
    requires Sorted(m) && Sorted(rebuilt)
    ensures WaitingEndOfFile(m, rebuilt, cur, noNewFiles) == NextInMap ==> Successor(m, cur) == Higher(m, cur)
    ensures WaitingEndOfFile(m, rebuilt, cur, noNewFiles) == NextAfterRebuild
            ==> Successor(rebuilt, cur) == Higher(rebuilt, cur)
  {
    if Successor(m, cur).Some? {
      SuccessorIsHigher(m, cur);
    } else if Successor(rebuilt, cur).Some? {
      SuccessorIsHigher(rebuilt, cur);
    }
  }

  /**
   * `waitForNextFileCreation(file)`: until the reader is closed or a file
   * above `k` is found and opened, sleep and rebuild the map.  Each sleep is
   * followed by the next snapshot of `later`; `used` counts the snapshots
   * taken.  When the snapshots run out first the reader would still be
   * waiting.
   */
  method WaitForNextFileCreation(r: DatabusStreamReader, k: FileKey, fs: FileSystem, later: seq<FileSystem>)
    returns (used: nat, found: bool)
    requires r.Valid() && r.InStep() && r.buildTimestamp.Some?
    modifies r
    ensures r.Valid() && r.InStep() && used <= |later|
    ensures r.closed == old(r.closed) && r.buildTimestamp == old(r.buildTimestamp)
    ensures found ==> Higher(r.fileMap, k).Some? && r.currentFile == Some(r.fileMap[Higher(r.fileMap, k).value])
                      && r.currentLineNum == 0
                      && r.recordReader == OpenedAt(Snapshot(fs, later, used), r.currentFile.value, 0)
    ensures !found ==> r.closed || used == |later|
    ensures !found ==> r.currentFile == old(r.currentFile) && r.currentLineNum == old(r.currentLineNum)
                       && r.recordReader == old(r.recordReader)
    ensures used == 0 ==> r.fileMap == old(r.fileMap)
  {
    used := 0;
    found := false;
    if !r.closed {
      found := r.SetNextHigherAndOpen(k, fs);
    }
    while !r.closed && !found && used < |later|
      invariant r.Valid() && r.InStep() && used <= |later|
      invariant r.closed == old(r.closed) && r.buildTimestamp == old(r.buildTimestamp)
      invariant found ==> Higher(r.fileMap, k).Some? && r.currentFile == Some(r.fileMap[Higher(r.fileMap, k).value])
                          && r.currentLineNum == 0
                          && r.recordReader == OpenedAt(Snapshot(fs, later, used), r.currentFile.value, 0)
      invariant !found ==> r.currentFile == old(r.currentFile) && r.currentLineNum == old(r.currentLineNum)
                           && r.recordReader == old(r.recordReader)
      invariant used == 0 ==> r.fileMap == old(r.fileMap)
      decreases |later| - used
    {
      // sleep for the wait time, then rebuild and look again
      r.Build(later[used]);
      used := used + 1;
      found := r.SetNextHigherAndOpen(k, later[used - 1]);
    }
  }

  /**
   * `startFromNextHigher(file)`: move to the least file above `k` if the map
   * has one; otherwise return in the `noNewFiles` mode, and wait for one to
   * be created in the normal mode.
   */
  method StartFromNextHigher(r: DatabusStreamReader, k: FileKey, fs: FileSystem, later: seq<FileSystem>)
    returns (used: nat, found: bool)
    requires r.Valid() && r.InStep() && r.buildTimestamp.Some?
    modifies r
    ensures r.Valid() && r.InStep() && used <= |later|
    ensures r.closed == old(r.closed) && r.buildTimestamp == old(r.buildTimestamp)
    ensures Higher(old(r.fileMap), k).Some? ==> found && used == 0 && r.fileMap == old(r.fileMap)
    ensures found ==> Higher(r.fileMap, k).Some? && r.currentFile == Some(r.fileMap[Higher(r.fileMap, k).value])
                      && r.currentLineNum == 0
                      && r.recordReader == OpenedAt(Snapshot(fs, later, used), r.currentFile.value, 0)
    ensures !found && r.noNewFiles ==> used == 0 && r.fileMap == old(r.fileMap)
    ensures !found ==> r.currentFile == old(r.currentFile) && r.currentLineNum == old(r.currentLineNum)
                       && r.recordReader == old(r.recordReader)
    ensures !found && !r.noNewFiles ==> r.closed || used == |later|
    ensures used == 0 ==> r.fileMap == old(r.fileMap)
  {
    used := 0;
    found := r.SetNextHigherAndOpen(k, fs);
    if !found {
      if r.noNewFiles {
        return;
      }
      used, found := WaitForNextFileCreation(r, k, fs, later);
    }
  }

  /**
   * The end-of-file part of `readLine`: try the next file of the map; else
   * rebuild from the date of the current file's directory and try again;
   * else give up in the `noNewFiles` mode, or start from the next higher
   * file, waiting for one if need be.
   */
  method AtEndOfFile(r: DatabusStreamReader, fs: FileSystem, later: seq<FileSystem>)
    returns (giveUp: bool, used: nat)
    requires r.Valid() && r.InStep() && r.currentFile.Some?
    modifies r
    ensures r.Valid() && r.InStep() && r.currentFile.Some? && used <= |later|
    ensures r.closed == old(r.closed)
    ensures var cur := old(r.currentFile).value;
            var rebuilt := BuiltListing(fs, r.streamDir, r.streamName, DirDate(r.streamDir, cur));
            var step := WaitingEndOfFile(old(r.fileMap), rebuilt, cur.key, r.noNewFiles);
            && (giveUp <==> step == GiveUp)
            && (step == NextInMap ==> r.fileMap == old(r.fileMap) && r.currentLineNum == 0
                                      && r.currentFile == Some(r.fileMap[Successor(r.fileMap, cur.key).value])
                                      && r.recordReader == OpenedAt(fs, r.currentFile.value, 0))
            && (step == NextAfterRebuild ==> r.fileMap == rebuilt && r.currentLineNum == 0
                                             && r.currentFile == Some(rebuilt[Successor(rebuilt, cur.key).value])
                                             && r.recordReader == OpenedAt(fs, r.currentFile.value, 0))
            && (step == GiveUp ==> r.fileMap == rebuilt && r.currentFile == old(r.currentFile)
                                   && r.currentLineNum == old(r.currentLineNum) && r.recordReader == old(r.recordReader))
            && (step == NextHigher ==> r.fileMap == rebuilt && r.currentLineNum == 0
                                       && r.currentFile == Some(rebuilt[Higher(rebuilt, cur.key).value])
                                       && r.recordReader == OpenedAt(fs, r.currentFile.value, 0))
            && (step == WaitForCreation ==>
                  (r.currentFile == old(r.currentFile) && r.currentLineNum == old(r.currentLineNum)
                   && r.recordReader == old(r.recordReader) && (r.closed || used == |later|))
                  || (Higher(r.fileMap, cur.key).Some? && r.currentLineNum == 0
                      && r.currentFile == Some(r.fileMap[Higher(r.fileMap, cur.key).value])
                      && r.recordReader == OpenedAt(Snapshot(fs, later, used), r.currentFile.value, 0)))
    ensures giveUp ==> r.noNewFiles
  {
    used := 0;
    giveUp := false;
    ghost var cur := r.currentFile.value;
    var moved := r.NextFile(fs);
    if !moved {
      var date := DateFromStreamDir(r.streamDir, r.currentFile.value.path);
      var built := r.BuildFrom(date, fs);
      moved := r.NextFile(fs);
      if !moved {
        if r.noNewFiles {
          return true, 0;
        }
        var found;
        used, found := StartFromNextHigher(r, r.currentFile.value.key, fs, later);
      }
    }
  }

  /**
   * One turn of the loop of `readLine()` at the end of a file: what
   * `AtEndOfFile` does with the snapshot `fs` (and `later` while it waits),
   * then a read from the file it leaves open.
   */
  method NextLine(r: DatabusStreamReader, fs: FileSystem, later: seq<FileSystem>)
    returns (giveUp: bool, used: nat, line: Option<string>)
    requires r.Valid() && r.InStep() && r.currentFile.Some?
    modifies r
    ensures r.Valid() && r.InStep() && r.currentFile.Some? && used <= |later|
    ensures giveUp ==> r.noNewFiles
    ensures line.Some? ==> r.recordReader.Some? && r.recordReader.value.path == r.currentFile.value.path
                           && 0 < r.currentLineNum <= |r.recordReader.value.lines|
                           && line.value == r.recordReader.value.lines[r.currentLineNum - 1]
  {
    line := None;
    giveUp, used := AtEndOfFile(r, fs, later);
    if !giveUp {
      line := r.ReadFromStream();
    }
  }

  /**
   * `readLine()`: the next line of the stream.  At each end of file it takes
   * the next snapshot of `envs` and does what `AtEndOfFile` says; it returns
   * `null` only when it gives up in the `noNewFiles` mode.  A returned line
   * is the line of the current file just counted by `currentLineNum`.
   */
  method ReadLine(r: DatabusStreamReader, envs: seq<FileSystem>) returns (res: ReadResult)
    requires r.Valid() && r.InStep() && r.currentFile.Some?
    modifies r
    ensures r.Valid() && r.InStep() && r.currentFile.Some?
    ensures res.Null? ==> r.noNewFiles
    ensures res.Line? ==> r.recordReader.Some? && r.recordReader.value.path == r.currentFile.value.path
                          && 0 < r.currentLineNum <= |r.recordReader.value.lines|
                          && res.line == r.recordReader.value.lines[r.currentLineNum - 1]
  {
    var line := r.ReadFromStream();
    var i := 0;
    while line.None?
      invariant 0 <= i <= |envs|
      invariant r.Valid() && r.InStep() && r.currentFile.Some?
      invariant line.Some? ==> r.recordReader.Some? && 0 < r.currentLineNum <= |r.recordReader.value.lines|
                               && line.value == r.recordReader.value.lines[r.currentLineNum - 1]
      decreases |envs| - i
    {
      if i == |envs| {
        return Pending;
      }
      var giveUp, used;
      giveUp, used, line := NextLine(r, envs[i], envs[i + 1..]);
      i := i + 1 + used;
      if giveUp {
        return Null;
      }
    }
    res := Line(line.value);
  }
}
