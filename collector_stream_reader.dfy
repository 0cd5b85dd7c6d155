/**
 * The reader that tails one collector's directory of a stream.  It keeps
 * the state of the stream reader it extends (file map, current file, line
 * number, open stream) plus the byte offset of the last line read and
 * whether the current stream has been opened before.
 */
module CollectorStreamReaders {

  import opened Wrappers
  import opened Strings
  import opened StreamFiles
  import opened FileMaps
  import opened FileSystems

  /** `addPath` for one listed name: a name the filter accepts and that is a collector file is put into the map. */
  function AddName(m: seq<Entry>, dir: string, name: string): (r: seq<Entry>)
    requires Sorted(m)
    ensures Sorted(r)
  {
    match ParseCollectorFile(name)
    case None => m
    case Some(f) => if CollectorAccept(name) then Add(m, Entry(CollectorKey(f), name, Join(dir, name))) else m
  }

  /** `addPath` for each listed name in turn. */
  function AddNames(m: seq<Entry>, dir: string, names: seq<string>): (r: seq<Entry>)
    requires Sorted(m)
    ensures Sorted(r)
    decreases |names|
  {
    if |names| == 0 then m else AddNames(AddName(m, dir, names[0]), dir, names[1..])
  }

  /** A listed name that contributes the key `k`. */
  predicate Contributes(name: string, k: FileKey) {
    CollectorAccept(name) && ParseCollectorFile(name) == Some(k.file) && k.collector == ""
  }

  /** The map that `build()` leaves: cleared, then filled by `buildList`; a missing or empty directory leaves it empty. */
  function BuiltMap(fs: FileSystem, dir: string): (r: seq<Entry>)
    ensures Sorted(r)
    ensures dir !in fs.dirs ==> r == []
  {
    match ListStatus(fs, dir)
    case None => []
    case Some(names) => AddNames([], dir, names)
  }

  lemma {:induction false} AddNamesKeys(m: seq<Entry>, dir: string, names: seq<string>, k: FileKey)
    requires Sorted(m)
    ensures HasKey(AddNames(m, dir, names), k)
            <==> HasKey(m, k) || exists i :: 0 <= i < |names| && Contributes(names[i], k)
    decreases |names|
  {
    if |names| > 0 {
      AddNameKeys(m, dir, names[0], k);
      AddNamesKeys(AddName(m, dir, names[0]), dir, names[1..], k);
      ContributesSplit(names, k);
    }
  }

  /** One listed name adds the key `k` exactly when it contributes it. */
  lemma AddNameKeys(m: seq<Entry>, dir: string, name: string, k: FileKey)
    requires Sorted(m)
    ensures HasKey(AddName(m, dir, name), k) <==> HasKey(m, k) || Contributes(name, k)
  {
    match ParseCollectorFile(name)
    case None =>
    case Some(f) =>
      if CollectorAccept(name) { HasKeyAdd(m, Entry(CollectorKey(f), name, Join(dir, name)), k); }
  }

  /** Some name of a non-empty listing contributes `k` exactly when the first or one of the rest does. */
  lemma ContributesSplit(names: seq<string>, k: FileKey)
    requires |names| > 0
    ensures (exists i :: 0 <= i < |names| && Contributes(names[i], k))
            <==> Contributes(names[0], k) || exists i :: 0 <= i < |names[1..]| && Contributes(names[1..][i], k)
  {
    if exists i :: 0 <= i < |names| && Contributes(names[i], k) {
      var i :| 0 <= i < |names| && Contributes(names[i], k);
      if i > 0 { assert names[1..][i - 1] == names[i]; }
    }
    if exists i :: 0 <= i < |names[1..]| && Contributes(names[1..][i], k) {
      var i :| 0 <= i < |names[1..]| && Contributes(names[1..][i], k);
      assert names[i + 1] == names[1..][i];
    }
  }

  /** After a build, the map holds exactly the accepted collector files of the directory. */
  lemma BuiltMapKeys(fs: FileSystem, dir: string, k: FileKey)
    ensures HasKey(BuiltMap(fs, dir), k)
            <==> dir in fs.dirs && exists i :: 0 <= i < |fs.dirs[dir]| && Contributes(fs.dirs[dir][i], k)
  {
    if dir in fs.dirs { AddNamesKeys([], dir, fs.dirs[dir], k); }
  }

  /** What `readLine` does when the open file is exhausted and the map has been rebuilt. */
  datatype EndOfFileAction = ReadNextFile | NoNewFiles | WaitAndReopen | ReadNextHigher | MovedToLocal

  /** The branch `readLine` takes at end of file, for the rebuilt map `m` and current file `cur`. */
  function EndOfFile(m: seq<Entry>, cur: FileKey, noNewFiles: bool): EndOfFileAction {
    if Successor(m, cur).Some? then ReadNextFile
    else if noNewFiles then NoNewFiles
    else if HasKey(m, cur) then WaitAndReopen
    else if IsWithin(m, cur) then ReadNextHigher
    else MovedToLocal
  }

  /** The two branches in which `readLine` returns `null`. */
  predicate GivesUp(a: EndOfFileAction) {
    a == NoNewFiles || a == MovedToLocal
  }

  /** The next file read is the least file above the current one. */
  lemma NextFileIsNextHigher(m: seq<Entry>, cur: FileKey, noNewFiles: bool)
    requires Sorted(m)
    requires EndOfFile(m, cur, noNewFiles) == ReadNextFile
    ensures Successor(m, cur) == Higher(m, cur)
  {
    SuccessorIsHigher(m, cur);
  }

  /** The reader waits for a flush only on the newest file of the directory. */
  lemma WaitsOnlyOnNewestFile(m: seq<Entry>, cur: FileKey, noNewFiles: bool)
    requires EndOfFile(m, cur, noNewFiles) == WaitAndReopen
    ensures !noNewFiles && |m| > 0 && m[|m| - 1].key == cur
  {
  }

  /** When the current file has gone but lies within the map's range, a next higher file exists. */
  lemma NextHigherExists(m: seq<Entry>, cur: FileKey, noNewFiles: bool)
    requires EndOfFile(m, cur, noNewFiles) == ReadNextHigher
    ensures Higher(m, cur).Some?
  {
    WithinMissingHasHigher(m, cur);
  }

  /** The reader gives up on the collector directory only when the current file has gone and nothing at or after it remains. */
  lemma MovedOnlyPastTheEnd(m: seq<Entry>, cur: FileKey, noNewFiles: bool)
    requires Sorted(m)
    requires EndOfFile(m, cur, noNewFiles) == MovedToLocal
    ensures !HasKey(m, cur) && !noNewFiles
    ensures |m| == 0 || KeyBefore(cur, m[0].key) || KeyBefore(m[|m| - 1].key, cur)
  {
    if |m| > 0 && !KeyBefore(cur, m[0].key) {
      KeyBeforeTotal(cur, m[0].key);
    }
  }

  /** The stream after reopening a file: a seek to the recorded offset on a reopen, a skip of the lines read on the first open. */
  function SkipOldData(s: Stream, sameStream: bool, currentOffset: nat, currentLineNum: nat): Stream {
    if sameStream then Seek(s, currentOffset) else Skip(s, currentLineNum)
  }

  /** The stream `fs` gives for file `e`, positioned past what was read of it (none where the file is missing). */
  function Reopened(fs: FileSystem, e: Entry, sameStream: bool, currentOffset: nat, currentLineNum: nat): Option<Stream> {
    match Open(fs, e.path)
    case None => None
    case Some(s) => Some(SkipOldData(s, sameStream, currentOffset, currentLineNum))
  }

  /**
   * A reopen positions the stream by the recorded offset alone: with the
   * offset still 0, a file resumed at line `lineNum` is read again from its
   * start whatever the line count.
   */
  lemma ReopenIgnoresLineCount(s: Stream, lineNum: nat)
    requires s.pos == 0 && 0 < lineNum <= |s.lines|
    ensures SkipOldData(s, false, 0, lineNum).pos == lineNum
    ensures SkipOldData(s, true, 0, lineNum).pos == 0
  {
  }

  class CollectorStreamReader {

    const streamDir: string
    const noNewFiles: bool

    var fileMap: seq<Entry>
    var currentFile: Option<Entry>
    var currentLineNum: nat
    var currentOffset: nat
    var sameStream: bool
    var inStream: Option<Stream>

    ghost predicate Valid()
      reads this
    {
      Sorted(fileMap)
    }

    /** The open stream, if any, reads the current file. */
    ghost predicate OnCurrentFile()
      reads this
    {
      inStream.Some? ==> currentFile.Some? && inStream.value.path == currentFile.value.path
    }

    constructor (streamDir: string, noNewFiles: bool)
      ensures this.streamDir == streamDir && this.noNewFiles == noNewFiles
      ensures fileMap == [] && currentFile.None? && currentLineNum == 0
      ensures currentOffset == 0 && !sameStream && inStream.None?
      ensures Valid() && OnCurrentFile()
    {
      this.streamDir := streamDir;
      this.noNewFiles := noNewFiles;
      fileMap := [];
      currentFile := None;
      currentLineNum := 0;
      currentOffset := 0;
      sameStream := false;
      inStream := None;
    }

    /** `initCurrentFile`: forget the current file; the next open of a file skips lines rather than seeking. */
    method InitCurrentFile()
      modifies this
      ensures currentFile.None? && currentLineNum == 0 && !sameStream
      ensures fileMap == old(fileMap) && currentOffset == old(currentOffset) && inStream == old(inStream)
    {
      currentFile := None;
      currentLineNum := 0;
      sameStream := false;
    }

    /** Make `e` the current file with `lineNum` lines already read (`setCurrentFile` of the base reader). */
    method SetCurrentFile(e: Entry, lineNum: nat)
      modifies this
      ensures currentFile == Some(e) && currentLineNum == lineNum
      ensures fileMap == old(fileMap) && currentOffset == old(currentOffset)
      ensures sameStream == old(sameStream) && inStream == old(inStream)
    {
      currentFile := Some(e);
      currentLineNum := lineNum;
    }

    /** `resetCurrentFileSettings`: a new file is read from its first line and offset 0. */
    method ResetCurrentFileSettings()
      modifies this
      ensures currentLineNum == 0 && currentOffset == 0
      ensures fileMap == old(fileMap) && currentFile == old(currentFile)
      ensures sameStream == old(sameStream) && inStream == old(inStream)
    {
      currentLineNum := 0;
      currentOffset := 0;
    }

    /** `skipOldData`: position a newly opened stream; afterwards the stream counts as opened before. */
    method SkipOldDataOf(s: Stream) returns (t: Stream)
      modifies this
      ensures t == SkipOldData(s, old(sameStream), currentOffset, currentLineNum)
      ensures sameStream
      ensures fileMap == old(fileMap) && currentFile == old(currentFile) && inStream == old(inStream)
      ensures currentLineNum == old(currentLineNum) && currentOffset == old(currentOffset)
    {
      if sameStream {
        t := Seek(s, currentOffset);
      } else {
        t := Skip(s, currentLineNum);
        sameStream := true;
      }
    }

    /**
     * `openCurrentFile(next)` of the base reader: close the open stream,
     * reset the position for a new file, open the current file and skip
     * what was already read; a missing file leaves no stream.
     */
    method OpenCurrentFile(next: bool, fs: FileSystem)
      requires currentFile.Some?
      modifies this
      ensures fileMap == old(fileMap) && currentFile == old(currentFile)
      ensures currentLineNum == (if next then 0 else old(currentLineNum))
      ensures currentOffset == (if next then 0 else old(currentOffset))
      ensures inStream == Reopened(fs, currentFile.value, old(sameStream), currentOffset, currentLineNum)
      ensures OnCurrentFile()
      ensures sameStream == (old(sameStream) || currentFile.value.path in fs.files)
    {
      inStream := None;
      if next {
        ResetCurrentFileSettings();
      }
      var s := Open(fs, currentFile.value.path);
      if s.Some? {
        var t := SkipOldDataOf(s.value);
        inStream := Some(t);
      }
    }

    /** `build()`: clear the map and list the collector directory (`buildList`). */
    method Build(fs: FileSystem)
      modifies this
      ensures fileMap == BuiltMap(fs, streamDir) && Valid() && OnCurrentFile() == old(OnCurrentFile())
      ensures currentFile == old(currentFile) && currentLineNum == old(currentLineNum)
      ensures currentOffset == old(currentOffset) && sameStream == old(sameStream) && inStream == old(inStream)
    {
      fileMap := [];
      if Exists(fs, streamDir) {
        var listing := ListStatus(fs, streamDir);
        if listing.None? || |listing.value| == 0 {
          return;
        }
        var names := listing.value;
        var i := 0;
        while i < |names|
          invariant 0 <= i <= |names|
          invariant Sorted(fileMap)
          invariant AddNames(fileMap, streamDir, names[i..]) == AddNames([], streamDir, names)
          invariant currentFile == old(currentFile) && currentLineNum == old(currentLineNum)
          invariant currentOffset == old(currentOffset) && sameStream == old(sameStream) && inStream == old(inStream)
        {
          assert names[i..][1..] == names[i + 1..];
          fileMap := AddName(fileMap, streamDir, names[i]);
          i := i + 1;
        }
      }
    }

    /** `readLine(in, reader)` of the base reader: the next line of the open stream, counted in `currentLineNum`. */
    method ReadFromStream() returns (line: Option<string>)
      modifies this
      ensures OnCurrentFile() == old(OnCurrentFile())
      ensures old(inStream).None? ==> line.None? && inStream.None?
      ensures old(inStream).Some? ==> inStream.Some? && (line, inStream.value) == ReadOne(old(inStream).value)
      ensures currentLineNum == if line.Some? then old(currentLineNum) + 1 else old(currentLineNum)
      ensures fileMap == old(fileMap) && currentFile == old(currentFile)
      ensures currentOffset == old(currentOffset) && sameStream == old(sameStream)
    {
      line := None;
      if inStream.Some? {
        var r := ReadOne(inStream.value);
        line := r.0;
        inStream := Some(r.1);
        if line.Some? {
          currentLineNum := currentLineNum + 1;
        }
      }
    }

    /** `nextFile()`: move to and open the file after the current one, if the map has one. */
    method NextFile(fs: FileSystem) returns (moved: bool)
      requires Valid() && OnCurrentFile() && currentFile.Some?
      modifies this
      ensures Valid() && OnCurrentFile() && currentFile.Some? && fileMap == old(fileMap)
      ensures moved <==> Successor(fileMap, old(currentFile).value.key).Some?
      ensures moved ==> currentFile == Some(fileMap[Successor(fileMap, old(currentFile).value.key).value])
      ensures moved ==> currentLineNum == 0 && currentOffset == 0 && inStream == Reopened(fs, currentFile.value, old(sameStream), 0, 0)
      ensures !moved ==> (currentFile == old(currentFile) && currentLineNum == old(currentLineNum)
                          && currentOffset == old(currentOffset) && sameStream == old(sameStream)
                          && inStream == old(inStream))
    {
      var next := Successor(fileMap, currentFile.value.key);
      moved := next.Some?;
      if moved {
        currentFile := Some(fileMap[next.value]);
        OpenCurrentFile(true, fs);
      }
    }

    /** `setIterator()`: whether the current file is still in the map. */
    method SetIterator() returns (found: bool)
      requires currentFile.Some?
      ensures found <==> HasKey(fileMap, currentFile.value.key)
    {
      found := IndexOf(fileMap, currentFile.value.key).Some?;
    }

    /** `stillInCollectorStream()`: whether the current file lies within the map's range. */
    method StillInCollectorStream() returns (within: bool)
      requires currentFile.Some?
      ensures within <==> IsWithin(fileMap, currentFile.value.key)
    {
      within := IsWithin(fileMap, currentFile.value.key);
    }

    /** `startFromNextHigher(name)`: move to and open the least file above the current one, if any. */
    method StartFromNextHigher(fs: FileSystem)
      requires Valid() && OnCurrentFile() && currentFile.Some?
      modifies this
      ensures Valid() && OnCurrentFile() && currentFile.Some? && fileMap == old(fileMap)
      ensures Higher(fileMap, old(currentFile).value.key).Some? ==>
                currentFile == Some(fileMap[Higher(fileMap, old(currentFile).value.key).value])
                && currentLineNum == 0 && currentOffset == 0
                && inStream == Reopened(fs, currentFile.value, old(sameStream), 0, 0)
      ensures Higher(fileMap, old(currentFile).value.key).None? ==>
                currentFile == old(currentFile) && inStream == old(inStream)
                && currentLineNum == old(currentLineNum) && currentOffset == old(currentOffset)
    {
      var h := Higher(fileMap, currentFile.value.key);
      if h.Some? {
        currentFile := Some(fileMap[h.value]);
        OpenCurrentFile(true, fs);
      }
    }

    /** `waitForFlushAndReOpen()`: after the flush wait, reopen the same file where reading stopped. */
    method WaitForFlushAndReOpen(fs: FileSystem)
      requires Valid() && OnCurrentFile() && currentFile.Some?
      modifies this
      ensures Valid() && OnCurrentFile() && currentFile == old(currentFile) && fileMap == old(fileMap)
      ensures currentLineNum == old(currentLineNum) && currentOffset == old(currentOffset)
      ensures inStream == Reopened(fs, currentFile.value, old(sameStream), currentOffset, currentLineNum)
    {
      OpenCurrentFile(false, fs);
    }

    /**
     * The end-of-file part of `readLine()`: rebuild the map, then take the
     * branch `EndOfFile` names.  `giveUp` is set where `readLine` returns
     * `null`; otherwise the file to read next is open: the one after the
     * current file, the least one above it, or the current file again where
     * reading stopped.
     */
    method AtEndOfFile(fs: FileSystem) returns (giveUp: bool)
      requires Valid() && OnCurrentFile() && currentFile.Some?
      modifies this
      ensures Valid() && OnCurrentFile() && currentFile.Some? && fileMap == BuiltMap(fs, streamDir)
      ensures giveUp <==> GivesUp(EndOfFile(fileMap, old(currentFile).value.key, noNewFiles))
      ensures giveUp ==> currentFile == old(currentFile) && currentLineNum == old(currentLineNum)
                         && currentOffset == old(currentOffset) && inStream == old(inStream)
      ensures EndOfFile(fileMap, old(currentFile).value.key, noNewFiles) == ReadNextFile ==>
                && currentFile == Some(fileMap[Successor(fileMap, old(currentFile).value.key).value])
                && currentLineNum == 0 && currentOffset == 0
                && inStream == Reopened(fs, currentFile.value, old(sameStream), 0, 0)
      ensures EndOfFile(fileMap, old(currentFile).value.key, noNewFiles) == ReadNextHigher ==>
                && Higher(fileMap, old(currentFile).value.key).Some?
                && currentFile == Some(fileMap[Higher(fileMap, old(currentFile).value.key).value])
                && currentLineNum == 0 && currentOffset == 0
                && inStream == Reopened(fs, currentFile.value, old(sameStream), 0, 0)
      ensures EndOfFile(fileMap, old(currentFile).value.key, noNewFiles) == WaitAndReopen ==>
                && currentFile == old(currentFile)
                && currentLineNum == old(currentLineNum) && currentOffset == old(currentOffset)
                && inStream == Reopened(fs, currentFile.value, old(sameStream), currentOffset, currentLineNum)
    {
      Build(fs);
      var moved := NextFile(fs);
      giveUp := false;
      if !moved {
        if noNewFiles {
          return true;
        }
        var found := SetIterator();
        if !found {
          var within := StillInCollectorStream();
          if within {
            NextHigherExists(fileMap, currentFile.value.key, noNewFiles);
            StartFromNextHigher(fs);
          } else {
            return true;
          }
        } else {
          WaitForFlushAndReOpen(fs);
        }
      }
    }

    /**
     * One turn of the loop of `readLine()` at the end of a file: what
     * `AtEndOfFile` does with the snapshot `fs`, then, unless it gives up, a
     * read from the file it leaves open.
     */
    method NextLine(fs: FileSystem) returns (giveUp: bool, line: Option<string>)
      requires Valid() && OnCurrentFile() && currentFile.Some?
      modifies this
      ensures Valid() && OnCurrentFile() && currentFile.Some?
      ensures giveUp ==> line.None? && GivesUp(EndOfFile(fileMap, currentFile.value.key, noNewFiles))
      ensures line.Some? ==> inStream.Some? && inStream.value.path == currentFile.value.path
                             && 0 < inStream.value.pos <= |inStream.value.lines|
                             && line.value == inStream.value.lines[inStream.value.pos - 1]
    {
      line := None;
      giveUp := AtEndOfFile(fs);
      if !giveUp {
        line := ReadFromStream();
      }
    }

    /**
     * `readLine()`: the next line of the collector stream.  At end of file it
     * rebuilds the map from the next snapshot and takes the branch
     * `EndOfFile` names; it returns `null` only for `NoNewFiles` and
     * `MovedToLocal`, and records the offset after each line it returns.
     */
    method ReadLine(envs: seq<FileSystem>) returns (r: ReadResult)
      requires Valid() && OnCurrentFile() && currentFile.Some?
      modifies this
      ensures Valid() && OnCurrentFile() && currentFile.Some?
      ensures r.Line? ==> inStream.Some? && inStream.value.path == currentFile.value.path
                          && 0 < inStream.value.pos <= |inStream.value.lines|
                          && r.line == inStream.value.lines[inStream.value.pos - 1]
                          && currentOffset == inStream.value.pos
      ensures r.Null? ==> GivesUp(EndOfFile(fileMap, currentFile.value.key, noNewFiles))
    {
      var line := ReadFromStream();
      var i := 0;
      while line.None?
        invariant 0 <= i <= |envs|
        invariant Valid() && OnCurrentFile() && currentFile.Some?
        invariant line.Some? ==> inStream.Some? && 0 < inStream.value.pos <= |inStream.value.lines|
                                 && line.value == inStream.value.lines[inStream.value.pos - 1]
        decreases |envs| - i
      {
        if i == |envs| {
          return Pending;
        }
        var giveUp;
        giveUp, line := NextLine(envs[i]);
        i := i + 1;
        if giveUp {
          return Null;
        }
      }
      currentOffset := inStream.value.pos;
      r := Line(line.value);
    }
  }
}
