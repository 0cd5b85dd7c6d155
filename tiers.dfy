/**
 * A tier as a partition engine sees it through a stream reader whose class
 * is not part of this model (the local and collector readers of the first
 * generation, the cluster and collector readers of the second): the files
 * of the tier in strictly increasing key order, each with its lines, and a
 * reader positioned at a file and at a count of that file's lines already
 * read.
 *
 * `Remaining` is what such a reader yields from its position until the tier
 * is exhausted, each line with the checkpoint `(file name, lines read)`
 * that the engines queue with it.  The reader operations below are
 * specified against it, and the replay lemma states the property mark and
 * reset rely on: resuming from the checkpoint carried by any yielded line
 * yields exactly the lines after it.
 */
module Tiers {

  import opened Wrappers
  import opened StreamFiles
  import opened Calendar

  /** Which kind of file names a tier holds: collector files, or stream files of `stream`. */
  datatype TierKind = CollectorTier | LocalTier(stream: string)

  /** The key a file name stands for in a tier of that kind, when it is a file name of that kind. */
  function KeyOf(kind: TierKind, name: string): Option<FileKey> {
    match kind
    case CollectorTier =>
      (match ParseCollectorFile(name)
       case None => None
       case Some(f) => Some(CollectorKey(f)))
    case LocalTier(stream) =>
      (match ParseDatabusStreamFile(stream, name)
       case None => None
       case Some(d) => Some(DatabusKey(d)))
  }

  /** One file of a tier. */
  datatype TierFile = TierFile(name: string, key: FileKey, lines: seq<string>)

  /** A tier as last listed. */
  datatype Tier = Tier(kind: TierKind, files: seq<TierFile>)

  /** The files are in strictly increasing key order. */
  predicate ValidTier(t: Tier) {
    forall i, j :: 0 <= i < j < |t.files| ==> KeyBefore(t.files[i].key, t.files[j].key)
  }

  /** Each file's name stands for its key, as names of the tier's kind are read. */
  predicate NamedTier(t: Tier) {
    forall i :: 0 <= i < |t.files| ==> KeyOf(t.kind, t.files[i].name) == Some(t.files[i].key)
  }

  /** A line read, with the checkpoint queued with it: the file's name and the number of its lines read so far. */
  datatype Record = Record(line: string, file: string, lineNum: nat)

  /** The records of file `f` from line `from` on. */
  function FileRecords(f: TierFile, from: nat): (rs: seq<Record>)
    ensures |rs| == if from < |f.lines| then |f.lines| - from else 0
    decreases |f.lines| - from
  {
    if from >= |f.lines| then [] else [Record(f.lines[from], f.name, from + 1)] + FileRecords(f, from + 1)
  }

  /** The records of file `i` from line `from` on, then those of every later file. */
  function RecordsFrom(files: seq<TierFile>, i: nat, from: nat): seq<Record>
    decreases |files| - i
  {
    if i >= |files| then [] else FileRecords(files[i], from) + RecordsFrom(files, i + 1, 0)
  }

  /** A reader of a tier: the current file, the lines of it already read, and whether its stream is open. */
  datatype TierReader = TierReader(tier: Tier, file: nat, line: nat)

  /** The reader is at a file of its tier. */
  predicate Positioned(r: TierReader) {
    r.file < |r.tier.files|
  }

  predicate ValidReader(r: TierReader) {
    ValidTier(r.tier) && r.file < |r.tier.files|
  }

  /** What the reader yields from its position on. */
  function Remaining(r: TierReader): seq<Record> {
    RecordsFrom(r.tier.files, r.file, r.line)
  }

  /** The name of the reader's current file (`getCurrentFile().getName()`). */
  function CurrentName(r: TierReader): string
    requires r.file < |r.tier.files|
  {
    r.tier.files[r.file].name
  }

  /** The reader has read its current file to the end and no file follows. */
  predicate AtEnd(r: TierReader) {
    r.file + 1 == |r.tier.files| && r.line >= |r.tier.files[r.file].lines|
  }

  lemma AtEndNothingRemains(r: TierReader)
    requires AtEnd(r)
    ensures Remaining(r) == []
  {
    assert RecordsFrom(r.tier.files, r.file + 1, 0) == [];
  }

  /** One step of a reader: the next line of the current file, else the next file from its start. */
  lemma RemainingStep(r: TierReader)
    requires r.file < |r.tier.files|
    ensures var f := r.tier.files[r.file];
            && (r.line < |f.lines| ==>
                  Remaining(r) == [Record(f.lines[r.line], f.name, r.line + 1)] + Remaining(r.(line := r.line + 1)))
            && (r.line >= |f.lines| ==> Remaining(r) == Remaining(r.(file := r.file + 1, line := 0)))
  {
    var f := r.tier.files[r.file];
    var rest := RecordsFrom(r.tier.files, r.file + 1, 0);
    if r.line < |f.lines| {
      var rec := Record(f.lines[r.line], f.name, r.line + 1);
      assert FileRecords(f, r.line) == [rec] + FileRecords(f, r.line + 1);
      assert Remaining(r) == [rec] + FileRecords(f, r.line + 1) + rest;
    }
  }

  /**
   * `readLine()`: the next line with its checkpoint, moving on to the next
   * file at the end of one; `None` once the last file is read to the end.
   * Each call yields the first remaining record and leaves the rest.
   */
  function ReadLine(r: TierReader): (res: (Option<Record>, TierReader))
    requires Positioned(r)
    ensures Positioned(res.1) && res.1.tier == r.tier && res.1.file >= r.file
    ensures res.0.Some? ==> Remaining(r) == [res.0.value] + Remaining(res.1)
                            && res.0.value.file == CurrentName(res.1) && res.0.value.lineNum == res.1.line
    ensures res.0.None? ==> Remaining(r) == [] && AtEnd(res.1)
    decreases |r.tier.files| - r.file
  {
    var f := r.tier.files[r.file];
    RemainingStep(r);
    if r.line < |f.lines| then
      (Some(Record(f.lines[r.line], f.name, r.line + 1)), r.(line := r.line + 1))
    else if r.file + 1 < |r.tier.files| then
      ReadLine(r.(file := r.file + 1, line := 0))
    else
      AtEndNothingRemains(r);
      (None, r)
  }

  /** The reader once everything remaining has been read and one more read has returned nothing. */
  function Exhausted(r: TierReader): (e: TierReader)
    requires Positioned(r)
    ensures Positioned(e) && e.tier == r.tier && AtEnd(e) && Remaining(e) == []
    decreases |Remaining(r)|
  {
    var res := ReadLine(r);
    if res.0.None? then
      AtEndNothingRemains(res.1);
      res.1
    else
      assert |Remaining(res.1)| < |Remaining(r)|;
      Exhausted(res.1)
  }

  /** Reading one more line does not change where the reader ends up. */
  lemma ExhaustedStep(r: TierReader)
    requires Positioned(r)
    ensures ReadLine(r).0.Some? ==> Exhausted(r) == Exhausted(ReadLine(r).1)
    ensures ReadLine(r).0.None? ==> Exhausted(r) == ReadLine(r).1
  {
  }

  /** `initFromStart()`: the first file, from its first line; `None` for an empty tier. */
  function InitFromStart(t: Tier): (r: Option<TierReader>)
    requires ValidTier(t)
    ensures r.Some? <==> |t.files| > 0
    ensures r.Some? ==> ValidReader(r.value) && r.value.tier == t && Remaining(r.value) == RecordsFrom(t.files, 0, 0)
  {
    if |t.files| > 0 then Some(TierReader(t, 0, 0)) else None
  }

  /** Position of the file with key `k`. */
  function IndexOfKey(files: seq<TierFile>, k: FileKey): (r: Option<nat>)
    ensures r.Some? ==> r.value < |files| && files[r.value].key == k
    ensures r.None? ==> forall i :: 0 <= i < |files| ==> files[i].key != k
  {
    if |files| == 0 then None
    else if files[0].key == k then Some(0)
    else
      var t := IndexOfKey(files[1..], k);
      if t.None? then
        assert forall i :: 1 <= i < |files| ==> files[i] == files[1..][i - 1];
        None
      else Some(t.value + 1)
  }

  /** In a valid tier the file with a given key is unique. */
  lemma IndexOfKeyUnique(t: Tier, j: nat)
    requires ValidTier(t) && j < |t.files|
    ensures IndexOfKey(t.files, t.files[j].key) == Some(j)
  {
    var i := IndexOfKey(t.files, t.files[j].key).value;
    if i < j || j < i { KeyBeforeIrreflexive(t.files[j].key); }
  }

  /** `setCurrentFile(name, lineNum)`: the file `name` stands for, at line `lineNum`; `None` where the tier lacks it. */
  function SetCurrentFile(t: Tier, name: string, lineNum: nat): (r: Option<TierReader>)
    requires ValidTier(t)
    ensures r.Some? ==> ValidReader(r.value) && r.value.tier == t && r.value.line == lineNum
                        && Some(t.files[r.value.file].key) == KeyOf(t.kind, name)
    ensures r.None? ==> forall i :: 0 <= i < |t.files| ==> Some(t.files[i].key) != KeyOf(t.kind, name)
  {
    match KeyOf(t.kind, name)
    case None => None
    case Some(k) =>
      match IndexOfKey(t.files, k)
      case None => None
      case Some(i) => Some(TierReader(t, i, lineNum))
  }

  /**
   * `initializeCurrentFile(checkpoint)`: the checkpointed file at the
   * checkpointed line when the tier holds it; a file named before the whole
   * tier starts at the tier's first file; anything else gives no reader.
   */
  function InitFromCheckpoint(t: Tier, name: string, lineNum: nat): (r: Option<TierReader>)
    requires ValidTier(t)
    ensures r.Some? ==> ValidReader(r.value) && r.value.tier == t
    ensures r.None? <==> SetCurrentFile(t, name, lineNum).None?
                         && !(KeyOf(t.kind, name).Some? && |t.files| > 0 && KeyBefore(KeyOf(t.kind, name).value, t.files[0].key))
  {
    match SetCurrentFile(t, name, lineNum)
    case Some(r) => Some(r)
    case None =>
      var k := KeyOf(t.kind, name);
      if k.Some? && |t.files| > 0 && KeyBefore(k.value, t.files[0].key) then InitFromStart(t) else None
  }

  /** Resuming from the name of a file of the tier puts the reader at that file, at the given line. */
  lemma ResumeAt(t: Tier, j: nat, lineNum: nat)
    requires ValidTier(t) && NamedTier(t) && j < |t.files|
    ensures InitFromCheckpoint(t, t.files[j].name, lineNum) == Some(TierReader(t, j, lineNum))
  {
    IndexOfKeyUnique(t, j);
  }

  /**
   * A checkpointed file older than the whole tier is read from the tier's
   * start: every record of the tier is yielded.
   */
  lemma BeforeTierReadsAll(t: Tier, name: string, lineNum: nat)
    requires ValidTier(t) && |t.files| > 0
    requires KeyOf(t.kind, name).Some? && KeyBefore(KeyOf(t.kind, name).value, t.files[0].key)
    ensures InitFromCheckpoint(t, name, lineNum).Some?
    ensures Remaining(InitFromCheckpoint(t, name, lineNum).value) == RecordsFrom(t.files, 0, 0)
  {
    var k := KeyOf(t.kind, name).value;
    forall i | 0 <= i < |t.files| ensures t.files[i].key != k {
      if i == 0 {
        KeyBeforeIrreflexive(k);
      } else {
        KeyBeforeTransitive(k, t.files[0].key, t.files[i].key);
        KeyBeforeIrreflexive(k);
      }
    }
  }

  /**
   * A checkpointed file the tier lacks and that is not older than the whole
   * tier (it lies within the tier or after it) gives no reader.
   */
  lemma MissingNotBeforeGivesNothing(t: Tier, name: string, lineNum: nat)
    requires ValidTier(t)
    requires KeyOf(t.kind, name).Some?
    requires forall i :: 0 <= i < |t.files| ==> t.files[i].key != KeyOf(t.kind, name).value
    requires |t.files| > 0 ==> !KeyBefore(KeyOf(t.kind, name).value, t.files[0].key)
    ensures InitFromCheckpoint(t, name, lineNum).None?
  {
  }

  /** `initializeCurrentFile(timestamp)`: the first file whose key is not below `k`, from its first line. */
  function InitFromTimestamp(t: Tier, k: FileKey): (r: Option<TierReader>)
    requires ValidTier(t)
    ensures r.Some? ==> ValidReader(r.value) && r.value.tier == t && r.value.line == 0
                        && !KeyBefore(t.files[r.value.file].key, k)
                        && forall i :: 0 <= i < r.value.file ==> KeyBefore(t.files[i].key, k)
    ensures r.None? ==> forall i :: 0 <= i < |t.files| ==> KeyBefore(t.files[i].key, k)
  {
    match CeilingIndex(t.files, k)
    case None => None
    case Some(i) => Some(TierReader(t, i, 0))
  }

  function CeilingIndex(files: seq<TierFile>, k: FileKey): (r: Option<nat>)
    ensures r.Some? ==> r.value < |files| && !KeyBefore(files[r.value].key, k)
                        && forall i :: 0 <= i < r.value ==> KeyBefore(files[i].key, k)
    ensures r.None? ==> forall i :: 0 <= i < |files| ==> KeyBefore(files[i].key, k)
  {
    if |files| == 0 then None
    else if !KeyBefore(files[0].key, k) then Some(0)
    else
      var t := CeilingIndex(files[1..], k);
      if t.None? then
        assert forall i :: 1 <= i < |files| ==> files[i] == files[1..][i - 1];
        None
      else
        assert forall i :: 1 <= i < t.value + 1 ==> files[i] == files[1..][i - 1];
        Some(t.value + 1)
  }

  /** The key a timestamp stands for: the collector file of its minute with sequence number 0, lowest of that minute. */
  function TimestampKey(stream: string, t: int): FileKey {
    CollectorKey(CollectorFile(stream, if t < 0 then 0 else MinuteOfMillis(t), 0))
  }

  /**
   * Where record `p` of the records from file `i`, line `from` comes from:
   * line `k` of file `j`, and the records after it are those from file `j`,
   * line `k + 1`.
   */
  lemma {:induction false} RecordOrigin(files: seq<TierFile>, i: nat, from: nat, p: nat) returns (j: nat, k: nat)
    requires p < |RecordsFrom(files, i, from)|
    ensures i <= j < |files| && k < |files[j].lines|
    ensures RecordsFrom(files, i, from)[p] == Record(files[j].lines[k], files[j].name, k + 1)
    ensures RecordsFrom(files, i, from)[p + 1..] == RecordsFrom(files, j, k + 1)
    decreases |files| - i
  {
    var head := FileRecords(files[i], from);
    var tail := RecordsFrom(files, i + 1, 0);
    assert RecordsFrom(files, i, from) == head + tail;
    if p < |head| {
      j, k := i, from + p;
      FileRecordsLine(files[i], from, p);
      FileRecordsDrop(files[i], from, p + 1);
      assert (head + tail)[p + 1..] == head[p + 1..] + tail;
    } else {
      j, k := RecordOrigin(files, i + 1, 0, p - |head|);
      assert (head + tail)[p] == tail[p - |head|];
      assert (head + tail)[p + 1..] == tail[p - |head| + 1..];
    }
  }

  /**
   * Replay: resuming a tier from the checkpoint carried by any record a
   * reader yields gives a reader that yields exactly the records after it,
   * none repeated and none skipped.
   */
  lemma ReplayFromCheckpoint(r: TierReader, p: nat)
    requires ValidReader(r) && NamedTier(r.tier) && p < |Remaining(r)|
    ensures var rec := Remaining(r)[p];
            var s := InitFromCheckpoint(r.tier, rec.file, rec.lineNum);
            s.Some? && Remaining(s.value) == Remaining(r)[p + 1..]
  {
    var t := r.tier;
    var j, k := RecordOrigin(t.files, r.file, r.line, p);
    ResumeAt(t, j, k + 1);
  }

  /** Dropping the first `n` records of a file's records from line `from` leaves its records from line `from + n`. */
  lemma {:induction false} FileRecordsDrop(f: TierFile, from: nat, n: nat)
    requires from + n <= |f.lines|
    ensures FileRecords(f, from)[n..] == FileRecords(f, from + n)
    decreases n
  {
    if n > 0 {
      FileRecordsDrop(f, from + 1, n - 1);
    }
  }

  /** Record `k` of a file's records from line `from`: line `from + k`, carrying `from + k + 1` lines read. */
  lemma {:induction false} FileRecordsLine(f: TierFile, from: nat, k: nat)
    requires from + k < |f.lines|
    ensures FileRecords(f, from)[k] == Record(f.lines[from + k], f.name, from + k + 1)
  {
    FileRecordsDrop(f, from, k);
    assert FileRecords(f, from)[k] == FileRecords(f, from)[k..][0];
  }

  /**
   * Three files of 100 lines each and the checkpoint (second file, 20): the
   * reader yields lines 20 to 99 of the second file, then lines 0 to 99 of
   * the third, 180 lines in all, and nothing more.
   */
  lemma ThreeFilesFromCheckpoint(t: Tier)
    requires ValidTier(t) && NamedTier(t) && |t.files| == 3
    requires forall i :: 0 <= i < 3 ==> |t.files[i].lines| == 100
    ensures InitFromCheckpoint(t, t.files[1].name, 20).Some?
    ensures var rs := Remaining(InitFromCheckpoint(t, t.files[1].name, 20).value);
            && rs == FileRecords(t.files[1], 20) + FileRecords(t.files[2], 0)
            && |rs| == 180
            && (forall k :: 0 <= k < 80 ==> rs[k] == Record(t.files[1].lines[20 + k], t.files[1].name, 21 + k))
            && (forall k :: 80 <= k < 180 ==> rs[k] == Record(t.files[2].lines[k - 80], t.files[2].name, k - 79))
  {
    ResumeAt(t, 1, 20);
    var a, b := FileRecords(t.files[1], 20), FileRecords(t.files[2], 0);
    assert RecordsFrom(t.files, 3, 0) == [];
    assert RecordsFrom(t.files, 2, 0) == b + [];
    var rs := Remaining(TierReader(t, 1, 20));
    assert rs == a + b;
    forall k | 0 <= k < 80
      ensures rs[k] == Record(t.files[1].lines[20 + k], t.files[1].name, 21 + k)
    {
      assert rs[k] == a[k];
      FileRecordsLine(t.files[1], 20, k);
    }
    forall k | 80 <= k < 180
      ensures rs[k] == Record(t.files[2].lines[k - 80], t.files[2].name, k - 79)
    {
      assert rs[k] == b[k - 80];
      FileRecordsLine(t.files[2], 0, k - 80);
    }
  }
}
