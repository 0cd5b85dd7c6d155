/**
 * The first-generation partition engine: one collector of one cluster,
 * read through two tiers, the local stream (files already moved out of the
 * collector directory) and the collector directory itself.  It picks where
 * to start from the start time, else the checkpoint, else the start of the
 * data; it fills the shared buffer from the current tier and, at the end of
 * a tier, switches from the local stream to the collector directory, or
 * from the collector directory to the local copy of the file it was
 * reading.
 */
module ConsumerPartitionReaders {

  import opened Wrappers
  import opened StreamFiles
  import opened Tiers
  import opened Checkpoints
  import opened BoundedQueues

  /** The current reader: none, the local stream reader, or the collector stream reader, with its position. */
  datatype Current = NoReader | Local(r: TierReader) | Collector(r: TierReader)

  /** The local tier holds the stream files of `stream`, the collector tier collector files. */
  predicate TiersOf(l: Tier, c: Tier, stream: string) {
    ValidTier(l) && l.kind == LocalTier(stream) && ValidTier(c) && c.kind == CollectorTier
  }

  /** The current reader reads the tier its kind names. */
  predicate CurrentOf(cur: Current, l: Tier, c: Tier) {
    match cur
    case NoReader => true
    case Local(r) => ValidReader(r) && r.tier == l
    case Collector(r) => ValidReader(r) && r.tier == c
  }

  function AsLocal(r: Option<TierReader>): Current {
    if r.Some? then Local(r.value) else NoReader
  }

  function AsCollector(r: Option<TierReader>): Current {
    if r.Some? then Collector(r.value) else NoReader
  }

  /**
   * `initializeCurrentFileFromTimeStamp`: the first local file not older
   * than the minute of `t`, else the first such collector file, else none.
   */
  function FromTimestamp(l: Tier, c: Tier, stream: string, t: int): (cur: Current)
    requires TiersOf(l, c, stream)
    ensures CurrentOf(cur, l, c)
  {
    var k := TimestampKey(stream, t);
    if InitFromTimestamp(l, k).Some? then AsLocal(InitFromTimestamp(l, k))
    else AsCollector(InitFromTimestamp(c, k))
  }

  /**
   * `initializeCurrentFileFromCheckpoint`: a collector file name is looked
   * for in the collector directory, then, under its local name, in the local
   * stream; a local stream file name only in the local stream; any other
   * name gives no reader.
   */
  function FromCheckpoint(l: Tier, c: Tier, collector: string, stream: string, name: string, lineNum: nat): (cur: Current)
    requires TiersOf(l, c, stream)
    ensures CurrentOf(cur, l, c)
  {
    if IsCollectorFile(name) then
      if InitFromCheckpoint(c, name, lineNum).Some? then AsCollector(InitFromCheckpoint(c, name, lineNum))
      else AsLocal(InitFromCheckpoint(l, GetDatabusStreamFileName(collector, name), lineNum))
    else if IsDatabusStreamFile(stream, name) then AsLocal(InitFromCheckpoint(l, name, lineNum))
    else NoReader
  }

  /** `initFromStart`: the first local file, else the first collector file, else none. */
  function FromStart(l: Tier, c: Tier, stream: string): (cur: Current)
    requires TiersOf(l, c, stream)
    ensures CurrentOf(cur, l, c)
    ensures cur.NoReader? <==> |l.files| == 0 && |c.files| == 0
  {
    if |l.files| > 0 then AsLocal(InitFromStart(l)) else AsCollector(InitFromStart(c))
  }

  /** `initializeCurrentFile`: a start time wins over a checkpoint, and a checkpoint naming a file over the start. */
  function InitialReader(l: Tier, c: Tier, collector: string, stream: string,
                         startTime: Option<int>, chk: Option<PartitionCheckpoint>): (cur: Current)
    requires TiersOf(l, c, stream)
    ensures CurrentOf(cur, l, c)
    ensures startTime.Some? ==> cur == FromTimestamp(l, c, stream, startTime.value)
    ensures startTime.None? && chk.Some? && chk.value.fileName.Some?
            ==> cur == FromCheckpoint(l, c, collector, stream, chk.value.fileName.value, chk.value.lineNum)
    ensures startTime.None? && (chk.None? || chk.value.fileName.None?) ==> cur == FromStart(l, c, stream)
  {
    if startTime.Some? then FromTimestamp(l, c, stream, startTime.value)
    else if chk.Some? && chk.value.fileName.Some? then
      FromCheckpoint(l, c, collector, stream, chk.value.fileName.value, chk.value.lineNum)
    else FromStart(l, c, stream)
  }

  /**
   * The switch at the end of the collector directory: the local copy of the
   * collector reader's file, at the collector reader's line; none when the
   * local stream does not hold it.
   */
  function Migrate(l: Tier, collector: string, end: TierReader): Current
    requires ValidTier(l) && end.file < |end.tier.files|
  {
    AsLocal(SetCurrentFile(l, GetDatabusStreamFileName(collector, CurrentName(end)), end.line))
  }

  /**
   * The reader the engine goes on with once a tier runs out: the start of
   * the collector directory after the local stream, the local copy of the
   * last collector file after the collector directory.
   */
  function SwitchTier(fromLocal: bool, l: Tier, c: Tier, collector: string, end: TierReader): (cur: Current)
    requires ValidTier(l) && ValidTier(c) && end.file < |end.tier.files|
    ensures fromLocal ==> !cur.Local? && (cur.Collector? ==> ValidReader(cur.r) && cur.r.tier == c)
    ensures !fromLocal ==> !cur.Collector? && (cur.Local? ==> ValidReader(cur.r) && cur.r.tier == l)
  {
    if fromLocal then AsCollector(InitFromStart(c)) else Migrate(l, collector, end)
  }

  /** Every local tier name is the local name of a collector's collector file. */
  predicate CanonicalLocalNames(l: Tier, stream: string) {
    forall i :: 0 <= i < |l.files| ==>
      ParseDatabusStreamFile(stream, l.files[i].name).Some?
      && var d := ParseDatabusStreamFile(stream, l.files[i].name).value;
         l.files[i].name == GetDatabusStreamFileName(d.collector, CollectorFileName(d.file))
  }

  /**
   * Mark and reset, for one partition: started again without a start time
   * from the checkpoint carried by any line the current reader yields, the
   * partition engine reads the same tier on from just after that line: no
   * line is repeated and none is lost.
   */
  lemma ReplayAfterReset(l: Tier, c: Tier, collector: string, stream: string, cur: Current, p: nat)
    requires TiersOf(l, c, stream) && NamedTier(l) && NamedTier(c) && CanonicalLocalNames(l, stream)
    requires CurrentOf(cur, l, c) && !cur.NoReader? && p < |Remaining(cur.r)|
    ensures var rec := Remaining(cur.r)[p];
            var next := FromCheckpoint(l, c, collector, stream, rec.file, rec.lineNum);
            && !next.NoReader? && next.Local? == cur.Local?
            && Remaining(next.r) == Remaining(cur.r)[p + 1..]
  {
    var r := cur.r;
    var rec := Remaining(r)[p];
    ReplayFromCheckpoint(r, p);
    if cur.Local? {
      LocalRecordName(l, stream, r, p);
      FromCheckpointLocal(l, c, collector, stream, rec.file, rec.lineNum);
    } else {
      CollectorRecordName(c, r, p);
      FromCheckpointCollector(l, c, collector, stream, rec.file, rec.lineNum);
    }
  }

  lemma FromCheckpointLocal(l: Tier, c: Tier, collector: string, stream: string, name: string, lineNum: nat)
    requires TiersOf(l, c, stream) && !IsCollectorFile(name) && IsDatabusStreamFile(stream, name)
    ensures FromCheckpoint(l, c, collector, stream, name, lineNum) == AsLocal(InitFromCheckpoint(l, name, lineNum))
  {
  }

  lemma FromCheckpointCollector(l: Tier, c: Tier, collector: string, stream: string, name: string, lineNum: nat)
    requires TiersOf(l, c, stream) && IsCollectorFile(name) && InitFromCheckpoint(c, name, lineNum).Some?
    ensures FromCheckpoint(l, c, collector, stream, name, lineNum) == AsCollector(InitFromCheckpoint(c, name, lineNum))
  {
  }

  /** A line read from the local stream names a local stream file, which is not taken for a collector file. */
  lemma LocalRecordName(l: Tier, stream: string, r: TierReader, p: nat)
    requires ValidTier(l) && l.kind == LocalTier(stream) && CanonicalLocalNames(l, stream)
    requires ValidReader(r) && r.tier == l && p < |Remaining(r)|
    ensures !IsCollectorFile(Remaining(r)[p].file) && IsDatabusStreamFile(stream, Remaining(r)[p].file)
  {
    var j, k := RecordOrigin(r.tier.files, r.file, r.line, p);
    var name := l.files[j].name;
    var d := ParseDatabusStreamFile(stream, name).value;
    assert name == GetDatabusStreamFileName(d.collector, CollectorFileName(d.file));
    LocalNameIsNotCollectorFile(d.collector, d.file);
  }

  /** A line read from the collector directory names a collector file. */
  lemma CollectorRecordName(c: Tier, r: TierReader, p: nat)
    requires ValidTier(c) && NamedTier(c) && c.kind == CollectorTier
    requires ValidReader(r) && r.tier == c && p < |Remaining(r)|
    ensures IsCollectorFile(Remaining(r)[p].file)
  {
    var j, k := RecordOrigin(r.tier.files, r.file, r.line, p);
    assert KeyOf(CollectorTier, c.files[j].name).Some?;
  }

  /**
   * A checkpoint in a collector file that has since moved out of the
   * collector directory resumes in its local copy, at the checkpointed line.
   */
  lemma CheckpointInMovedFile(l: Tier, c: Tier, collector: string, f: CollectorFile, lineNum: nat, j: nat)
    requires TiersOf(l, c, f.stream)
    requires InitFromCheckpoint(c, CollectorFileName(f), lineNum).None?
    requires j < |l.files| && l.files[j].key == FileKey(f, collector)
    ensures InitialReader(l, c, collector, f.stream, None, Some(PartitionCheckpoint(Some(CollectorFileName(f)), lineNum)))
            == Local(TierReader(l, j, lineNum))
  {
    CollectorFileRoundTrip(f);
    LocalCopyFound(l, collector, f, j, lineNum);
  }

  /** The local name of a collector file finds the local file with that file's key. */
  lemma LocalCopyFound(l: Tier, collector: string, f: CollectorFile, j: nat, lineNum: nat)
    requires ValidTier(l) && l.kind == LocalTier(f.stream)
    requires j < |l.files| && l.files[j].key == FileKey(f, collector)
    ensures SetCurrentFile(l, GetDatabusStreamFileName(collector, CollectorFileName(f)), lineNum)
            == Some(TierReader(l, j, lineNum))
  {
    LocalNameParses(collector, f);
    IndexOfKeyUnique(l, j);
  }

  /**
   * When the collector reader reaches the end of the collector directory
   * because its file (`f`, by its canonical name) was moved, the engine goes
   * on in the local copy of that file at the same line; when the copy holds
   * no more lines than were read in the collector directory, it goes on with
   * the next local file.
   */
  lemma MigrationResumesInCopy(l: Tier, collector: string, end: TierReader, f: CollectorFile, j: nat)
    requires ValidTier(l) && Positioned(end) && end.tier.kind == CollectorTier
    requires CurrentName(end) == CollectorFileName(f) && l.kind == LocalTier(f.stream)
    requires j < |l.files| && l.files[j].key == FileKey(f, collector)
    ensures Migrate(l, collector, end) == Local(TierReader(l, j, end.line))
    ensures Remaining(Migrate(l, collector, end).r)
            == FileRecords(l.files[j], end.line) + RecordsFrom(l.files, j + 1, 0)
    ensures |l.files[j].lines| <= end.line ==> Remaining(Migrate(l, collector, end).r) == RecordsFrom(l.files, j + 1, 0)
  {
    LocalCopyFound(l, collector, f, j, end.line);
  }

  /**
   * The reading loop of `execute()`: while the buffer has room and the
   * engine is not stopped, read a line and queue it with its partition and
   * the position just after it, until the tier runs out.
   */
  method Fill(buffer: BoundedQueue<QueueEntry>, id: PartitionId, start: TierReader, stopped: bool)
    returns (reader: TierReader, read: nat, exhausted: bool)
    requires buffer.Valid() && Positioned(start)
    modifies buffer
    ensures buffer.Valid() && Positioned(reader) && reader.tier == start.tier
    ensures read <= |Remaining(start)| && Remaining(reader) == Remaining(start)[read..]
    ensures buffer.contents == old(buffer.contents) + Entries(id, Remaining(start)[..read])
    ensures exhausted <==> !stopped && read == |Remaining(start)| && |buffer.contents| < buffer.capacity
    ensures exhausted ==> reader == Exhausted(start)
    ensures !exhausted ==> stopped || |buffer.contents| == buffer.capacity
  {
    reader := start;
    read := 0;
    exhausted := false;
    ghost var all := Remaining(start);
    ghost var done: seq<Record> := [];
    while buffer.RemainingCapacity() != 0 && !stopped
      invariant buffer.Valid() && read == |done|
      invariant Positioned(reader) && reader.tier == start.tier
      invariant all == done + Remaining(reader)
      invariant Exhausted(reader) == Exhausted(start)
      invariant buffer.contents == old(buffer.contents) + Entries(id, done)
      decreases |Remaining(reader)|
    {
      var res := ReadLine(reader);
      ExhaustedStep(reader);
      if res.0.None? {
        exhausted := true;
        reader := res.1;
        SplitAt(all, done, Remaining(reader));
        return;
      }
      var rec := res.0.value;
      var added := buffer.Offer(EntryOf(id, rec));
      FillStep(id, all, done, reader);
      done := done + [rec];
      reader := res.1;
      read := read + 1;
    }
    SplitAt(all, done, Remaining(reader));
  }

  class PartitionReader {
    const partitionId: PartitionId
    const collector: string
    const streamName: string
    const partitionCheckpoint: Option<PartitionCheckpoint>
    const buffer: BoundedQueue<QueueEntry>
    var startTime: Option<int>
    var stopped: bool
    /** The local stream as its reader last listed it. */
    var localTier: Tier
    /** The collector directory as its reader last listed it. */
    var collectorTier: Tier
    var current: Current
    /** Whether the current reader's stream is open. */
    var streamOpen: bool

    ghost predicate Valid()
      reads this, buffer
    {
      && buffer.Valid() && TiersOf(localTier, collectorTier, streamName) && CurrentOf(current, localTier, collectorTier)
      && (streamOpen ==> !current.NoReader?)
    }

    /** The constructor: both readers over their tiers, and the current reader as `initializeCurrentFile` picks it. */
    constructor (partitionId: PartitionId, partitionCheckpoint: Option<PartitionCheckpoint>,
                 localTier: Tier, collectorTier: Tier, buffer: BoundedQueue<QueueEntry>,
                 streamName: string, startTime: Option<int>)
      requires partitionId.collector.Some? && buffer.Valid()
      requires TiersOf(localTier, collectorTier, streamName)
      ensures Valid() && !stopped && !streamOpen
      ensures this.partitionId == partitionId && this.buffer == buffer && this.startTime == startTime
      ensures this.partitionCheckpoint == partitionCheckpoint && this.streamName == streamName
      ensures this.collector == partitionId.collector.value
      ensures this.localTier == localTier && this.collectorTier == collectorTier
      ensures current == InitialReader(localTier, collectorTier, partitionId.collector.value, streamName,
                                       startTime, partitionCheckpoint)
    {
      this.partitionId := partitionId;
      this.collector := partitionId.collector.value;
      this.streamName := streamName;
      this.partitionCheckpoint := partitionCheckpoint;
      this.buffer := buffer;
      this.startTime := startTime;
      this.localTier := localTier;
      this.collectorTier := collectorTier;
      stopped := false;
      streamOpen := false;
      current := InitialReader(localTier, collectorTier, partitionId.collector.value, streamName,
                               startTime, partitionCheckpoint);
    }

    /** `close()`: the engine stops and the current reader's stream is closed. */
    method Close()
      modifies this
      ensures old(Valid()) ==> Valid()
      ensures stopped && !streamOpen
      ensures current == old(current) && localTier == old(localTier) && collectorTier == old(collectorTier)
      ensures startTime == old(startTime)
    {
      stopped := true;
      streamOpen := false;
    }

    /**
     * `execute()`: with no current reader nothing happens.  Otherwise lines
     * are read and queued, each with its partition and the position just
     * after it, while the buffer has room and the engine is not stopped.  If
     * the tier runs out first, the engine switches tier: from the local
     * stream to the start of the collector directory (as listed now,
     * `collectorNow`), from the collector directory to the local copy of the
     * file it was reading (as listed now, `localNow`).  The stream is closed
     * on the way out.  `read` is the number of lines queued, `exhausted`
     * says whether the tier ran out.
     */
    method Execute(localNow: Tier, collectorNow: Tier) returns (read: nat, exhausted: bool)
      requires Valid() && TiersOf(localNow, collectorNow, streamName)
      modifies this, buffer
      ensures Valid() && !streamOpen && stopped == old(stopped) && startTime == old(startTime)
      ensures old(current).NoReader? ==>
                current.NoReader? && read == 0 && !exhausted && buffer.contents == old(buffer.contents)
                && localTier == old(localTier) && collectorTier == old(collectorTier)
      ensures !old(current).NoReader? ==>
                var all := Remaining(old(current).r);
                && read <= |all|
                && buffer.contents == old(buffer.contents) + Entries(partitionId, all[..read])
                && (exhausted <==> !stopped && read == |all| && |buffer.contents| < buffer.capacity)
                && (!exhausted ==>
                      && localTier == old(localTier) && collectorTier == old(collectorTier)
                      && current.Local? == old(current).Local? && !current.NoReader?
                      && Remaining(current.r) == all[read..]
                      && (stopped || |buffer.contents| == buffer.capacity))
                && (exhausted && old(current).Local? ==>
                      collectorTier == collectorNow && localTier == old(localTier)
                      && current == AsCollector(InitFromStart(collectorNow)))
                && (exhausted && old(current).Collector? ==>
                      localTier == localNow && collectorTier == old(collectorTier)
                      && current == Migrate(localNow, collector, Exhausted(old(current).r)))
    {
      read := 0;
      exhausted := false;
      if current.NoReader? {
        return;
      }
      streamOpen := true;
      var onLocal := current.Local?;
      var reader;
      reader, read, exhausted := Fill(buffer, partitionId, current.r, stopped);
      if exhausted {
        if onLocal {
          collectorTier := collectorNow;
        } else {
          localTier := localNow;
        }
        current := SwitchTier(onLocal, localNow, collectorNow, collector, reader);
      } else {
        current := if onLocal then Local(reader) else Collector(reader);
      }
      streamOpen := false;
    }
  }
}
