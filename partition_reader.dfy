/**
 * The second-generation partition engine: one partition read through one
 * stream reader, either a cluster reader over a stream directory (the local
 * or the final one) or a collector reader over a collector directory and
 * the local stream.  The stream reader itself is modelled by the files it
 * yields, as one tier: it is positioned once by `init()`, then `execute()`
 * puts every line it yields into the shared buffer, each with the position
 * just after it, until the stream reader has no line to give.
 */
module PartitionReaders {

  import opened Wrappers
  import opened StreamFiles
  import opened Tiers
  import opened Checkpoints
  import opened BoundedQueues

  /** The two kinds of stream reader and the directories each reads. */
  datatype Variant = ClusterReader(streamDir: string) | CollectorReader(collectorDir: string, localDir: string)

  /**
   * The choice the cluster constructor makes: a partition without a
   * collector is read by a cluster reader, over the local stream directory
   * when `isLocal` and over the final one otherwise; a partition of a
   * collector by a collector reader over that collector's directory and the
   * local stream directory.
   */
  function SelectVariant(id: PartitionId, isLocal: bool, cluster: Cluster, stream: string)
    : (v: Variant)
    ensures v.ClusterReader? <==> id.collector.None?
    ensures v.ClusterReader? && isLocal ==> v.streamDir == StreamsLocalDir(cluster, stream)
    ensures v.ClusterReader? && !isLocal ==> v.streamDir == StreamsDir(cluster, stream)
    ensures v.CollectorReader? ==>
              v.collectorDir == CollectorDir(cluster, stream, id.collector.value) && v.localDir == StreamsLocalDir(cluster, stream)
  {
    if id.collector.Some? then CollectorReader(CollectorDir(cluster, stream, id.collector.value), StreamsLocalDir(cluster, stream))
    else if isLocal then ClusterReader(StreamsLocalDir(cluster, stream))
    else ClusterReader(StreamsDir(cluster, stream))
  }

  /** What `initializeCurrentFile()` of the stream reader leaves: a position (or no file to read yet), or a failure. */
  datatype InitResult = Started(reader: Option<TierReader>) | CheckpointMissing

  /**
   * `initializeCurrentFile()` of the stream reader: from the start time, the
   * first file not older than its minute; otherwise from the checkpoint,
   * the checkpointed file at the checkpointed line, the start of the stream
   * when that file lies before the stream, and a failure when it is missing
   * from within or after the stream; a checkpoint naming no file reads from
   * the start.
   */
  function InitializeCurrentFile(t: Tier, stream: string, startTime: Option<int>, chk: Option<PartitionCheckpoint>)
    : (res: InitResult)
    requires ValidTier(t) && (startTime.Some? || chk.Some?)
    ensures res.Started? && res.reader.Some? ==> ValidReader(res.reader.value) && res.reader.value.tier == t
    ensures startTime.Some? ==>
              && res.Started?
              && (res.reader.Some? ==>
                    && res.reader.value.line == 0
                    && !KeyBefore(t.files[res.reader.value.file].key, TimestampKey(stream, startTime.value))
                    && forall i :: 0 <= i < res.reader.value.file
                         ==> KeyBefore(t.files[i].key, TimestampKey(stream, startTime.value)))
              && (res.reader.None? ==> forall i :: 0 <= i < |t.files|
                                         ==> KeyBefore(t.files[i].key, TimestampKey(stream, startTime.value)))
    ensures startTime.None? && chk.value.fileName.None? ==> res == Started(InitFromStart(t))
    ensures startTime.None? && chk.value.fileName.Some? ==>
              (res == CheckpointMissing <==> InitFromCheckpoint(t, chk.value.fileName.value, chk.value.lineNum).None?)
  {
    if startTime.Some? then
      Started(InitFromTimestamp(t, TimestampKey(stream, startTime.value)))
    else if chk.value.fileName.None? then
      Started(InitFromStart(t))
    else
      match InitFromCheckpoint(t, chk.value.fileName.value, chk.value.lineNum)
      case Some(r) => Started(Some(r))
      case None => CheckpointMissing
  }

  /**
   * A start time wins over a checkpoint: whatever the checkpoint says, the
   * stream reader starts at line 0 of the first file of the start time's
   * minute or later.
   */
  lemma StartTimeWins(t: Tier, stream: string, startTime: int, chk: Option<PartitionCheckpoint>, j: nat)
    requires ValidTier(t) && j < |t.files|
    requires !KeyBefore(t.files[j].key, TimestampKey(stream, startTime))
    requires forall i :: 0 <= i < j ==> KeyBefore(t.files[i].key, TimestampKey(stream, startTime))
    ensures InitializeCurrentFile(t, stream, Some(startTime), chk) == Started(Some(TierReader(t, j, 0)))
    ensures Remaining(TierReader(t, j, 0)) == RecordsFrom(t.files, j, 0)
  {
    var res := InitializeCurrentFile(t, stream, Some(startTime), chk);
    assert res.reader.Some?;
    var r := res.reader.value;
    assert j <= r.file;
    assert r.file <= j;
  }

  /** A checkpoint in a file before the stream reads the whole stream. */
  lemma OldCheckpointReadsAll(t: Tier, stream: string, name: string, lineNum: nat)
    requires ValidTier(t) && |t.files| > 0
    requires KeyOf(t.kind, name).Some? && KeyBefore(KeyOf(t.kind, name).value, t.files[0].key)
    ensures var res := InitializeCurrentFile(t, stream, None, Some(PartitionCheckpoint(Some(name), lineNum)));
            && res.Started? && res.reader.Some? && Remaining(res.reader.value) == RecordsFrom(t.files, 0, 0)
  {
    BeforeTierReadsAll(t, name, lineNum);
  }

  /** A checkpoint in a file missing from within or after the stream makes the initialisation fail. */
  lemma MissingCheckpointFails(t: Tier, stream: string, name: string, lineNum: nat)
    requires ValidTier(t) && KeyOf(t.kind, name).Some?
    requires forall i :: 0 <= i < |t.files| ==> t.files[i].key != KeyOf(t.kind, name).value
    requires |t.files| > 0 ==> !KeyBefore(KeyOf(t.kind, name).value, t.files[0].key)
    ensures InitializeCurrentFile(t, stream, None, Some(PartitionCheckpoint(Some(name), lineNum))) == CheckpointMissing
  {
    MissingNotBeforeGivesNothing(t, name, lineNum);
  }

  /**
   * Three files of 100 lines and the checkpoint (second file, line 20): the
   * stream reader yields lines 20 to 99 of the second file, then lines 0 to
   * 99 of the third, each with the position just after it, and then
   * nothing.
   */
  lemma ThreeFilesScenario(t: Tier, stream: string)
    requires ValidTier(t) && NamedTier(t) && |t.files| == 3
    requires forall i :: 0 <= i < 3 ==> |t.files[i].lines| == 100
    ensures var res := InitializeCurrentFile(t, stream, None, Some(PartitionCheckpoint(Some(t.files[1].name), 20)));
            && res.Started? && res.reader.Some?
            && var rs := Remaining(res.reader.value);
               && |rs| == 180
               && (forall k :: 0 <= k < 80 ==> rs[k] == Record(t.files[1].lines[20 + k], t.files[1].name, 21 + k))
               && (forall k :: 80 <= k < 180 ==> rs[k] == Record(t.files[2].lines[k - 80], t.files[2].name, k - 79))
  {
    ThreeFilesFromCheckpoint(t);
  }

  /**
   * `buffer.put` of the entry of one record, when `base` and the entries of
   * `done` are queued already; a full buffer hands the entry back as
   * `blocked`.
   */
  method Put(buffer: BoundedQueue<QueueEntry>, id: PartitionId, ghost base: seq<QueueEntry>, ghost done: seq<Record>,
             rec: Record) returns (blocked: Option<QueueEntry>)
    requires buffer.Valid() && buffer.contents == base + Entries(id, done)
    modifies buffer
    ensures buffer.Valid()
    ensures blocked.None? ==> buffer.contents == base + Entries(id, done + [rec])
    ensures blocked.Some? ==> |buffer.contents| == buffer.capacity
                              && buffer.contents + [blocked.value] == base + Entries(id, done + [rec])
  {
    var entry := EntryOf(id, rec);
    EntriesSnoc(id, done, rec);
    var added := buffer.Offer(entry);
    blocked := if added then None else Some(entry);
  }

  /**
   * The reading loop of `execute()`: put every line the stream reader yields
   * into the buffer, with the partition and the position just after it,
   * until the stream reader has no line to give or a put finds the buffer
   * full (`blocked`, the entry it would wait to put).
   */
  method PutAll(buffer: BoundedQueue<QueueEntry>, id: PartitionId, start: TierReader)
    returns (reader: TierReader, read: nat, blocked: Option<QueueEntry>)
    requires buffer.Valid() && Positioned(start)
    modifies buffer
    ensures buffer.Valid() && Positioned(reader) && reader.tier == start.tier
    ensures read <= |Remaining(start)| && Remaining(reader) == Remaining(start)[read..]
    ensures blocked.None? ==> read == |Remaining(start)|
                              && buffer.contents == old(buffer.contents) + Entries(id, Remaining(start))
    ensures blocked.Some? ==> 0 < read && |buffer.contents| == buffer.capacity
                              && buffer.contents + [blocked.value]
                                 == old(buffer.contents) + Entries(id, Remaining(start)[..read])
  {
    reader := start;
    read := 0;
    blocked := None;
    var atEnd := false;
    ghost var all := Remaining(start);
    ghost var done: seq<Record> := [];
    while !atEnd && blocked.None?
      invariant buffer.Valid() && read == |done|
      invariant Positioned(reader) && reader.tier == start.tier
      invariant all == done + Remaining(reader)
      invariant atEnd ==> Remaining(reader) == []
      invariant blocked.None? ==> buffer.contents == old(buffer.contents) + Entries(id, done)
      invariant blocked.Some? ==> 0 < read && |buffer.contents| == buffer.capacity
                                  && buffer.contents + [blocked.value] == old(buffer.contents) + Entries(id, done)
      decreases |Remaining(reader)|, if atEnd || blocked.Some? then 0 else 1
    {
      var res := ReadLine(reader);
      if res.0.None? {
        AtEndNothingRemains(res.1);
        atEnd := true;
        reader := res.1;
      } else {
        var rec := res.0.value;
        FillStep(id, all, done, reader);
        blocked := Put(buffer, id, old(buffer.contents), done, rec);
        done := done + [rec];
        reader := res.1;
        read := read + 1;
      }
    }
    SplitAt(all, done, Remaining(reader));
    if blocked.None? {
      assert Remaining(reader) == [];
      assert all == done;
      assert buffer.contents == old(buffer.contents) + Entries(id, all);
    }
  }

  class PartitionReader {
    const partitionId: PartitionId
    const buffer: BoundedQueue<QueueEntry>
    const variant: Variant
    const streamName: string
    const startTime: Option<int>
    const partitionCheckpoint: Option<PartitionCheckpoint>
    /** The files the stream reader yields, in order. */
    const tier: Tier
    /** The stream reader's position: none before `init()`, or when it found no file. */
    var position: Option<TierReader>
    var stopped: bool
    var inited: bool
    /** Whether the stream reader's stream is open. */
    var streamOpen: bool

    ghost predicate Valid()
      reads this, buffer
    {
      && buffer.Valid() && ValidTier(tier) && (startTime.Some? || partitionCheckpoint.Some?)
      && (position.Some? ==> Positioned(position.value) && position.value.tier == tier)
      && (!inited ==> position.None?)
    }

    /** The private constructor after its guard, with the stream reader the public constructor chose. */
    constructor (partitionId: PartitionId, partitionCheckpoint: Option<PartitionCheckpoint>,
                 buffer: BoundedQueue<QueueEntry>, streamName: string, startTime: Option<int>,
                 variant: Variant, tier: Tier)
      requires buffer.Valid() && ValidTier(tier) && (startTime.Some? || partitionCheckpoint.Some?)
      ensures Valid() && !inited && !stopped && !streamOpen && position.None?
      ensures this.partitionId == partitionId && this.buffer == buffer && this.variant == variant
      ensures this.streamName == streamName && this.startTime == startTime
      ensures this.partitionCheckpoint == partitionCheckpoint && this.tier == tier
    {
      this.partitionId := partitionId;
      this.partitionCheckpoint := partitionCheckpoint;
      this.buffer := buffer;
      this.streamName := streamName;
      this.startTime := startTime;
      this.variant := variant;
      this.tier := tier;
      position := None;
      stopped := false;
      inited := false;
      streamOpen := false;
    }

    /**
     * `init()`: the stream reader is positioned once; later calls change
     * nothing.  `ok` is false where the stream reader's initialisation
     * fails, which leaves the engine uninitialised.
     */
    method Init() returns (ok: bool)
      requires Valid()
      modifies this
      ensures Valid() && stopped == old(stopped) && streamOpen == old(streamOpen)
      ensures old(inited) ==> ok && inited && position == old(position)
      ensures !old(inited) ==>
                var res := InitializeCurrentFile(tier, streamName, startTime, partitionCheckpoint);
                && (ok <==> res.Started?) && inited == ok
                && position == (if ok then res.reader else None)
    {
      if inited {
        return true;
      }
      var res := InitializeCurrentFile(tier, streamName, startTime, partitionCheckpoint);
      if res.CheckpointMissing? {
        return false;
      }
      position := res.reader;
      inited := true;
      ok := true;
    }

    /** `close()`: the engine stops and the stream reader is closed. */
    method Close()
      requires Valid()
      modifies this
      ensures Valid() && stopped && !streamOpen
      ensures inited == old(inited) && position == old(position)
    {
      stopped := true;
      streamOpen := false;
    }

    /**
     * `execute()`: unless stopped, every line the stream reader yields is
     * put into the buffer with the partition and the position just after
     * it, until the stream reader has no line to give.  A put that finds
     * the buffer full would wait for room; here `execute` returns instead
     * with that entry as `blocked`, the line already read.  The stream is
     * closed on the way out.
     */
    method Execute() returns (read: nat, blocked: Option<QueueEntry>)
      requires Valid()
      modifies this, buffer
      ensures Valid() && !streamOpen && stopped == old(stopped) && inited == old(inited)
      ensures old(position).None? || stopped ==>
                read == 0 && blocked.None? && position == old(position) && buffer.contents == old(buffer.contents)
      ensures old(position).Some? && !stopped ==>
                var all := Remaining(old(position).value);
                && position.Some? && read <= |all| && Remaining(position.value) == all[read..]
                && (blocked.None? ==> read == |all| && buffer.contents == old(buffer.contents) + Entries(partitionId, all))
                && (blocked.Some? ==> 0 < read && |buffer.contents| == buffer.capacity
                                      && buffer.contents + [blocked.value]
                                         == old(buffer.contents) + Entries(partitionId, all[..read]))
    {
      read := 0;
      blocked := None;
      if position.None? || stopped {
        streamOpen := false;
        return;
      }
      streamOpen := true;
      var reader;
      reader, read, blocked := PutAll(buffer, partitionId, position.value);
      position := Some(reader);
      streamOpen := false;
    }
  }

  /**
   * The public constructors: with neither a start time nor a checkpoint
   * there is no engine (`IllegalArgumentException`); otherwise the engine
   * reads through the stream reader `SelectVariant` picks.
   */
  method NewPartitionReader(partitionId: PartitionId, partitionCheckpoint: Option<PartitionCheckpoint>,
                            cluster: Cluster, buffer: BoundedQueue<QueueEntry>, streamName: string,
                            startTime: Option<int>, isLocal: bool, tier: Tier)
    returns (r: Option<PartitionReader>)
    requires buffer.Valid() && ValidTier(tier)
    ensures r.None? <==> startTime.None? && partitionCheckpoint.None?
    ensures r.Some? ==> fresh(r.value) && r.value.Valid() && !r.value.inited && r.value.buffer == buffer
                        && r.value.variant == SelectVariant(partitionId, isLocal, cluster, streamName)
                        && r.value.partitionId == partitionId && r.value.startTime == startTime
                        && r.value.partitionCheckpoint == partitionCheckpoint
  {
    if startTime.None? && partitionCheckpoint.None? {
      return None;
    }
    var variant := SelectVariant(partitionId, isLocal, cluster, streamName);
    var p := new PartitionReader(partitionId, partitionCheckpoint, buffer, streamName, startTime, variant, tier);
    r := Some(p);
  }

  /** The stream-directory constructor: the same guard, then a cluster reader over `streamDir`. */
  method NewStreamDirPartitionReader(partitionId: PartitionId, partitionCheckpoint: Option<PartitionCheckpoint>,
                                     buffer: BoundedQueue<QueueEntry>, streamName: string,
                                     startTime: Option<int>, streamDir: string, tier: Tier)
    returns (r: Option<PartitionReader>)
    requires buffer.Valid() && ValidTier(tier)
    ensures r.None? <==> startTime.None? && partitionCheckpoint.None?
    ensures r.Some? ==> fresh(r.value) && r.value.Valid() && !r.value.inited && r.value.buffer == buffer
                        && r.value.variant == ClusterReader(streamDir)
                        && r.value.partitionId == partitionId && r.value.startTime == startTime
                        && r.value.partitionCheckpoint == partitionCheckpoint
  {
    if startTime.None? && partitionCheckpoint.None? {
      return None;
    }
    var p := new PartitionReader(partitionId, partitionCheckpoint, buffer, streamName, startTime,
                                 ClusterReader(streamDir), tier);
    r := Some(p);
  }
}
