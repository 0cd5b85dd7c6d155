/**
 * The second-generation databus consumer: every partition of the stream
 * gets an engine filling one shared buffer of a thousand entries; `next()`
 * records the position of the message it takes, `commit()` stores the
 * checkpoint and `rollback()` starts again from the stored one.  A
 * partition's position here is its file name and an offset in that file.
 */
module ConsumerDatabusConsumers {

  import opened Wrappers
  import opened BoundedQueues
  import Checkpoints
  import DatabusConsumers

  /** The capacity of the shared buffer. */
  const BufferSize: nat := 1000

  /** A partition's position: its partition, the file being read (none before the first) and the offset in it. */
  datatype PartitionCheckpoint = PartitionCheckpoint(id: Checkpoints.PartitionId, fileName: Option<string>, offset: int)

  /** An entry of the shared buffer: the message, its partition, and its file and offset. */
  datatype QueueEntry = QueueEntry(message: Checkpoints.Message, partitionId: Checkpoints.PartitionId,
                                   fileName: Option<string>, offset: int)

  /** The consumer checkpoint: per partition, its position. */
  type Checkpoint = map<Checkpoints.PartitionId, PartitionCheckpoint>

  /** Every position is filed under its own partition. */
  predicate WellKeyed(cp: Checkpoint) {
    forall id :: id in cp ==> cp[id].id == id
  }

  /** Every position is the one of a partition not yet read: no file, offset -1. */
  predicate AllUnread(cp: Checkpoint) {
    forall id :: id in cp ==> cp[id] == PartitionCheckpoint(id, None, -1)
  }

  /** The partitions the positions of `cp` name. */
  function Ids(cp: Checkpoint): set<Checkpoints.PartitionId> {
    set k | k in cp :: cp[k].id
  }

  /** In a well-keyed checkpoint the positions name exactly its partitions, and a position naming a partition is its entry. */
  lemma WellKeyedIds(cp: Checkpoint, chk: PartitionCheckpoint)
    requires WellKeyed(cp)
    ensures Ids(cp) == cp.Keys
    ensures chk in cp.Values ==> chk.id in cp && cp[chk.id] == chk
  {
    forall id | id in cp.Keys
      ensures id in Ids(cp)
    {
      assert cp[id].id == id;
    }
    if chk in cp.Values {
      var k :| k in cp && cp[k] == chk;
      assert k == chk.id;
    }
  }

  /**
   * The checkpoint after `next()` took `e`: its partition's position becomes
   * the entry's file and offset, every other position stays.
   */
  function Record(cp: Checkpoint, e: QueueEntry): (r: Checkpoint)
    ensures r.Keys == cp.Keys + {e.partitionId}
    ensures r[e.partitionId] == PartitionCheckpoint(e.partitionId, e.fileName, e.offset)
    ensures forall id :: id in cp && id != e.partitionId ==> r[id] == cp[id]
    ensures WellKeyed(cp) ==> WellKeyed(r)
  {
    cp[e.partitionId := PartitionCheckpoint(e.partitionId, e.fileName, e.offset)]
  }

  /**
   * The stream is configured and the stream directory of each of its source
   * clusters can be listed, which `start()` needs to build a checkpoint.
   */
  predicate Listable(env: DatabusConsumers.Environment, stream: string) {
    && stream in env.sourceStreams
    && forall c :: c in env.sourceStreams[stream].sourceClusters ==> c in env.collectorDirs
  }

  /** The positions `start()` puts for one cluster `c`: an unread position per collector directory it lists. */
  method PutUnread(env: DatabusConsumers.Environment, ghost visited: set<string>, cp0: Checkpoint, c: string)
    returns (cp: Checkpoint)
    requires c in env.collectorDirs
    requires AllUnread(cp0) && cp0.Keys == DatabusConsumers.PartitionsOf(env, visited)
    ensures AllUnread(cp) && cp.Keys == DatabusConsumers.PartitionsOf(env, visited + {c})
  {
    cp := cp0;
    var collectors := env.collectorDirs[c];
    var i := 0;
    while i < |collectors|
      invariant 0 <= i <= |collectors|
      invariant AllUnread(cp) && cp.Keys == cp0.Keys + DatabusConsumers.Partitions(c, collectors[..i])
      invariant collectors == env.collectorDirs[c]
    {
      var id := DatabusConsumers.PartitionOf(c, collectors[i]);
      cp := cp[id := PartitionCheckpoint(id, None, -1)];
      DatabusConsumers.PartitionsSnoc(c, collectors, i);
      i := i + 1;
    }
    assert collectors[..i] == collectors;
    DatabusConsumers.PartitionsOfAdd(env, visited, c);
  }

  /**
   * The checkpoint `start()` builds when there is none: one unread position
   * per collector directory of each of the clusters `clusters`, taken in
   * some order.  A cluster whose stream directory cannot be listed ends the
   * building, which fails, with the positions put so far; `visited` is the
   * set of clusters whose positions were put.
   */
  method UnreadCheckpoint(env: DatabusConsumers.Environment, clusters: set<string>)
    returns (cp: Checkpoint, ok: bool, ghost visited: set<string>)
    ensures ok <==> forall c :: c in clusters ==> c in env.collectorDirs
    ensures visited <= clusters && (ok ==> visited == clusters)
    ensures AllUnread(cp) && cp.Keys == DatabusConsumers.PartitionsOf(env, visited)
  {
    cp := map[];
    visited := {};
    var remaining := clusters;
    while remaining != {}
      invariant remaining + visited == clusters && remaining !! visited
      invariant forall c :: c in visited ==> c in env.collectorDirs
      invariant AllUnread(cp) && cp.Keys == DatabusConsumers.PartitionsOf(env, visited)
      decreases |remaining|
    {
      var c :| c in remaining;
      if c !in env.collectorDirs {
        return cp, false, visited;
      }
      cp := PutUnread(env, visited, cp, c);
      visited := visited + {c};
      remaining := remaining - {c};
    }
    ok := true;
  }

  /**
   * What the consumer knows of a partition engine, whose code is not part
   * of this model: the position it starts from, the buffer it fills, and
   * whether it was started and closed.
   */
  class PartitionReader {
    const partitionCheckpoint: PartitionCheckpoint
    const buffer: BoundedQueue<QueueEntry>
    const streamName: string
    var started: bool
    var closed: bool

    constructor (partitionCheckpoint: PartitionCheckpoint, buffer: BoundedQueue<QueueEntry>, streamName: string)
      ensures this.partitionCheckpoint == partitionCheckpoint && this.buffer == buffer && this.streamName == streamName
      ensures !started && !closed
    {
      this.partitionCheckpoint := partitionCheckpoint;
      this.buffer := buffer;
      this.streamName := streamName;
      started := false;
      closed := false;
    }

    method Start()
      modifies this
      ensures started && closed == old(closed)
    {
      started := true;
    }

    method Close()
      modifies this
      ensures closed && started == old(started)
    {
      closed := true;
    }
  }

  /**
   * The engines `start()` creates: for each position of `cp`, taken in some
   * order, a fresh engine started from it and filed under the partition it
   * names, over any filed there before.
   */
  method StartEngines(cp: Checkpoint, buffer: BoundedQueue<QueueEntry>, streamName: string)
    returns (made: map<Checkpoints.PartitionId, PartitionReader>)
    ensures made.Keys == Ids(cp)
    ensures forall id :: id in made ==>
              fresh(made[id]) && StartedFor(made[id], cp, id, streamName) && made[id].buffer == buffer
  {
    made := map[];
    var remaining := cp.Keys;
    ghost var done: set<Checkpoints.PartitionId> := {};
    while remaining != {}
      invariant remaining + done == cp.Keys && remaining !! done && made.Keys == IdsOf(cp, done)
      invariant forall id :: id in made ==>
                  fresh(made[id]) && StartedFor(made[id], cp, id, streamName) && made[id].buffer == buffer
      decreases |remaining|
    {
      var k :| k in remaining;
      var partition := cp[k];
      var reader := new PartitionReader(partition, buffer, streamName);
      made := made[partition.id := reader];
      reader.Start();
      IdsOfAdd(cp, done, k);
      done := done + {k};
      remaining := remaining - {k};
    }
    IdsOfAll(cp, done);
  }

  class DatabusConsumer {
    const consumerName: string
    const streamName: string
    const buffer: BoundedQueue<QueueEntry>
    var readers: map<Checkpoints.PartitionId, PartitionReader>
    /** The in-memory checkpoint; none where nothing was stored and `start()` has not built one. */
    var currentCheckpoint: Option<Checkpoint>
    /** The checkpoint provider's contents: stored checkpoints by key, read back as written. */
    var store: map<string, Checkpoint>
    /** Whether the checkpoint provider has been closed. */
    var providerClosed: bool

    ghost predicate Valid()
      reads this, buffer
    {
      buffer.Valid() && buffer.capacity == BufferSize
    }

    /**
     * `init`: an empty buffer of `BufferSize` entries, no engines, and the
     * checkpoint stored under the consumer's key, none where nothing is
     * stored.
     */
    constructor (consumerName: string, streamName: string, store: map<string, Checkpoint>)
      ensures Valid() && fresh(buffer) && buffer.contents == [] && readers == map[]
      ensures this.consumerName == consumerName && this.streamName == streamName && this.store == store
      ensures !providerClosed
      ensures var key := DatabusConsumers.ChkpointKey(consumerName, streamName);
              currentCheckpoint == if key in store then Some(store[key]) else None
    {
      this.consumerName := consumerName;
      this.streamName := streamName;
      this.store := store;
      buffer := new BoundedQueue(BufferSize);
      readers := map[];
      providerClosed := false;
      var key := DatabusConsumers.ChkpointKey(consumerName, streamName);
      currentCheckpoint := if key in store then Some(store[key]) else None;
    }

    /**
     * `next()`: the head of the buffer, whose file and offset become its
     * partition's position.  On an empty buffer `take()` would wait; here
     * the result is none and nothing changes.  With no checkpoint the entry
     * is taken and its message lost: the result is none.
     */
    method Next() returns (m: Option<Checkpoints.Message>)
      requires Valid()
      modifies buffer, this
      ensures Valid() && readers == old(readers) && store == old(store) && providerClosed == old(providerClosed)
      ensures old(buffer.contents) == [] ==>
                m.None? && buffer.contents == [] && currentCheckpoint == old(currentCheckpoint)
      ensures old(buffer.contents) != [] ==> buffer.contents == old(buffer.contents)[1..]
      ensures old(buffer.contents) != [] && old(currentCheckpoint).None? ==> m.None? && currentCheckpoint.None?
      ensures old(buffer.contents) != [] && old(currentCheckpoint).Some? ==>
                var e := old(buffer.contents)[0];
                m == Some(e.message) && currentCheckpoint == Some(Record(old(currentCheckpoint).value, e))
    {
      var entry := buffer.Take();
      if entry.None? || currentCheckpoint.None? {
        return None;
      }
      currentCheckpoint := Some(Record(currentCheckpoint.value, entry.value));
      m := Some(entry.value.message);
    }

    /**
     * The second half of `start()`: one fresh, started engine per position
     * of the checkpoint, filed under the partition the position names, over
     * whatever engines were filed under it before; engines of other
     * partitions stay.
     */
    method StartReaders(cp: Checkpoint)
      requires Valid()
      modifies this
      ensures Valid() && currentCheckpoint == old(currentCheckpoint) && store == old(store)
      ensures providerClosed == old(providerClosed)
      ensures readers.Keys == old(readers).Keys + Ids(cp)
      ensures forall id :: id in old(readers) && id !in Ids(cp) ==> readers[id] == old(readers)[id]
      ensures forall id :: id in Ids(cp) ==>
                fresh(readers[id]) && StartedFor(readers[id], cp, id, streamName) && readers[id].buffer == buffer
    {
      var made := StartEngines(cp, buffer, streamName);
      readers := readers + made;
    }

    /**
     * `start()`: with no checkpoint, a new one with an unread position for
     * each collector directory of every source cluster of the stream
     * (which fails, with the positions put so far, where the stream is not
     * configured or a stream directory cannot be listed); then, unless that
     * failed, an engine started from each position.  An existing checkpoint
     * is kept as it is.  Running the engines' threads is not part of this
     * model.
     */
    method Start(env: DatabusConsumers.Environment) returns (ok: bool)
      requires Valid()
      modifies this
      ensures Valid() && store == old(store) && currentCheckpoint.Some? && providerClosed == old(providerClosed)
      ensures old(currentCheckpoint).Some? ==> ok && currentCheckpoint == old(currentCheckpoint)
      ensures old(currentCheckpoint).None? ==>
                && (ok <==> Listable(env, streamName))
                && AllUnread(currentCheckpoint.value)
                && (streamName in env.sourceStreams ==>
                      currentCheckpoint.value.Keys <=
                      DatabusConsumers.PartitionsOf(env, env.sourceStreams[streamName].sourceClusters))
                && (ok ==> currentCheckpoint.value.Keys ==
                           DatabusConsumers.PartitionsOf(env, env.sourceStreams[streamName].sourceClusters))
      ensures !ok ==> readers == old(readers)
      ensures ok ==>
                var cp := currentCheckpoint.value;
                && readers.Keys == old(readers).Keys + Ids(cp)
                && (forall id :: id in old(readers) && id !in Ids(cp) ==> readers[id] == old(readers)[id])
                && (forall id :: id in Ids(cp) ==>
                      fresh(readers[id]) && StartedFor(readers[id], cp, id, streamName) && readers[id].buffer == buffer)
    {
      if currentCheckpoint.None? {
        if streamName !in env.sourceStreams {
          currentCheckpoint := Some(map[]);
          return false;
        }
        var clusters := env.sourceStreams[streamName].sourceClusters;
        ghost var visited;
        var cp;
        cp, ok, visited := UnreadCheckpoint(env, clusters);
        PartitionsOfMono(env, visited, clusters);
        currentCheckpoint := Some(cp);
        if !ok {
          return;
        }
      }
      ok := true;
      StartReaders(currentCheckpoint.value);
    }

    /** `commit()`: the checkpoint is stored under the consumer's key; with no checkpoint nothing is stored and the result is false. */
    method Commit() returns (ok: bool)
      requires Valid()
      modifies this
      ensures Valid() && readers == old(readers) && currentCheckpoint == old(currentCheckpoint)
      ensures providerClosed == old(providerClosed)
      ensures ok <==> currentCheckpoint.Some?
      ensures ok ==> store == old(store)[DatabusConsumers.ChkpointKey(consumerName, streamName) := currentCheckpoint.value]
      ensures !ok ==> store == old(store)
    {
      if currentCheckpoint.None? {
        return false;
      }
      store := store[DatabusConsumers.ChkpointKey(consumerName, streamName) := currentCheckpoint.value];
      ok := true;
    }

    /**
     * `close()`: every engine is closed, then the checkpoint provider; the
     * engines stay filed, and the buffer and the checkpoints are kept.
     */
    method Close()
      requires Valid()
      modifies this, readers.Values
      ensures Valid() && forall r :: r in readers.Values ==> r.closed
      ensures providerClosed
      ensures readers == old(readers) && currentCheckpoint == old(currentCheckpoint) && store == old(store)
      ensures buffer.contents == old(buffer.contents)
    {
      var rs := readers.Values;
      while rs != {}
        invariant readers == old(readers) && currentCheckpoint == old(currentCheckpoint) && store == old(store)
        invariant rs <= readers.Values
        invariant forall r :: r in readers.Values && r !in rs ==> r.closed
        decreases |rs|
      {
        var r :| r in rs;
        r.Close();
        rs := rs - {r};
      }
      providerClosed := true;
    }

    /**
     * `rollback()`: the consumer is closed, the stored checkpoint (none
     * where nothing is stored) replaces the in-memory one, and the consumer
     * is started again from it.  The checkpoint provider stays closed.  The
     * buffer is not emptied: entries queued before the rollback are still
     * taken first.
     */
    method Rollback(env: DatabusConsumers.Environment) returns (ok: bool)
      requires Valid()
      modifies this, readers.Values
      ensures Valid() && store == old(store) && buffer.contents == old(buffer.contents) && currentCheckpoint.Some?
      ensures providerClosed
      ensures forall r :: r in old(readers).Values ==> r.closed
      ensures var key := DatabusConsumers.ChkpointKey(consumerName, streamName);
              && (key in store ==> ok && currentCheckpoint == Some(store[key]))
              && (key !in store ==> (ok <==> Listable(env, streamName)) && AllUnread(currentCheckpoint.value))
      ensures !ok ==> readers == old(readers)
      ensures ok ==>
                var cp := currentCheckpoint.value;
                && readers.Keys == old(readers).Keys + Ids(cp)
                && (forall id :: id in old(readers) && id !in Ids(cp) ==> readers[id] == old(readers)[id])
                && (forall id :: id in Ids(cp) ==>
                      fresh(readers[id]) && StartedFor(readers[id], cp, id, streamName) && readers[id].buffer == buffer)
    {
      Close();
      var key := DatabusConsumers.ChkpointKey(consumerName, streamName);
      currentCheckpoint := if key in store then Some(store[key]) else None;
      ok := Start(env);
    }
  }

  /** Engine `r` was started, and not closed, from a position of `cp` naming partition `id`. */
  ghost predicate StartedFor(r: PartitionReader, cp: Checkpoint, id: Checkpoints.PartitionId, streamName: string)
    reads r
  {
    r.started && !r.closed && r.partitionCheckpoint in cp.Values && r.partitionCheckpoint.id == id
    && r.streamName == streamName
  }

  /** The partitions named by the positions of `cp` filed under the keys `ks`. */
  function IdsOf(cp: Checkpoint, ks: set<Checkpoints.PartitionId>): set<Checkpoints.PartitionId> {
    set k | k in ks && k in cp :: cp[k].id
  }

  lemma IdsOfAdd(cp: Checkpoint, ks: set<Checkpoints.PartitionId>, k: Checkpoints.PartitionId)
    requires k in cp
    ensures IdsOf(cp, ks + {k}) == IdsOf(cp, ks) + {cp[k].id}
  {
  }

  lemma IdsOfAll(cp: Checkpoint, ks: set<Checkpoints.PartitionId>)
    requires ks == cp.Keys
    ensures IdsOf(cp, ks) == Ids(cp)
  {
  }

  lemma PartitionsOfMono(env: DatabusConsumers.Environment, a: set<string>, b: set<string>)
    requires a <= b
    ensures DatabusConsumers.PartitionsOf(env, a) <= DatabusConsumers.PartitionsOf(env, b)
  {
  }
}
