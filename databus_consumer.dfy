/**
 * The first-generation databus consumer: it reads one topic from the
 * source clusters of the stream, one partition engine per collector
 * directory, all filling one shared buffer.  `next()` takes an entry from
 * the buffer and records its position in the in-memory checkpoint; `mark()`
 * stores that checkpoint, `reset()` restarts every engine from the stored
 * one.
 */
module DatabusConsumers {

  import opened Wrappers
  import opened Strings
  import opened Tiers
  import opened Checkpoints
  import opened BoundedQueues
  import opened ConsumerPartitionReaders

  /** One hour in milliseconds. */
  const OneHourInMillis: int := 60 * 60 * 1000

  /** A source stream of the databus configuration: its source clusters and, per cluster, how long data is kept. */
  datatype SourceStream = SourceStream(sourceClusters: set<string>, retentionInHours: map<string, int>)

  /**
   * What the consumer finds when it creates its partition engines: the
   * databus configuration (its source streams; clusters go by their names),
   * the clock, the names in each cluster's stream directory (absent where
   * the directory does not exist), and, per partition, the local stream and
   * the collector directory as its engine lists them.
   */
  datatype Environment = Environment(
    sourceStreams: map<string, SourceStream>,
    now: int,
    collectorDirs: map<string, seq<string>>,
    tiers: map<PartitionId, (Tier, Tier)>)

  /** Every source cluster of every stream has a retention, and every listed tier pair is well formed. */
  predicate WellFormed(env: Environment, stream: string) {
    && (forall s :: s in env.sourceStreams ==>
          env.sourceStreams[s].sourceClusters <= env.sourceStreams[s].retentionInHours.Keys)
    && (forall id :: id in env.tiers ==> TiersOf(env.tiers[id].0, env.tiers[id].1, stream))
  }

  /** The tiers of partition `id`: empty tiers where the environment lists none. */
  function TiersAt(env: Environment, id: PartitionId, stream: string): (r: (Tier, Tier))
    requires WellFormed(env, stream)
    ensures TiersOf(r.0, r.1, stream)
  {
    if id in env.tiers then env.tiers[id] else (Tier(LocalTier(stream), []), Tier(CollectorTier, []))
  }

  /** `getChkpointKey()`: the key the consumer's checkpoint is stored under. */
  function ChkpointKey(consumerName: string, topicName: string): string {
    consumerName + "_" + topicName
  }

  /** A consumer name free of `_` is recovered from its key, so two such consumers of a topic never share a stored checkpoint. */
  lemma ChkpointKeysDistinct(a: string, b: string, topicName: string)
    requires '_' !in a && '_' !in b && a != b
    ensures ChkpointKey(a, topicName) != ChkpointKey(b, topicName)
  {
    if |a| < |b| {
      assert ChkpointKey(b, topicName)[|a|] == b[|a|];
      assert ChkpointKey(a, topicName)[|a|] == '_';
    } else if |b| < |a| {
      assert ChkpointKey(a, topicName)[|b|] == a[|b|];
      assert ChkpointKey(b, topicName)[|b|] == '_';
    } else {
      assert ChkpointKey(a, topicName)[..|a|] == a;
      assert ChkpointKey(b, topicName)[..|b|] == b;
    }
  }

  /** `Map.get` on the consumer checkpoint: no position for an absent partition. */
  function Lookup(c: Checkpoint, id: PartitionId): Option<PartitionCheckpoint> {
    if id in c then c[id] else None
  }

  /** The clusters read: the configured ones that are source clusters of the stream, or all of these with none configured. */
  function ClusterNames(configured: Option<seq<string>>, sourceClusters: set<string>): (r: set<string>)
    ensures r <= sourceClusters
    ensures configured.None? ==> r == sourceClusters
    ensures configured.Some? ==> forall c :: c in r <==> c in configured.value && c in sourceClusters
  {
    if configured.None? then sourceClusters
    else set c | c in configured.value && c in sourceClusters
  }

  /** The loop choosing the clusters read. */
  method SelectClusters(configured: Option<seq<string>>, sourceClusters: set<string>) returns (names: set<string>)
    ensures names == ClusterNames(configured, sourceClusters)
  {
    if configured.None? {
      return sourceClusters;
    }
    names := {};
    var i := 0;
    while i < |configured.value|
      invariant 0 <= i <= |configured.value|
      invariant names == set c | c in configured.value[..i] && c in sourceClusters
    {
      if configured.value[i] in sourceClusters {
        names := names + {configured.value[i]};
      }
      assert configured.value[..i + 1] == configured.value[..i] + [configured.value[i]];
      i := i + 1;
    }
    assert configured.value[..i] == configured.value;
  }

  /** The earliest start time data is kept for: `now` less the cluster's retention. */
  function AllowedStartTime(now: int, retentionInHours: int): int {
    now - retentionInHours * OneHourInMillis
  }

  /**
   * The start time a partition engine is given: with neither a start time
   * nor a position for the partition, the earliest start time kept; a start
   * time before that, that earliest start time; otherwise the start time as
   * given, which is none exactly when the partition has a position to
   * resume from.
   */
  function PartitionTimestamp(startTime: Option<int>, chk: Option<PartitionCheckpoint>, allowed: int): (ts: Option<int>)
    ensures ts.Some? ==> allowed <= ts.value
    ensures ts.None? <==> startTime.None? && chk.Some?
    ensures startTime.Some? && allowed <= startTime.value ==> ts == startTime
    ensures startTime.None? && chk.None? ==> ts == Some(allowed)
    ensures startTime.Some? && startTime.value < allowed ==> ts == Some(allowed)
  {
    if startTime.None? && chk.None? then Some(allowed)
    else if startTime.Some? && startTime.value < allowed then Some(allowed)
    else startTime
  }

  /** The partition of collector directory `collector` of cluster `c`. */
  function PartitionOf(c: string, collector: string): PartitionId {
    PartitionId(c, Some(collector))
  }

  /** The partitions of the collector directories `collectors` of cluster `c`. */
  function Partitions(c: string, collectors: seq<string>): set<PartitionId> {
    if collectors == [] then {}
    else Partitions(c, collectors[..|collectors| - 1]) + {PartitionOf(c, collectors[|collectors| - 1])}
  }

  lemma PartitionsSnoc(c: string, collectors: seq<string>, i: nat)
    requires i < |collectors|
    ensures Partitions(c, collectors[..i + 1]) == Partitions(c, collectors[..i]) + {PartitionOf(c, collectors[i])}
  {
    assert collectors[..i + 1][..i] == collectors[..i];
  }

  /** One partition per listed collector directory, and no other. */
  lemma {:induction false} PartitionsListed(c: string, collectors: seq<string>, id: PartitionId)
    ensures id in Partitions(c, collectors) <==>
            id.cluster == c && id.collector.Some? && id.collector.value in collectors
  {
    if collectors != [] {
      var init := collectors[..|collectors| - 1];
      PartitionsListed(c, init, id);
      assert collectors == init + [collectors[|collectors| - 1]];
    }
  }

  /** A cluster whose stream directory is missing or lists nothing. */
  predicate NoCollectorDirs(env: Environment, c: string) {
    c !in env.collectorDirs || env.collectorDirs[c] == []
  }

  /** The partitions of the clusters `cs`: one per collector directory listed for them. */
  function PartitionsOf(env: Environment, cs: set<string>): set<PartitionId> {
    set c, collector | c in cs && c in env.collectorDirs && collector in env.collectorDirs[c] :: PartitionOf(c, collector)
  }

  lemma PartitionsOfAdd(env: Environment, cs: set<string>, c: string)
    requires c in env.collectorDirs
    ensures PartitionsOf(env, cs + {c}) == PartitionsOf(env, cs) + Partitions(c, env.collectorDirs[c])
  {
    forall id | id in Partitions(c, env.collectorDirs[c])
      ensures id in PartitionsOf(env, cs + {c})
    {
      PartitionsListed(c, env.collectorDirs[c], id);
    }
    forall id | id in PartitionsOf(env, cs + {c}) && id !in PartitionsOf(env, cs)
      ensures id in Partitions(c, env.collectorDirs[c])
    {
      PartitionsListed(c, env.collectorDirs[c], id);
    }
  }

  /**
   * Mark, then reset: an engine created again for a partition whose stored
   * position is the one queued with a line its reader yielded gets no start
   * time, so it starts from that position and reads on from just after
   * that line, whatever the earliest start time kept.
   */
  lemma MarkResetReplays(id: PartitionId, l: Tier, c: Tier, collector: string, stream: string, cur: Current, p: nat,
                         allowed: int)
    requires TiersOf(l, c, stream) && NamedTier(l) && NamedTier(c) && CanonicalLocalNames(l, stream)
    requires CurrentOf(cur, l, c) && !cur.NoReader? && p < |Remaining(cur.r)|
    ensures var chk := EntryOf(id, Remaining(cur.r)[p]).partitionChkpoint;
            var next := InitialReader(l, c, collector, stream, PartitionTimestamp(None, Some(chk), allowed), Some(chk));
            && !next.NoReader? && next.Local? == cur.Local?
            && Remaining(next.r) == Remaining(cur.r)[p + 1..]
  {
    ReplayAfterReset(l, c, collector, stream, cur, p);
  }

  /** One more cluster's entries keep the creation loop's account of the checkpoint. */
  lemma ClusterStep(env: Environment, visited: set<string>, c: string, c0: Checkpoint, c1: Checkpoint, c2: Checkpoint)
    requires c in env.collectorDirs
    requires c1.Keys == c0.Keys + PartitionsOf(env, visited) && forall id :: id in c1 ==> c1[id] == Lookup(c0, id)
    requires c2.Keys == c1.Keys + Partitions(c, env.collectorDirs[c]) && forall id :: id in c2 ==> c2[id] == Lookup(c1, id)
    ensures c2.Keys == c0.Keys + PartitionsOf(env, visited + {c})
    ensures forall id :: id in c2 ==> c2[id] == Lookup(c0, id)
    ensures forall id :: Lookup(c1, id) == Lookup(c0, id)
  {
    PartitionsOfAdd(env, visited, c);
  }

  /** One more cluster's engines keep the creation loop's account of the engines. */
  lemma ReadersStep<R>(env: Environment, visited: set<string>, c: string, r1: map<PartitionId, R>, r2: map<PartitionId, R>)
    requires c in env.collectorDirs && c !in visited
    requires r1.Keys == PartitionsOf(env, visited)
    requires r2.Keys == r1.Keys + Partitions(c, env.collectorDirs[c])
    requires forall id :: id in r1 && id !in Partitions(c, env.collectorDirs[c]) ==> r2[id] == r1[id]
    ensures r2.Keys == PartitionsOf(env, visited + {c})
    ensures forall c', collector :: c' in visited && c' in env.collectorDirs && collector in env.collectorDirs[c']
              ==> r2[PartitionOf(c', collector)] == r1[PartitionOf(c', collector)]
  {
    PartitionsOfAdd(env, visited, c);
    forall c', collector | c' in visited && c' in env.collectorDirs && collector in env.collectorDirs[c']
      ensures r2[PartitionOf(c', collector)] == r1[PartitionOf(c', collector)]
    {
      PartitionsListed(c, env.collectorDirs[c], PartitionOf(c', collector));
    }
  }

  /** Engine `r` was made for a partition whose position was `chk`, with the start time `PartitionTimestamp` gives it. */
  ghost predicate EngineFor(r: PartitionReader, startTime: Option<int>, chk: Option<PartitionCheckpoint>, allowed: int)
    reads r
  {
    r.partitionCheckpoint == chk && r.startTime == PartitionTimestamp(startTime, chk, allowed)
  }

  class DatabusConsumer {
    const consumerName: string
    const topicName: string
    const bufferSize: nat
    /** The configured clusters, split at commas; none where not configured. */
    const clusters: Option<seq<string>>
    var startTime: Option<int>
    var buffer: BoundedQueue<QueueEntry>
    var readers: map<PartitionId, PartitionReader>
    var currentCheckpoint: Checkpoint
    /** The checkpoint provider's contents: stored checkpoints by key, read back as written. */
    var store: map<string, Checkpoint>

    ghost predicate Valid()
      reads this, buffer
    {
      && buffer.Valid() && buffer.capacity == bufferSize
      && (forall id :: id in readers ==> readers[id].partitionId == id && readers[id].buffer == buffer)
    }

    /**
     * `initializeConfig`: a fresh buffer of `bufferSize` entries, the
     * configured clusters split at commas, and the checkpoint stored under
     * the consumer's key, or an empty one where nothing is stored.
     */
    constructor (consumerName: string, topicName: string, bufferSize: nat, clusterStr: Option<string>,
                 startTime: Option<int>, store: map<string, Checkpoint>)
      requires 0 < bufferSize
      ensures Valid() && readers == map[] && buffer.contents == [] && fresh(buffer)
      ensures this.consumerName == consumerName && this.topicName == topicName && this.bufferSize == bufferSize
      ensures this.startTime == startTime && this.store == store
      ensures clusters == if clusterStr.Some? then Some(JavaSplit(clusterStr.value, ',')) else None
      ensures ChkpointKey(consumerName, topicName) in store ==> currentCheckpoint == store[ChkpointKey(consumerName, topicName)]
      ensures ChkpointKey(consumerName, topicName) !in store ==> currentCheckpoint == map[]
    {
      this.consumerName := consumerName;
      this.topicName := topicName;
      this.bufferSize := bufferSize;
      this.clusters := if clusterStr.Some? then Some(JavaSplit(clusterStr.value, ',')) else None;
      this.startTime := startTime;
      this.store := store;
      buffer := new BoundedQueue(bufferSize);
      readers := map[];
      var key := ChkpointKey(consumerName, topicName);
      currentCheckpoint := if key in store then store[key] else map[];
    }

    /**
     * `next()`: the head of the buffer, whose position becomes its
     * partition's position in the in-memory checkpoint; every other
     * partition keeps its own.  On an empty buffer `take()` would wait;
     * here the result is none and nothing changes.
     */
    method Next() returns (m: Option<Message>)
      requires Valid()
      modifies this, buffer
      ensures Valid() && buffer == old(buffer) && readers == old(readers) && store == old(store)
      ensures startTime == old(startTime)
      ensures old(buffer.contents) == [] ==> m.None? && buffer.contents == [] && currentCheckpoint == old(currentCheckpoint)
      ensures old(buffer.contents) != [] ==>
                var e := old(buffer.contents)[0];
                && m == Some(e.message) && buffer.contents == old(buffer.contents)[1..]
                && currentCheckpoint == SetPosition(old(currentCheckpoint), e.partitionId, e.partitionChkpoint)
    {
      var entry := buffer.Take();
      if entry.None? {
        return None;
      }
      currentCheckpoint := SetPosition(currentCheckpoint, entry.value.partitionId, entry.value.partitionChkpoint);
      m := Some(entry.value.message);
    }

    /** `mark()`: the in-memory checkpoint is stored under the consumer's key; nothing else changes. */
    method Mark()
      requires Valid()
      modifies this
      ensures Valid() && store == old(store)[ChkpointKey(consumerName, topicName) := currentCheckpoint]
      ensures currentCheckpoint == old(currentCheckpoint) && readers == old(readers) && buffer == old(buffer)
      ensures startTime == old(startTime)
    {
      store := store[ChkpointKey(consumerName, topicName) := currentCheckpoint];
    }

    /**
     * `close()`: every partition engine is closed, the engines are dropped,
     * and the buffer is emptied and replaced by a fresh one of `bufferSize`
     * entries.
     */
    method Close()
      requires Valid()
      modifies this, buffer, readers.Values
      ensures Valid() && readers == map[] && fresh(buffer) && buffer.contents == []
      ensures forall r :: r in old(readers).Values ==> r.stopped && !r.streamOpen
      ensures currentCheckpoint == old(currentCheckpoint) && store == old(store) && startTime == old(startTime)
      ensures old(buffer).contents == []
    {
      var rs := readers.Values;
      while rs != {}
        invariant rs <= old(readers).Values
        invariant forall r :: r in old(readers).Values && r !in rs ==> r.stopped && !r.streamOpen
        invariant readers == old(readers) && buffer == old(buffer) && buffer.contents == old(buffer.contents)
        invariant currentCheckpoint == old(currentCheckpoint) && store == old(store) && startTime == old(startTime)
        decreases |rs|
      {
        var r :| r in rs;
        r.Close();
        rs := rs - {r};
      }
      readers := map[];
      buffer.Clear();
      buffer := new BoundedQueue(bufferSize);
    }

    /**
     * The body of `createPartitionReaders` for one collector directory,
     * partition `id`: its checkpoint entry is kept, or set to none where it
     * has none, and it gets a fresh engine with that position and its start
     * time.
     */
    method CreateReader(env: Environment, id: PartitionId, allowed: int)
      requires Valid() && WellFormed(env, topicName) && id.collector.Some?
      modifies this
      ensures Valid() && buffer == old(buffer) && store == old(store) && startTime == old(startTime)
      ensures currentCheckpoint == old(currentCheckpoint)[id := Lookup(old(currentCheckpoint), id)]
      ensures id in readers && readers == old(readers)[id := readers[id]] && fresh(readers[id])
      ensures EngineFor(readers[id], startTime, Lookup(old(currentCheckpoint), id), allowed)
      ensures (readers[id].localTier, readers[id].collectorTier) == TiersAt(env, id, topicName)
    {
      if Lookup(currentCheckpoint, id).None? {
        currentCheckpoint := currentCheckpoint[id := None];
      }
      var chk := currentCheckpoint[id];
      var partitionTimestamp := PartitionTimestamp(startTime, chk, allowed);
      var tiers := TiersAt(env, id, topicName);
      var reader := new PartitionReader(id, chk, tiers.0, tiers.1, buffer, topicName, partitionTimestamp);
      readers := readers[id := reader];
    }

    /**
     * The part of `createPartitionReaders` for one cluster `c`, whose stream
     * directory lists `collectors`: each collector gets a checkpoint entry
     * (none where it had none) and one fresh engine, keyed by its partition,
     * with its tiers, its position and its start time.
     */
    method CreateClusterReaders(env: Environment, c: string, collectors: seq<string>, allowed: int)
      requires Valid() && WellFormed(env, topicName)
      modifies this
      ensures Valid() && buffer == old(buffer) && store == old(store) && startTime == old(startTime)
      ensures var ids := Partitions(c, collectors);
              && readers.Keys == old(readers).Keys + ids
              && currentCheckpoint.Keys == old(currentCheckpoint).Keys + ids
              && (forall id :: id in currentCheckpoint ==> currentCheckpoint[id] == Lookup(old(currentCheckpoint), id))
              && (forall id :: id in old(readers) && id !in ids ==> readers[id] == old(readers)[id])
              && (forall id :: id in ids ==>
                    fresh(readers[id]) && EngineFor(readers[id], startTime, Lookup(old(currentCheckpoint), id), allowed))
    {
      var i := 0;
      ghost var ids: set<PartitionId> := {};
      while i < |collectors|
        invariant 0 <= i <= |collectors| && Valid()
        invariant buffer == old(buffer) && store == old(store) && startTime == old(startTime)
        invariant ids == Partitions(c, collectors[..i])
        invariant readers.Keys == old(readers).Keys + ids
        invariant currentCheckpoint.Keys == old(currentCheckpoint).Keys + ids
        invariant forall id :: id in currentCheckpoint ==> currentCheckpoint[id] == Lookup(old(currentCheckpoint), id)
        invariant forall id :: id in old(readers) && id !in ids ==> readers[id] == old(readers)[id]
        invariant forall id :: id in ids ==>
                    fresh(readers[id]) && EngineFor(readers[id], startTime, Lookup(old(currentCheckpoint), id), allowed)
      {
        var id := PartitionOf(c, collectors[i]);
        CreateReader(env, id, allowed);
        PartitionsSnoc(c, collectors, i);
        ids := ids + {id};
        i := i + 1;
      }
      assert collectors[..i] == collectors;
    }

    /**
     * The account `createPartitionReaders` keeps after visiting the clusters
     * `visited`, starting from the checkpoint `c0`: an engine for each of
     * their collector directories and no other, and a checkpoint entry for
     * each of these partitions besides those of `c0`, every entry as `c0`
     * gives it; each engine has its partition's position in `c0` and the
     * start time for its cluster's retention.
     */
    ghost predicate Created(env: Environment, visited: set<string>, c0: Checkpoint, retention: map<string, int>)
      reads this, readers.Values
    {
      && readers.Keys == PartitionsOf(env, visited)
      && currentCheckpoint.Keys == c0.Keys + PartitionsOf(env, visited)
      && (forall id :: id in currentCheckpoint ==> currentCheckpoint[id] == Lookup(c0, id))
      && (forall id :: id in readers ==>
            && id.cluster in visited && id.cluster in retention
            && EngineFor(readers[id], startTime, Lookup(c0, id), AllowedStartTime(env.now, retention[id.cluster])))
    }

    /** One pass of the creation loop, for a cluster `c` not yet visited that lists collector directories. */
    method VisitCluster(env: Environment, ghost visited: set<string>, c: string, ghost c0: Checkpoint,
                        retention: map<string, int>)
      requires Valid() && WellFormed(env, topicName) && Created(env, visited, c0, retention)
      requires c in env.collectorDirs && c !in visited && c in retention
      modifies this
      ensures Valid() && buffer == old(buffer) && store == old(store) && startTime == old(startTime)
      ensures Created(env, visited + {c}, c0, retention)
      ensures forall id :: id in readers ==> (id in old(readers) && readers[id] == old(readers)[id]) || fresh(readers[id])
    {
      var allowed := AllowedStartTime(env.now, retention[c]);
      ghost var readers0 := readers;
      ghost var checkpoint0 := currentCheckpoint;
      CreateClusterReaders(env, c, env.collectorDirs[c], allowed);
      ClusterStep(env, visited, c, c0, checkpoint0, currentCheckpoint);
      ReadersStep(env, visited, c, readers0, readers);
      forall id | id in readers
        ensures && id.cluster in visited + {c} && id.cluster in retention
                && EngineFor(readers[id], startTime, Lookup(c0, id), AllowedStartTime(env.now, retention[id.cluster]))
      {
        PartitionsListed(c, env.collectorDirs[c], id);
      }
    }

    /**
     * `createPartitionReaders`, with `start()`'s starting of the engines'
     * threads left out; it runs with no engines (at start, and after the
     * close of a reset).  An unknown topic is an error.  Otherwise the
     * clusters read are visited in some order, and each collector directory
     * of a visited cluster gets its checkpoint entry and its engine; the
     * first cluster found with no collector directory ends the creation, so
     * the clusters not yet visited get no engine.  `visited` is the set of
     * clusters whose engines were created.
     */
    method CreatePartitionReaders(env: Environment) returns (ok: bool, ghost visited: set<string>)
      requires Valid() && WellFormed(env, topicName) && readers == map[]
      modifies this
      ensures Valid() && buffer == old(buffer) && store == old(store) && startTime == old(startTime)
      ensures ok <==> topicName in env.sourceStreams
      ensures !ok ==> readers == map[] && currentCheckpoint == old(currentCheckpoint) && visited == {}
      ensures ok ==>
                var source := env.sourceStreams[topicName];
                var names := ClusterNames(clusters, source.sourceClusters);
                && visited <= names
                && (visited != names ==> exists c :: c in names && c !in visited && NoCollectorDirs(env, c))
                && readers.Keys == PartitionsOf(env, visited)
                && currentCheckpoint.Keys == old(currentCheckpoint).Keys + PartitionsOf(env, visited)
                && (forall id :: id in currentCheckpoint ==> currentCheckpoint[id] == Lookup(old(currentCheckpoint), id))
                && (forall id :: id in readers ==> fresh(readers[id]))
                && (forall id :: id in readers ==>
                      && id.cluster in visited
                      && EngineFor(readers[id], startTime, Lookup(old(currentCheckpoint), id),
                                   AllowedStartTime(env.now, source.retentionInHours[id.cluster])))
    {
      visited := {};
      if topicName !in env.sourceStreams {
        return false, visited;
      }
      ok := true;
      var source := env.sourceStreams[topicName];
      var names := SelectClusters(clusters, source.sourceClusters);
      var remaining := names;
      while remaining != {}
        invariant remaining + visited == names && remaining !! visited
        invariant Valid() && buffer == old(buffer) && store == old(store) && startTime == old(startTime)
        invariant Created(env, visited, old(currentCheckpoint), source.retentionInHours)
        invariant forall id :: id in readers ==> fresh(readers[id])
        decreases |remaining|
      {
        var c :| c in remaining;
        if c !in env.collectorDirs || |env.collectorDirs[c]| == 0 {
          return;
        }
        VisitCluster(env, visited, c, old(currentCheckpoint), source.retentionInHours);
        visited := visited + {c};
        remaining := remaining - {c};
      }
    }

    /**
     * `reset()`: the consumer is closed, the checkpoint stored under its key
     * becomes the in-memory one, the start time is dropped and the engines
     * are created again, so each resumes from its stored position.  Where
     * nothing is stored the checkpoint cannot be built: the consumer stays
     * closed with its checkpoint, and the result is false.
     */
    method Reset(env: Environment) returns (ok: bool, ghost visited: set<string>)
      requires Valid() && WellFormed(env, topicName)
      modifies this, buffer, readers.Values
      ensures Valid() && fresh(buffer) && buffer.contents == [] && store == old(store)
      ensures forall r :: r in old(readers).Values ==> r.stopped && !r.streamOpen
      ensures ok <==> ChkpointKey(consumerName, topicName) in store && topicName in env.sourceStreams
      ensures ChkpointKey(consumerName, topicName) !in store ==>
                readers == map[] && currentCheckpoint == old(currentCheckpoint) && startTime == old(startTime)
      ensures ChkpointKey(consumerName, topicName) in store ==>
                var stored := store[ChkpointKey(consumerName, topicName)];
                && startTime == None
                && (forall id :: id in currentCheckpoint ==> currentCheckpoint[id] == Lookup(stored, id))
                && (ok ==>
                      var source := env.sourceStreams[topicName];
                      var names := ClusterNames(clusters, source.sourceClusters);
                      && visited <= names
                      && (visited != names ==> exists c :: c in names && c !in visited && NoCollectorDirs(env, c))
                      && readers.Keys == PartitionsOf(env, visited)
                      && currentCheckpoint.Keys == stored.Keys + PartitionsOf(env, visited)
                      && (forall id :: id in readers ==> fresh(readers[id]))
                      && (forall id :: id in readers ==>
                            && id.cluster in visited
                            && EngineFor(readers[id], None, Lookup(stored, id),
                                         AllowedStartTime(env.now, source.retentionInHours[id.cluster]))))
    {
      Close();
      var key := ChkpointKey(consumerName, topicName);
      if key !in store {
        return false, {};
      }
      currentCheckpoint := store[key];
      startTime := None;
      ok, visited := CreatePartitionReaders(env);
    }
  }
}
