/**
 * The values the partition engines and the consumer exchange: partitions,
 * per-partition checkpoints, the consumer checkpoint, and the entries of the
 * shared buffer.
 */
module Checkpoints {

  import opened Wrappers
  import opened Tiers

  /** A partition: a cluster and, unless it is the merged stream of the cluster, a collector. */
  datatype PartitionId = PartitionId(cluster: string, collector: Option<string>)

  /** A partition's position: the file being read (absent in a checkpoint that names none) and the lines of it read. */
  datatype PartitionCheckpoint = PartitionCheckpoint(fileName: Option<string>, lineNum: nat)

  /** The consumer checkpoint: per partition, its position, or none yet. */
  type Checkpoint = map<PartitionId, Option<PartitionCheckpoint>>

  /** A message as queued: the line as read from the stream; its Base64 decoding is not part of this model. */
  datatype Message = Message(line: string)

  /** An entry of the shared buffer: the message, its partition and the position just after it. */
  datatype QueueEntry = QueueEntry(message: Message, partitionId: PartitionId, partitionChkpoint: PartitionCheckpoint)

  /** The entry a partition engine queues for a record it has read. */
  function EntryOf(id: PartitionId, rec: Record): QueueEntry {
    QueueEntry(Message(rec.line), id, PartitionCheckpoint(Some(rec.file), rec.lineNum))
  }

  /** The entries for a run of records, in order. */
  function Entries(id: PartitionId, rs: seq<Record>): (es: seq<QueueEntry>)
    ensures |es| == |rs|
  {
    if rs == [] then [] else Entries(id, rs[..|rs| - 1]) + [EntryOf(id, rs[|rs| - 1])]
  }

  /** Queuing one more record queues one more entry at the tail. */
  lemma EntriesSnoc(id: PartitionId, rs: seq<Record>, rec: Record)
    ensures Entries(id, rs + [rec]) == Entries(id, rs) + [EntryOf(id, rec)]
  {
    assert (rs + [rec])[..|rs|] == rs;
  }

  /** Entry `i` is the entry of record `i`. */
  lemma {:induction false} EntriesAt(id: PartitionId, rs: seq<Record>, i: nat)
    requires i < |rs|
    ensures Entries(id, rs)[i] == EntryOf(id, rs[i])
    decreases |rs|
  {
    if i < |rs| - 1 {
      EntriesAt(id, rs[..|rs| - 1], i);
    }
  }

  /** One line read and queued keeps the reading loop's account of what was read and queued. */
  lemma FillStep(id: PartitionId, all: seq<Record>, done: seq<Record>, reader: TierReader)
    requires Positioned(reader) && all == done + Remaining(reader) && ReadLine(reader).0.Some?
    ensures var rec := ReadLine(reader).0.value;
            && all == (done + [rec]) + Remaining(ReadLine(reader).1)
            && Entries(id, done + [rec]) == Entries(id, done) + [EntryOf(id, rec)]
  {
    var rec := ReadLine(reader).0.value;
    EntriesSnoc(id, done, rec);
    assert done + ([rec] + Remaining(ReadLine(reader).1)) == (done + [rec]) + Remaining(ReadLine(reader).1);
  }

  /** Splitting a sequence at the end of a prefix gives back the prefix and the rest. */
  lemma SplitAt<T>(all: seq<T>, a: seq<T>, b: seq<T>)
    requires all == a + b
    ensures all[..|a|] == a && all[|a|..] == b
  {
  }

  /** `Checkpoint.set`: the partition's position becomes `chk`, every other partition keeps its own. */
  function SetPosition(c: Checkpoint, id: PartitionId, chk: PartitionCheckpoint): (r: Checkpoint)
    ensures id in r && r[id] == Some(chk)
    ensures forall p :: p in c && p != id ==> p in r && r[p] == c[p]
    ensures r.Keys == c.Keys + {id}
  {
    c[id := Some(chk)]
  }
}
