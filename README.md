# Databus consumer: stream tailing and checkpoints

A model, in Dafny, of how the databus consumer of the messaging client
tails a stream. A stream's data lives on the clusters of a Hadoop file
system in two tiers:

- the collector directories `<dataDir>/<stream>/<collector>`, where each
  collector writes files named `<stream>-yyyy-MM-dd-HH-mm_NNNNN`;
- the local stream directory (and the merged one), in minute directories
  `yyyy/MM/dd/HH/mm`, holding the files `<collector>-<collector file>.gz`
  into which collector files are moved.

A *partition* is one cluster, or one collector of one cluster. A
partition reader reads its partition's files in order, one line at a time,
and puts each line into a bounded buffer with its partition checkpoint: the
file name and the number of lines read in it. The consumer takes entries
from the buffer, keeps the checkpoint of what it has handed out, and
stores, restores or rolls that checkpoint back.

The model covers:

- the stream file names and their order (`StreamFiles`, `Calendar`,
  `Strings`), and the sorted file map of a reader (`FileMaps`);
- the collector stream reader (`CollectorStreamReaders`), the databus
  stream reader and its `buildListing` walk over the minute directories
  (`DatabusStreamReaders`), and the waiting reader
  (`DatabusStreamWaitingReaders`), as classes over a file system snapshot
  (`FileSystems`);
- the generation-1 partition engine that reads the local stream, then
  the collector directory, then the local copies of moved collector files
  (`ConsumerPartitionReaders`), and its consumer (`DatabusConsumers`);
- the generation-2 partition reader (`PartitionReaders`) and the
  generation-2 consumer (`ConsumerDatabusConsumers`);
- a file tier read line by line with checkpoints (`Tiers`), which stands
  for the tier readers those engines drive, and the buffer
  (`BoundedQueues`) and checkpoint map (`Checkpoints`).

The main results are these:

- resuming from the checkpoint queued with any line yields exactly the
  lines after it (`Tiers.ReplayFromCheckpoint`,
  `ConsumerPartitionReaders.ReplayAfterReset`,
  `DatabusConsumers.MarkResetReplays`);
- `buildListing` lists exactly the minute directories of present hours
  from the build time up to now, each once and in order
  (`DatabusStreamReaders.WalkVisits`, `DatabusStreamReaders.WalkIncreasing`,
  `DatabusStreamReaders.BuildListingKeys`);
- the file names round-trip (`StreamFiles.CollectorFileRoundTrip`,
  `StreamFiles.DatabusFileRoundTrip`, `Calendar.MinuteDirRoundTrip`);
- every reading loop queues exactly the entries of the lines it read, in
  order (`PartitionReaders.PartitionReader.Execute`,
  `ConsumerPartitionReaders.PartitionReader.Execute`).

## Model

| member | source | states |
|---|---|---|
| Strings.JavaSplit | messaging-client-databus/src/main/java/com/inmobi/messaging/consumer/databus/DatabusConsumer.java:114-117 | splitting the configured cluster list at commas: a string with no comma is its own single piece, and no piece holds a comma |
| Strings.LessTotal | messaging-client-databus/src/main/java/com/inmobi/databus/readers/CollectorStreamReader.java:88-91 | file names compare as `String.compareTo` does: any two names are equal or one sorts before the other |
| Strings.LessTransitive | messaging-client-databus/src/main/java/com/inmobi/databus/readers/CollectorStreamReader.java:88-91 | the string order is transitive |
| Strings.PaddedRoundTrip | messaging-client-databus/src/main/java/com/inmobi/databus/readers/CollectorStreamReader.java:221-223 | the zero-padded sequence number of a collector file reads back as the number |
| Calendar.CivilRoundTrip | messaging-client-databus/src/main/java/com/inmobi/databus/readers/DatabusStreamReader.java:277-293 | converting a minute to year, month, day, hour and minute (UTC, Gregorian) and back gives the same minute |
| Calendar.FieldsRoundTrip | messaging-client-databus/src/main/java/com/inmobi/databus/readers/DatabusStreamReader.java:277-293 | the printed date fields read back as the date when it is valid; the model reads invalid fields as nothing |
| Calendar.MinuteDirRoundTrip | messaging-client-databus/src/main/java/com/inmobi/databus/readers/DatabusStreamReader.java:236-245 | the minute directory name of an instant, alone or followed by `/` and more, parses back to the start of that minute |
| Calendar.ParseMinuteDir | messaging-client-databus/src/main/java/com/inmobi/databus/readers/DatabusStreamReader.java:240 | any date read from a directory name is the start of a minute |
| Calendar.HourDirNameOfHour | messaging-client-databus/src/main/java/com/inmobi/databus/readers/DatabusStreamReader.java:107-108 | two instants in the same hour have the same hour directory |
| Calendar.NextHourStart | messaging-client-databus/src/main/java/com/inmobi/databus/readers/DatabusStreamReader.java:129-130 | moving to the next hour and minute 0 gives an instant in the next hour, later than the given one, with its seconds and milliseconds kept |
| Calendar.NextMinuteHour | messaging-client-databus/src/main/java/com/inmobi/databus/readers/DatabusStreamReader.java:111-116 | a minute later the hour of day is unchanged exactly when the hour is unchanged, so the inner loop of `buildListing` stays within one hour |
| StreamFiles.KeyBeforeIrreflexive | messaging-client-databus/src/main/java/com/inmobi/databus/readers/DatabusStreamReader.java:79-82 | no file sorts before itself in a reader's file map |
| StreamFiles.KeyBeforeTransitive | messaging-client-databus/src/main/java/com/inmobi/databus/readers/DatabusStreamReader.java:79-82 | the file order is transitive |
| StreamFiles.KeyBeforeTotal | messaging-client-databus/src/main/java/com/inmobi/databus/readers/CollectorStreamReader.java:88-91 | any two files are equal or one sorts before the other |
| StreamFiles.KeyBeforeAsymmetric | messaging-client-databus/src/main/java/com/inmobi/databus/readers/CollectorStreamReader.java:88-91 | two files never sort before each other |
| StreamFiles.CollectorFileRoundTrip | messaging-client-databus/src/main/java/com/inmobi/databus/readers/CollectorStreamReader.java:216-219 | every collector file name parses back to the file it names |
| StreamFiles.CollectorFileNameInjective | messaging-client-databus/src/main/java/com/inmobi/databus/readers/CollectorStreamReader.java:221-223 | distinct collector files have distinct names |
| StreamFiles.GetCollectorFileName | messaging-client-databus/src/main/java/com/inmobi/databus/readers/CollectorStreamReader.java:221-223 | the name for a date is the collector file of that date's minute with sequence number 0 |
| StreamFiles.CollectorAcceptsCollectorFiles | messaging-client-databus/src/main/java/com/inmobi/databus/readers/CollectorStreamReader.java:60-70 | the collector directory filter (`_current`, `_stats`) never rejects a collector file |
| StreamFiles.DatabusFileRoundTrip | messaging-client-databus/src/main/java/com/inmobi/databus/readers/DatabusStreamReader.java:267-270 | every stream file name parses back, for its own stream, to the file it names |
| StreamFiles.LocalNameParses | messaging-client-databus/src/main/java/com/inmobi/databus/readers/DatabusStreamReader.java:272-275 | `collector-<collector file>.gz` parses as that collector's copy of that collector file |
| StreamFiles.LocalNameIsNotCollectorFile | messaging-client-databus/src/main/java/com/inmobi/databus/readers/DatabusStreamReader.java:272-275 | the local name of a collector file is never taken for a collector file |
| StreamFiles.GetDatabusStreamFileNameAt | messaging-client-databus/src/main/java/com/inmobi/databus/readers/DatabusStreamReader.java:256-265 | the stream file name for a date parses as the file of that minute, sequence number 0, extension `gz` |
| StreamFiles.CollectorFileNameOf | messaging-client-databus/src/main/java/com/inmobi/databus/readers/CollectorStreamReader.java:210-214 | the collector file name is found in exactly the names that are stream files of the stream |
| StreamFiles.CollectorFileNameOfLocal | messaging-client-databus/src/main/java/com/inmobi/databus/readers/CollectorStreamReader.java:210-214 | taking the collector file out of the local name of a collector file gives that collector file's name back |
| StreamFiles.DateFromStreamDirOfFile | messaging-client-databus/src/main/java/com/inmobi/databus/readers/DatabusStreamReader.java:236-245 | the date read from a file inside a minute directory is the start of that minute |
| StreamFiles.DateFromStreamDirOfDir | messaging-client-databus/src/main/java/com/inmobi/databus/readers/DatabusStreamReader.java:236-245 | the date read from a minute directory itself is the start of that minute |
| FileMaps.Add | messaging-client-databus/src/main/java/com/inmobi/databus/readers/DatabusStreamReader.java:121-123 | putting a file into the map keeps it sorted; the new entry replaces the one with its key and every other entry stays |
| FileMaps.HasKeyAdd | messaging-client-databus/src/main/java/com/inmobi/databus/readers/CollectorStreamReader.java:81-84 | after a put the map holds a key exactly when it is the new one or was held before |
| FileMaps.IndexOf | messaging-client-databus/src/main/java/com/inmobi/databus/readers/CollectorStreamReader.java:165 | the position found holds the key, and none is found exactly when the key is absent |
| FileMaps.IndexOfUnique | messaging-client-databus/src/main/java/com/inmobi/databus/readers/CollectorStreamReader.java:165 | in a sorted map the entry with a given key is unique |
| FileMaps.Higher | messaging-client-databus/src/main/java/com/inmobi/databus/readers/DatabusStreamReader.java:196-204 | `higherEntry`: the first entry above the key, with none above it before; none only when no entry lies above |
| FileMaps.HigherIsLeast | messaging-client-databus/src/main/java/com/inmobi/databus/readers/DatabusStreamReader.java:196-204 | in a sorted map the entry found lies at or before every entry above the key |
| FileMaps.Successor | messaging-client-databus/src/main/java/com/inmobi/databus/readers/CollectorStreamReader.java:158-160 | the iterator's next entry follows the current key's entry; none when the key is absent or last |
| FileMaps.SuccessorIsHigher | messaging-client-databus/src/main/java/com/inmobi/databus/readers/CollectorStreamReader.java:158-160 | for a file in the map, the next file and the next higher file are the same |
| FileMaps.WithinMissingHasHigher | messaging-client-databus/src/main/java/com/inmobi/databus/readers/CollectorStreamReader.java:194-199 | a file within the map's range that is missing from it has a next higher file |
| FileSystems.ListStatus | messaging-client-databus/src/main/java/com/inmobi/databus/readers/CollectorStreamReader.java:74-86 | a listing exists exactly for an existing directory |
| FileSystems.Open | messaging-client-databus/src/main/java/com/inmobi/databus/readers/DatabusStreamReader.java:153-174 | a file opens exactly when it exists, at its first line |
| FileSystems.ReadOne | messaging-client-databus/src/main/java/com/inmobi/databus/readers/DatabusStreamReader.java:184-194 | reading gives the line at the position and moves past it; at the end it gives nothing and changes nothing |
| FileSystems.Skip | messaging-client-databus/src/main/java/com/inmobi/databus/readers/CollectorStreamReader.java:128-137 | skipping `n` lines moves `n` lines on, stopping at the end |
| FileSystems.Seek | messaging-client-databus/src/main/java/com/inmobi/databus/readers/CollectorStreamReader.java:144-147 | a seek moves to the offset and keeps the file's lines |
| BoundedQueues.BoundedQueue.constructor | messaging-client-databus/src/main/java/com/inmobi/messaging/consumer/databus/DatabusConsumer.java:108 | a new buffer is empty, with the given capacity |
| BoundedQueues.BoundedQueue.RemainingCapacity | messaging-client-databus/src/main/java/com/inmobi/messaging/consumer/databus/PartitionReader.java:189 | the room left and the entries held add up to the capacity; no room means full |
| BoundedQueues.BoundedQueue.Offer | messaging-client-databus/src/main/java/com/inmobi/messaging/consumer/databus/PartitionReader.java:195-200 | an entry is added at the tail exactly when there is room; otherwise nothing changes |
| BoundedQueues.BoundedQueue.Take | messaging-client-databus/src/main/java/com/inmobi/messaging/consumer/databus/DatabusConsumer.java:176-186 | the head is removed and returned; an empty buffer gives nothing |
| BoundedQueues.BoundedQueue.Clear | messaging-client-databus/src/main/java/com/inmobi/messaging/consumer/databus/DatabusConsumer.java:283-291 | the buffer is emptied |
| Checkpoints.EntriesAt | messaging-client-databus/src/main/java/com/inmobi/messaging/consumer/databus/PartitionReader.java:193-198 | the i-th entry queued for a run of lines is the i-th line with its partition and its position |
| Checkpoints.FillStep | messaging-client-databus/src/main/java/com/inmobi/messaging/consumer/databus/PartitionReader.java:190-198 | reading one line and queueing it keeps the account: lines read plus lines remaining are all lines, and the queue grows by that line's entry |
| Checkpoints.SetPosition | messaging-client-databus/src/main/java/com/inmobi/messaging/consumer/databus/DatabusConsumer.java:184 | the partition's position becomes the entry's; every other partition keeps its own, and no partition is lost |
| Tiers.ReadLine | messaging-client-databus/src/main/java/com/inmobi/messaging/consumer/databus/PartitionReader.java:190-198 | a read yields the first remaining line with its file and the line count just after it, and leaves the rest; nothing only when nothing remains |
| Tiers.Exhausted | messaging-client-databus/src/main/java/com/inmobi/messaging/consumer/databus/PartitionReader.java:189-202 | once everything is read, the reader is at the end of the last file with nothing remaining |
| Tiers.InitFromStart | messaging-client-databus/src/main/java/com/inmobi/messaging/consumer/databus/PartitionReader.java:148-157 | a reader over a non-empty tier starts at the first line of the first file and yields every line of the tier |
| Tiers.SetCurrentFile | messaging-client-databus/src/main/java/com/inmobi/messaging/consumer/databus/PartitionReader.java:218-222 | the checkpointed file is found at its line when the tier holds a file with its key, and nothing is found otherwise |
| Tiers.InitFromCheckpoint | messaging-client-databus/src/main/java/com/inmobi/databus/readers/DatabusStreamReader.java:140-151 | there is no reader exactly when the named file is missing and does not sort before the whole tier |
| Tiers.ResumeAt | messaging-client-databus/src/main/java/com/inmobi/databus/readers/DatabusStreamReader.java:140-151 | resuming from a file of the tier places the reader at that file and line |
| Tiers.BeforeTierReadsAll | messaging-client-databus/src/main/java/com/inmobi/databus/readers/DatabusStreamReader.java:140-151 | a checkpoint in a file older than the whole tier reads the whole tier |
| Tiers.MissingNotBeforeGivesNothing | messaging-client-databus/src/main/java/com/inmobi/databus/readers/DatabusStreamReader.java:140-151 | a checkpoint in a missing file that is not older than the tier gives no reader |
| Tiers.InitFromTimestamp | messaging-client-databus/src/main/java/com/inmobi/messaging/consumer/databus/PartitionReader.java:109-120 | from a timestamp, the reader starts at line 0 of the first file not older than it; there is none only when every file is older |
| Tiers.ReplayFromCheckpoint | messaging-client-databus/src/main/java/com/inmobi/messaging/consumer/databus/PartitionReader.java:122-146 | resuming from the checkpoint of any line the reader yields yields exactly the lines after it, none repeated and none skipped |
| Tiers.ThreeFilesFromCheckpoint | messaging-client-databus/src/test/java/com/inmobi/databus/partition/TestPartitionReaderCollectorStream.java:117-130 | three files of 100 lines, checkpoint (second file, 20): lines 20 to 99 of the second file, then all of the third, 180 in all |
| CollectorStreamReaders.BuiltMap | messaging-client-databus/src/main/java/com/inmobi/databus/readers/CollectorStreamReader.java:106-108 | a build leaves the map sorted, and empty when the directory is missing |
| CollectorStreamReaders.AddNamesKeys | messaging-client-databus/src/main/java/com/inmobi/databus/readers/CollectorStreamReader.java:74-86 | listing names adds exactly the collector files among them the filter accepts |
| CollectorStreamReaders.BuiltMapKeys | messaging-client-databus/src/main/java/com/inmobi/databus/readers/CollectorStreamReader.java:74-86 | after a build the map holds exactly the accepted collector files of the directory |
| CollectorStreamReaders.NextFileIsNextHigher | messaging-client-databus/src/main/java/com/inmobi/databus/readers/CollectorStreamReader.java:158-160 | the next file read is the least file above the current one |
| CollectorStreamReaders.WaitsOnlyOnNewestFile | messaging-client-databus/src/main/java/com/inmobi/databus/readers/CollectorStreamReader.java:160-176 | the reader waits for a flush only on the newest file in the directory |
| CollectorStreamReaders.NextHigherExists | messaging-client-databus/src/main/java/com/inmobi/databus/readers/CollectorStreamReader.java:165-169 | when the current file has gone but lies within the map's range, a next higher file exists to move to |
| CollectorStreamReaders.MovedOnlyPastTheEnd | messaging-client-databus/src/main/java/com/inmobi/databus/readers/CollectorStreamReader.java:165-174 | the reader leaves the collector directory only when its file has gone and lies outside the map's range |
| CollectorStreamReaders.ReopenIgnoresLineCount | messaging-client-databus/src/main/java/com/inmobi/databus/readers/CollectorStreamReader.java:128-147 | a first open skips to the line count, a reopen seeks to the offset whatever the count |
| CollectorStreamReaders.CollectorStreamReader.constructor | messaging-client-databus/src/main/java/com/inmobi/databus/readers/CollectorStreamReader.java:35-44 | a new reader has an empty map, no current file and no open stream |
| CollectorStreamReaders.CollectorStreamReader.InitCurrentFile | messaging-client-databus/src/main/java/com/inmobi/databus/readers/CollectorStreamReader.java:46-49 | the current file is forgotten and the next open skips lines rather than seeking |
| CollectorStreamReaders.CollectorStreamReader.ResetCurrentFileSettings | messaging-client-databus/src/main/java/com/inmobi/databus/readers/CollectorStreamReader.java:123-126 | a new file is read from line 0 and offset 0 |
| CollectorStreamReaders.CollectorStreamReader.SkipOldDataOf | messaging-client-databus/src/main/java/com/inmobi/databus/readers/CollectorStreamReader.java:128-137 | a reopened file seeks to the recorded offset, a first open skips the lines read; afterwards the stream counts as opened |
| CollectorStreamReaders.CollectorStreamReader.OpenCurrentFile | messaging-client-databus/src/main/java/com/inmobi/databus/readers/CollectorStreamReader.java:128-137 | the current file is opened at the place reading stopped, or from the start for a next file; a missing file leaves no stream |
| CollectorStreamReaders.CollectorStreamReader.Build | messaging-client-databus/src/main/java/com/inmobi/databus/readers/CollectorStreamReader.java:106-108 | the map becomes the listing of the collector directory; nothing else changes |
| CollectorStreamReaders.CollectorStreamReader.ReadFromStream | messaging-client-databus/src/main/java/com/inmobi/databus/readers/CollectorStreamReader.java:155-157 | a read yields the next line of the open stream and counts it |
| CollectorStreamReaders.CollectorStreamReader.NextFile | messaging-client-databus/src/main/java/com/inmobi/databus/readers/CollectorStreamReader.java:159-160 | the reader moves to the file after the current one exactly when the map has one, and opens it from its start |
| CollectorStreamReaders.CollectorStreamReader.SetIterator | messaging-client-databus/src/main/java/com/inmobi/databus/readers/CollectorStreamReader.java:165 | true exactly when the current file is still in the map |
| CollectorStreamReaders.CollectorStreamReader.StillInCollectorStream | messaging-client-databus/src/main/java/com/inmobi/databus/readers/CollectorStreamReader.java:194-199 | true exactly when the current file lies within the map's range |
| CollectorStreamReaders.CollectorStreamReader.StartFromNextHigher | messaging-client-databus/src/main/java/com/inmobi/databus/readers/CollectorStreamReader.java:165-170 | the reader moves to the least file above the current one when there is one, and opens it from its start; it stays otherwise |
| CollectorStreamReaders.CollectorStreamReader.WaitForFlushAndReOpen | messaging-client-databus/src/main/java/com/inmobi/databus/readers/CollectorStreamReader.java:188-192 | the same file is reopened where reading stopped |
| CollectorStreamReaders.CollectorStreamReader.AtEndOfFile | messaging-client-databus/src/main/java/com/inmobi/databus/readers/CollectorStreamReader.java:158-181 | at end of file the map is rebuilt; the reader gives up, with its file and position kept, exactly in the no-new-files and moved-to-local cases; otherwise it opens the file after the current one or the least one above it from the start, or reopens the current one where reading stopped |
| CollectorStreamReaders.CollectorStreamReader.ReadLine | messaging-client-databus/src/main/java/com/inmobi/databus/readers/CollectorStreamReader.java:153-186 | a returned line is the line just read from the stream of the current file, with the offset after it recorded; null only when the reader gives up; the open stream stays on the current file |
| CollectorStreamReaders.CollectorStreamReader.NextLine | messaging-client-databus/src/main/java/com/inmobi/databus/readers/CollectorStreamReader.java:158-183 | a line read after the end of a file is the line before the position of the stream of the current file; a give-up reads nothing |
| DatabusStreamReaders.HoursPresentOf | messaging-client-databus/src/main/java/com/inmobi/databus/readers/DatabusStreamReader.java:107-110 | whether an hour directory exists depends only on the hour |
| DatabusStreamReaders.WalkVisits | messaging-client-databus/src/main/java/com/inmobi/databus/readers/DatabusStreamReader.java:101-133 | the minutes listed are exactly those a whole number of minutes after the build time, before now, in an existing hour directory |
| DatabusStreamReaders.WalkIncreasing | messaging-client-databus/src/main/java/com/inmobi/databus/readers/DatabusStreamReader.java:101-133 | each minute directory is listed once, in increasing order of time |
| DatabusStreamReaders.NextHourStartLeast | messaging-client-databus/src/main/java/com/inmobi/databus/readers/DatabusStreamReader.java:126-131 | skipping a missing hour skips no minute of a later hour |
| DatabusStreamReaders.AddPathKeys | messaging-client-databus/src/main/java/com/inmobi/databus/readers/DatabusStreamReader.java:121-123 | adding a listed file adds exactly the key of a file of the stream it names |
| DatabusStreamReaders.CollectKeys | messaging-client-databus/src/main/java/com/inmobi/databus/readers/DatabusStreamReader.java:117-124 | listing directories in turn adds exactly the stream's files they list |
| DatabusStreamReaders.BuildListingKeys | messaging-client-databus/src/main/java/com/inmobi/databus/readers/DatabusStreamReader.java:101-133 | after `buildListing` the map holds exactly the old files and the stream's files of every visited minute directory |
| DatabusStreamReaders.AddPaths | messaging-client-databus/src/main/java/com/inmobi/databus/readers/DatabusStreamReader.java:121-123 | the loop over a directory's files adds them as the specification says |
| DatabusStreamReaders.ListMinute | messaging-client-databus/src/main/java/com/inmobi/databus/readers/DatabusStreamReader.java:117-124 | listing one minute directory adds the stream's files it lists; a missing one adds nothing |
| DatabusStreamReaders.MinuteListed | messaging-client-databus/src/main/java/com/inmobi/databus/readers/DatabusStreamReader.java:111-125 | one turn of the inner loop lists that minute and leaves the rest of the walk to do |
| DatabusStreamReaders.ListMinutesOfHour | messaging-client-databus/src/main/java/com/inmobi/databus/readers/DatabusStreamReader.java:111-125 | the inner loop stops at the first instant at or after now or in another hour, having listed what the walk lists for that hour |
| DatabusStreamReaders.BuildListing | messaging-client-databus/src/main/java/com/inmobi/databus/readers/DatabusStreamReader.java:101-133 | the map built is the listing of every minute directory of the walk |
| DatabusStreamReaders.CollectFrom | messaging-client-databus/src/main/java/com/inmobi/databus/readers/DatabusStreamReader.java:117-124 | every entry added is a file listed in a visited minute directory |
| DatabusStreamReaders.BuiltListingPlaced | messaging-client-databus/src/main/java/com/inmobi/databus/readers/DatabusStreamWaitingReader.java:55-56 | every file a build puts into the map yields a date for the next rebuild |
| DatabusStreamReaders.BuiltListing | messaging-client-databus/src/main/java/com/inmobi/databus/readers/DatabusStreamReader.java:96-99 | the built map is sorted and every file in it lies in a dated directory |
| DatabusStreamReaders.DatabusStreamReader.constructor | messaging-client-databus/src/main/java/com/inmobi/databus/readers/DatabusStreamReader.java:43-58 | a new reader is open, with an empty map, no current file and no build time |
| DatabusStreamReaders.DatabusStreamReader.Build | messaging-client-databus/src/main/java/com/inmobi/databus/readers/DatabusStreamReader.java:96-99 | the map becomes the listing from the build time up to the file system's clock |
| DatabusStreamReaders.DatabusStreamReader.BuildFrom | messaging-client-databus/src/main/java/com/inmobi/databus/readers/DatabusStreamReader.java:96-99 | the build time is set and the map built from it; a missing date fails and leaves the map empty |
| DatabusStreamReaders.DatabusStreamReader.InitializeCurrentFile | messaging-client-databus/src/main/java/com/inmobi/databus/readers/DatabusStreamReader.java:140-151 | the checkpointed file at its line when the map holds it, the first file at line 0 when it sorts before the map, and failure otherwise |
| DatabusStreamReaders.DatabusStreamReader.InitFromStart | messaging-client-databus/src/main/java/com/inmobi/databus/readers/DatabusStreamReader.java:145-148 | the first file at line 0 when the map is not empty |
| DatabusStreamReaders.DatabusStreamReader.CloseCurrentFile | messaging-client-databus/src/main/java/com/inmobi/databus/readers/DatabusStreamReader.java:176-182 | the open file is dropped; nothing else changes |
| DatabusStreamReaders.DatabusStreamReader.OpenCurrentFile | messaging-client-databus/src/main/java/com/inmobi/databus/readers/DatabusStreamReader.java:153-174 | the record reader is the current file opened with the lines already read skipped (`OpenedAt`), from line 0 for a next file; a missing file leaves none open |
| DatabusStreamReaders.DatabusStreamReader.ReadRawLine | messaging-client-databus/src/main/java/com/inmobi/databus/readers/DatabusStreamReader.java:184-194 | the next line of the open file, nothing at its end or with no file open |
| DatabusStreamReaders.DatabusStreamReader.ReadFromStream | messaging-client-databus/src/main/java/com/inmobi/databus/readers/DatabusStreamWaitingReader.java:46-50 | a line read is the current file's line at the new line count |
| DatabusStreamReaders.DatabusStreamReader.NextFile | messaging-client-databus/src/main/java/com/inmobi/databus/readers/DatabusStreamWaitingReader.java:53 | the reader moves to the file after the current one exactly when the map has one, and opens it from line 0 |
| DatabusStreamReaders.DatabusStreamReader.SetNextHigherAndOpen | messaging-client-databus/src/main/java/com/inmobi/databus/readers/DatabusStreamReader.java:196-204 | the reader moves to the least file above the given one exactly when the map has one, and opens it from line 0 |
| DatabusStreamReaders.DatabusStreamReader.Close | messaging-client-databus/src/main/java/com/inmobi/databus/readers/DatabusStreamReader.java:176-182 | the reader is closed and its file with it |
| DatabusStreamWaitingReaders.GivesUpOnlyWithoutNewFiles | messaging-client-databus/src/main/java/com/inmobi/databus/readers/DatabusStreamWaitingReader.java:57-61 | the reader gives up only in the no-new-files mode, with no next file before or after the rebuild |
| DatabusStreamWaitingReaders.NoJumpWhileListed | messaging-client-databus/src/main/java/com/inmobi/databus/readers/DatabusStreamWaitingReader.java:51-74 | while its file is still listed the reader never jumps; it waits only on the newest file |
| DatabusStreamWaitingReaders.MovesToLeastAbove | messaging-client-databus/src/main/java/com/inmobi/databus/readers/DatabusStreamWaitingReader.java:53-57 | every move at end of file is to the least file above the current one |
| DatabusStreamWaitingReaders.WaitForNextFileCreation | messaging-client-databus/src/main/java/com/inmobi/databus/readers/DatabusStreamWaitingReader.java:36-43 | the wait ends with the least file above the given one opened from line 0 in the last snapshot taken, or, with file, line and stream kept, when the reader is closed or the snapshots run out |
| DatabusStreamWaitingReaders.StartFromNextHigher | messaging-client-databus/src/main/java/com/inmobi/databus/readers/DatabusStreamWaitingReader.java:25-34 | a next higher file is opened from line 0 at once when the map has one; otherwise the reader returns in the no-new-files mode and waits in the other |
| DatabusStreamWaitingReaders.AtEndOfFile | messaging-client-databus/src/main/java/com/inmobi/databus/readers/DatabusStreamWaitingReader.java:51-71 | at end of file the reader opens the next file, else rebuilds and opens the next one, else gives up with file, line and stream kept, or opens the next higher file, waiting if need be; each file opened is read from line 0 of the snapshot it was found in |
| DatabusStreamWaitingReaders.NextLine | messaging-client-databus/src/main/java/com/inmobi/databus/readers/DatabusStreamWaitingReader.java:51-72 | a line read after the end of a file comes from the stream of the current file, at the line count |
| DatabusStreamWaitingReaders.ReadLine | messaging-client-databus/src/main/java/com/inmobi/databus/readers/DatabusStreamWaitingReader.java:46-75 | a returned line comes from the stream of the current file, at the line count; null only in the no-new-files mode |
| PartitionReaders.SelectVariant | messaging-client-databus/src/main/java/com/inmobi/databus/partition/PartitionReader.java:59-78 | a partition without a collector gets a cluster reader over the local or the final stream directory, one with a collector a collector reader over its directory and the local one |
| PartitionReaders.InitializeCurrentFile | messaging-client-databus/src/main/java/com/inmobi/databus/partition/PartitionReader.java:155-160 | a start time starts at the first file not older than it; otherwise the checkpointed file is resumed, and a missing one fails |
| PartitionReaders.StartTimeWins | messaging-client-databus/src/main/java/com/inmobi/databus/partition/PartitionReader.java:155-160 | whatever the checkpoint, a start time reads from line 0 of the first file of its minute or later |
| PartitionReaders.OldCheckpointReadsAll | messaging-client-databus/src/main/java/com/inmobi/databus/partition/PartitionReader.java:155-160 | a checkpoint in a file older than the stream reads the whole stream |
| PartitionReaders.MissingCheckpointFails | messaging-client-databus/src/main/java/com/inmobi/databus/partition/PartitionReader.java:155-160 | a checkpoint in a file missing within or after the stream makes the initialisation fail |
| PartitionReaders.ThreeFilesScenario | messaging-client-databus/src/test/java/com/inmobi/databus/partition/TestAbstractClusterReader2.java:210-227 | three files of 100 lines, checkpoint (second file, 20): lines 20 to 99 of the second file, then all of the third, each with its position |
| PartitionReaders.Put | messaging-client-databus/src/main/java/com/inmobi/databus/partition/PartitionReader.java:193-196 | the entry is queued at the tail, or handed back when the buffer is full |
| PartitionReaders.PutAll | messaging-client-databus/src/main/java/com/inmobi/databus/partition/PartitionReader.java:188-201 | the loop queues exactly the entries of the lines read, in order, and stops at the end of the stream or at a full buffer |
| PartitionReaders.PartitionReader.constructor | messaging-client-databus/src/main/java/com/inmobi/databus/partition/PartitionReader.java:103-115 | a new engine is neither initialised nor stopped, with its partition, position, buffer and reader |
| PartitionReaders.PartitionReader.Init | messaging-client-databus/src/main/java/com/inmobi/databus/partition/PartitionReader.java:155-160 | the stream reader is positioned once; a failed initialisation leaves the engine uninitialised |
| PartitionReaders.PartitionReader.Close | messaging-client-databus/src/main/java/com/inmobi/databus/partition/PartitionReader.java:162-172 | the engine stops and its stream is closed |
| PartitionReaders.PartitionReader.Execute | messaging-client-databus/src/main/java/com/inmobi/databus/partition/PartitionReader.java:182-211 | every line read is queued with its partition and position, in order, until the stream runs out or the buffer is full; the stream is closed on the way out |
| PartitionReaders.NewPartitionReader | messaging-client-databus/src/main/java/com/inmobi/databus/partition/PartitionReader.java:50-84 | with neither a start time nor a checkpoint there is no engine; otherwise the engine reads through the reader chosen for its partition |
| PartitionReaders.NewStreamDirPartitionReader | messaging-client-databus/src/main/java/com/inmobi/databus/partition/PartitionReader.java:86-101 | the same guard, then a cluster reader over the given directory |
| ConsumerPartitionReaders.FromTimestamp | messaging-client-databus/src/main/java/com/inmobi/messaging/consumer/databus/PartitionReader.java:109-120 | the reader found reads the tier its kind names |
| ConsumerPartitionReaders.FromCheckpoint | messaging-client-databus/src/main/java/com/inmobi/messaging/consumer/databus/PartitionReader.java:122-146 | the reader found reads the tier its kind names |
| ConsumerPartitionReaders.FromStart | messaging-client-databus/src/main/java/com/inmobi/messaging/consumer/databus/PartitionReader.java:148-157 | there is no reader exactly when both tiers are empty |
| ConsumerPartitionReaders.InitialReader | messaging-client-databus/src/main/java/com/inmobi/messaging/consumer/databus/PartitionReader.java:159-168 | a start time wins over a checkpoint, and a checkpoint naming a file over the start |
| ConsumerPartitionReaders.SwitchTier | messaging-client-databus/src/main/java/com/inmobi/messaging/consumer/databus/PartitionReader.java:202-232 | after the local stream the engine reads the collector tier, after the collector tier the local one |
| ConsumerPartitionReaders.ReplayAfterReset | messaging-client-databus/src/main/java/com/inmobi/messaging/consumer/databus/PartitionReader.java:122-146 | restarted from the checkpoint of any line the engine yields, it reads the same tier on from just after that line |
| ConsumerPartitionReaders.FromCheckpointLocal | messaging-client-databus/src/main/java/com/inmobi/messaging/consumer/databus/PartitionReader.java:138-142 | a local stream file name resumes in the local stream |
| ConsumerPartitionReaders.FromCheckpointCollector | messaging-client-databus/src/main/java/com/inmobi/messaging/consumer/databus/PartitionReader.java:124-126 | a collector file still in the collector directory resumes there |
| ConsumerPartitionReaders.LocalRecordName | messaging-client-databus/src/main/java/com/inmobi/messaging/consumer/databus/PartitionReader.java:138-142 | a line read from the local stream names a local stream file, never taken for a collector file |
| ConsumerPartitionReaders.CollectorRecordName | messaging-client-databus/src/main/java/com/inmobi/messaging/consumer/databus/PartitionReader.java:124-126 | a line read from the collector directory names a collector file |
| ConsumerPartitionReaders.CheckpointInMovedFile | messaging-client-databus/src/main/java/com/inmobi/messaging/consumer/databus/PartitionReader.java:124-137 | a checkpoint in a collector file since moved resumes in its local copy at the checkpointed line |
| ConsumerPartitionReaders.LocalCopyFound | messaging-client-databus/src/main/java/com/inmobi/messaging/consumer/databus/PartitionReader.java:218-222 | the local name of a collector file finds its local copy |
| ConsumerPartitionReaders.MigrationResumesInCopy | messaging-client-databus/src/main/java/com/inmobi/messaging/consumer/databus/PartitionReader.java:214-230 | after the collector tier the engine reads on in the local copy of its file from the same line, then the later local files |
| ConsumerPartitionReaders.Fill | messaging-client-databus/src/main/java/com/inmobi/messaging/consumer/databus/PartitionReader.java:189-201 | the loop queues exactly the entries of the lines read, in order, and runs out only when unstopped with room left |
| ConsumerPartitionReaders.PartitionReader.constructor | messaging-client-databus/src/main/java/com/inmobi/messaging/consumer/databus/PartitionReader.java:34-61 | the current reader is the one `initializeCurrentFile` chooses |
| ConsumerPartitionReaders.PartitionReader.Close | messaging-client-databus/src/main/java/com/inmobi/messaging/consumer/databus/PartitionReader.java:97-107 | the engine stops and the current stream is closed |
| ConsumerPartitionReaders.PartitionReader.Execute | messaging-client-databus/src/main/java/com/inmobi/messaging/consumer/databus/PartitionReader.java:181-245 | every line read is queued with its partition and position, in order, while there is room; when the tier runs out the engine switches tier |
| DatabusConsumers.TiersAt | messaging-client-databus/src/main/java/com/inmobi/messaging/consumer/databus/DatabusConsumer.java:229-253 | every partition's tiers hold the stream's files and the collector files |
| DatabusConsumers.ChkpointKeysDistinct | messaging-client-databus/src/main/java/com/inmobi/messaging/consumer/databus/DatabusConsumer.java:259-261 | two consumers whose names have no `_` never share a stored checkpoint for one topic |
| DatabusConsumers.ClusterNames | messaging-client-databus/src/main/java/com/inmobi/messaging/consumer/databus/DatabusConsumer.java:203-213 | the clusters read are the configured source clusters of the stream, or all of them with none configured |
| DatabusConsumers.SelectClusters | messaging-client-databus/src/main/java/com/inmobi/messaging/consumer/databus/DatabusConsumer.java:203-213 | the loop picks exactly those clusters |
| DatabusConsumers.PartitionTimestamp | messaging-client-databus/src/main/java/com/inmobi/messaging/consumer/databus/DatabusConsumer.java:236-249 | a start time is never before the earliest time kept; there is none exactly when the partition resumes from a position without a start time |
| DatabusConsumers.PartitionsListed | messaging-client-databus/src/main/java/com/inmobi/messaging/consumer/databus/DatabusConsumer.java:229-232 | there is one partition per listed collector directory and no other |
| DatabusConsumers.MarkResetReplays | messaging-client-databus/src/main/java/com/inmobi/messaging/consumer/databus/DatabusConsumer.java:263-281 | after a mark and a reset, an engine resumes from just after the last line handed out, whatever the retention |
| DatabusConsumers.DatabusConsumer.constructor | messaging-client-databus/src/main/java/com/inmobi/messaging/consumer/databus/DatabusConsumer.java:106-131 | an empty buffer, the clusters split at commas, and the stored checkpoint, or an empty one |
| DatabusConsumers.DatabusConsumer.Next | messaging-client-databus/src/main/java/com/inmobi/messaging/consumer/databus/DatabusConsumer.java:176-186 | the head of the buffer is handed out and its position becomes its partition's |
| DatabusConsumers.DatabusConsumer.Mark | messaging-client-databus/src/main/java/com/inmobi/messaging/consumer/databus/DatabusConsumer.java:276-281 | the checkpoint is stored under the consumer's key |
| DatabusConsumers.DatabusConsumer.Close | messaging-client-databus/src/main/java/com/inmobi/messaging/consumer/databus/DatabusConsumer.java:283-291 | every engine is closed, the engines are dropped and the buffer emptied |
| DatabusConsumers.DatabusConsumer.CreateReader | messaging-client-databus/src/main/java/com/inmobi/messaging/consumer/databus/DatabusConsumer.java:229-255 | a collector directory gets its checkpoint entry and a fresh engine with its position and start time |
| DatabusConsumers.DatabusConsumer.CreateClusterReaders | messaging-client-databus/src/main/java/com/inmobi/messaging/consumer/databus/DatabusConsumer.java:229-255 | each collector directory of a cluster gets one fresh engine and an entry; other engines stay |
| DatabusConsumers.DatabusConsumer.VisitCluster | messaging-client-databus/src/main/java/com/inmobi/messaging/consumer/databus/DatabusConsumer.java:215-256 | one more cluster's engines and entries are added |
| DatabusConsumers.DatabusConsumer.CreatePartitionReaders | messaging-client-databus/src/main/java/com/inmobi/messaging/consumer/databus/DatabusConsumer.java:195-257 | an unknown topic fails; otherwise every visited cluster's collector directories get engines, and an empty stream directory ends the creation |
| DatabusConsumers.DatabusConsumer.Reset | messaging-client-databus/src/main/java/com/inmobi/messaging/consumer/databus/DatabusConsumer.java:263-274 | the consumer is closed and restarted from the stored checkpoint with no start time, with engines for every selected cluster unless one with no collector directory ended the creation; with nothing stored it stays closed |
| ConsumerDatabusConsumers.WellKeyedIds | messaging-client-consumer-databus/src/main/java/com/inmobi/messaging/consumer/databus/DatabusConsumer.java:88-95 | in a well-keyed checkpoint the partitions the positions name are its keys |
| ConsumerDatabusConsumers.Record | messaging-client-consumer-databus/src/main/java/com/inmobi/messaging/consumer/databus/DatabusConsumer.java:57-58 | the entry's partition gets the entry's file and offset, every other partition keeps its position, and positions stay well keyed |
| ConsumerDatabusConsumers.PutUnread | messaging-client-consumer-databus/src/main/java/com/inmobi/messaging/consumer/databus/DatabusConsumer.java:75-81 | one cluster's collector directories get unread positions |
| ConsumerDatabusConsumers.UnreadCheckpoint | messaging-client-consumer-databus/src/main/java/com/inmobi/messaging/consumer/databus/DatabusConsumer.java:64-86 | the building succeeds exactly when every cluster's stream directory can be listed, with one unread position per collector directory |
| ConsumerDatabusConsumers.StartEngines | messaging-client-consumer-databus/src/main/java/com/inmobi/messaging/consumer/databus/DatabusConsumer.java:88-95 | one fresh engine started per position, filed under its partition |
| ConsumerDatabusConsumers.DatabusConsumer.constructor | messaging-client-consumer-databus/src/main/java/com/inmobi/messaging/consumer/databus/DatabusConsumer.java:34-47 | an empty buffer, no engines, an open checkpoint provider, and the stored checkpoint or none |
| ConsumerDatabusConsumers.DatabusConsumer.Next | messaging-client-consumer-databus/src/main/java/com/inmobi/messaging/consumer/databus/DatabusConsumer.java:49-60 | the head of the buffer is handed out and its file and offset become its partition's position; with no checkpoint the message is lost |
| ConsumerDatabusConsumers.DatabusConsumer.StartReaders | messaging-client-consumer-databus/src/main/java/com/inmobi/messaging/consumer/databus/DatabusConsumer.java:88-95 | one fresh started engine per position; engines of other partitions stay |
| ConsumerDatabusConsumers.DatabusConsumer.Start | messaging-client-consumer-databus/src/main/java/com/inmobi/messaging/consumer/databus/DatabusConsumer.java:62-96 | with no checkpoint an unread one is built, failing when a stream directory cannot be listed; then an engine per position |
| ConsumerDatabusConsumers.DatabusConsumer.Commit | messaging-client-consumer-databus/src/main/java/com/inmobi/messaging/consumer/databus/DatabusConsumer.java:116-124 | the checkpoint is stored under the consumer's key; with none nothing is stored |
| ConsumerDatabusConsumers.DatabusConsumer.Close | messaging-client-consumer-databus/src/main/java/com/inmobi/messaging/consumer/databus/DatabusConsumer.java:126-132 | every engine is closed, then the checkpoint provider; engines, checkpoints and buffer are kept |
| ConsumerDatabusConsumers.DatabusConsumer.Rollback | messaging-client-consumer-databus/src/main/java/com/inmobi/messaging/consumer/databus/DatabusConsumer.java:102-114 | the consumer's engines and checkpoint provider are closed and it is restarted from the stored checkpoint, or an unread one; the buffer keeps its entries |

## Left out

- Threads, sleeps and timers: each engine's thread, `Thread.sleep` in the waits, and waiting on a full or empty buffer. A wait is a sequence of file system snapshots, and a blocking `put` or `take` returns instead of waiting.
- Hadoop I/O: the file system is a snapshot value (directories with their listings, files with their lines, a clock). Input formats, compression, record readers and `FileStatus` metadata are left out.
- Base64 decoding of lines, metrics (`PartitionReaderStatsExposer`), logging, Kerberos and the reading of configuration files are left out.
- Configuration: the generation-2 consumer sets its configuration to `null` (a TODO in `init`), so `start()` as written would fail on it when building a checkpoint, and its engines get `null`. The model instead takes the source streams, clusters and listings as an `Environment` parameter (`Listable`, `PartitionsOf`); generation 1 reads the same from its configuration file.
- Time: instants are UTC milliseconds from 1970. Time zones and daylight saving are left out.
- `FileMap`, `CollectorFile`, `DatabusStreamFile`, `StreamReader`, `LocalStreamReader`, `ClusterReader`, `CollectorReader`, `PartitionStreamReader`, `Checkpoint`, `CheckpointProvider` and the generation-2 consumer's `PartitionReader` are not part of this model. The names `stream-yyyy-MM-dd-HH-mm_NNNNN` and `collector-<collector file>.<ext>` are inferred from their use. `Tiers` stands for the tier readers of both engines. The generation-2 engine is a stand-in that records its starting position.
- Strings.JavaSplit: states the no-comma case and that no piece holds a comma. It does not state that the pieces joined with commas give the input back.
- DatabusConsumers.DatabusConsumer.Close: does not state the order in which the engines are closed.
- DatabusConsumers.DatabusConsumer.CreatePartitionReaders: the clusters are visited in an unspecified order, as a `HashSet` iterates. The creation ends at the first cluster whose stream directory lists nothing, as the `return` in the loop does, so the clusters not yet visited get no engine.
- DatabusConsumers.DatabusConsumer.Reset: `Checkpoint` is not part of this model, so building one from nothing stored is modelled as a failure: the consumer stays closed with its checkpoint and the result is false.
- PartitionReaders.PartitionReader.Execute: a `put` on a full buffer would block; the model returns with the entry it could not put.
- ConsumerPartitionReaders.PartitionReader.Execute: the loop reads only while the buffer has room, as its `remainingCapacity` guard says, so an `offer` always succeeds. A failed `offer` needs another thread to fill the buffer between the guard and the offer, and is not modelled.
- DatabusStreamWaitingReaders.WaitForNextFileCreation: with the snapshots used up the reader would still be waiting; the model returns then.
- DatabusStreamWaitingReaders.StartFromNextHigher, DatabusStreamWaitingReaders.WaitForNextFileCreation, DatabusStreamReaders.DatabusStreamReader.NextFile and DatabusStreamReaders.DatabusStreamReader.ReadFromStream: the waiting reader calls `setNextHigher`, `nextFile` and `readLine(inStream, reader)` of the base `StreamReader`, which is not part of this model. They are taken to act on the record reader as `setNextHigherAndOpen`, `openCurrentFile(true)` after the map's next file, and `readRawLine` with the line counted do. The `inStream != null` guard is read as a guard on the record reader.
- DatabusConsumers.DatabusConsumer.constructor: requires a positive buffer size. A configured size of 0 or less makes `new LinkedBlockingQueue(bufferSize)` throw `IllegalArgumentException`, and that failure is not modelled.
- CollectorStreamReaders.CollectorStreamReader.SkipOldDataOf and CollectorStreamReaders.CollectorStreamReader.ReadLine: `getPos()` and `seek` work in bytes. The model counts offsets and positions in lines.
- CollectorStreamReaders.CollectorStreamReader.ReadLine: the stream's position is not tied to `currentLineNum`. A reopen seeks to the recorded offset, and that offset stays 0 until a line of the file has been returned. So a reader resumed at line n of a file with no further lines, which then reopens it, reads again from the file's start while the count goes on from n.
- ConsumerDatabusConsumers.DatabusConsumer.constructor: `Checkpoint` is not part of this model, and the source builds one from whatever the provider reads, so its checkpoint is never null. The model has no checkpoint where nothing is stored, which keeps the unread-checkpoint branch of `start()` (lines 64-86) reachable; that branch is reachable in the source only through a null checkpoint, which it cannot produce.
- ConsumerDatabusConsumers.DatabusConsumer.Rollback: as for the constructor, nothing stored gives no checkpoint, and the restart builds an unread one; the source instead builds a `Checkpoint` from the empty read. The read from the closed provider is taken to return what was stored.
- ConsumerDatabusConsumers.DatabusConsumer.Next: the source's `set` always has a checkpoint. The case with none, where the model takes the entry and returns none, arises only from the modelled missing checkpoint of the constructor and `Rollback`.
- ConsumerDatabusConsumers.DatabusConsumer.Commit: the case with no checkpoint, where nothing is stored, arises only from the modelled missing checkpoint as well.
- Tiers.InitFromCheckpoint: the fallback to the start of the tier for a file named before the whole tier is that of `DatabusStreamReader.initializeCurrentFile`. `ConsumerPartitionReaders.FromCheckpoint` applies it to the generation-1 collector and local stream readers too, whose own `initializeCurrentFile` is not part of this model; without that fallback an old collector file would go on to its local stream name.
- Calendar.ParseMinuteDir: `SimpleDateFormat` parses leniently and rolls out-of-range fields over (month 13 is January of the next year, minute 75 is 15 past the next hour). The model reads a name with such a field as no date.
- ConsumerDatabusConsumers.DatabusConsumer.Start: the engines' threads are not started; the model records that each engine was started.
- The generation-1 `start()` only starts the engines' threads after creating them, and is not modelled beyond `CreatePartitionReaders`.
