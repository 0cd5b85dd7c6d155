/**
 * Names of the files of a stream and of the directories that hold them.
 *
 * A collector writes `stream-yyyy-MM-dd-HH-mm_NNNNN` files into
 * `<dataDir>/<stream>/<collector>`; the local and merged streams hold the same
 * data as `<collector>-<collector file>.gz` files under minute directories
 * `<root>/<stream>/yyyy/MM/dd/HH/mm`.  Both kinds of file map are ordered by
 * `FileKey`: the collector file (minute, sequence number, stream), then the
 * collector.
 */
module StreamFiles {

  import opened Wrappers
  import opened Strings
  import opened Calendar

  /** A collector file: its stream, the minute of its timestamp and its sequence number. */
  datatype CollectorFile = CollectorFile(stream: string, minute: nat, id: nat)

  /** A local or merged stream file: the collector it came from, its collector file and its extension. */
  datatype DatabusStreamFile = DatabusStreamFile(collector: string, file: CollectorFile, ext: string)

  /** The order key shared by both kinds of file map. */
  datatype FileKey = FileKey(file: CollectorFile, collector: string)

  function CollectorKey(f: CollectorFile): FileKey { FileKey(f, "") }

  function DatabusKey(f: DatabusStreamFile): FileKey { FileKey(f.file, f.collector) }

  /** Strict order of collector files: by minute, then sequence number, then stream name. */
  predicate CollectorFileBefore(a: CollectorFile, b: CollectorFile) {
    || a.minute < b.minute
    || (a.minute == b.minute && a.id < b.id)
    || (a.minute == b.minute && a.id == b.id && Less(a.stream, b.stream))
  }

  /** Strict order of file keys: by collector file, then collector name. */
  predicate KeyBefore(a: FileKey, b: FileKey) {
    CollectorFileBefore(a.file, b.file) || (a.file == b.file && Less(a.collector, b.collector))
  }

  lemma KeyBeforeIrreflexive(a: FileKey)
    ensures !KeyBefore(a, a)
  {
    LessIrreflexive(a.file.stream);
    LessIrreflexive(a.collector);
  }

  lemma KeyBeforeTransitive(a: FileKey, b: FileKey, c: FileKey)
    requires KeyBefore(a, b) && KeyBefore(b, c)
    ensures KeyBefore(a, c)
  {
    if Less(a.file.stream, b.file.stream) && Less(b.file.stream, c.file.stream) {
      LessTransitive(a.file.stream, b.file.stream, c.file.stream);
    }
    if Less(a.collector, b.collector) && Less(b.collector, c.collector) {
      LessTransitive(a.collector, b.collector, c.collector);
    }
  }

  lemma KeyBeforeTotal(a: FileKey, b: FileKey)
    ensures a == b || KeyBefore(a, b) || KeyBefore(b, a)
  {
    LessTotal(a.file.stream, b.file.stream);
    LessTotal(a.collector, b.collector);
  }

  lemma KeyBeforeAsymmetric(a: FileKey, b: FileKey)
    requires KeyBefore(a, b)
    ensures !KeyBefore(b, a)
  {
    if KeyBefore(b, a) {
      KeyBeforeTransitive(a, b, a);
      KeyBeforeIrreflexive(a);
    }
  }

  // ---- collector files ----

  /** `yyyy-MM-dd-HH-mm` of a minute. */
  function Stamp(minute: nat): string {
    StampName(minute)
  }

  /** `stream-yyyy-MM-dd-HH-mm_NNNNN` (`CollectorFile.toString`). */
  function CollectorFileName(f: CollectorFile): string {
    f.stream + "-" + Stamp(f.minute) + "_" + Padded(f.id, 5)
  }

  /** `CollectorFile.create(name)`: `None` where that constructor rejects the name. */
  function ParseCollectorFile(name: string): (r: Option<CollectorFile>)
  {
    match SplitLast(name, '_')
    case None => None
    case Some(pi) =>
      var id := ParseNat(pi.1);
      match SplitFromRight(pi.0, '-', 5)
      case None => None
      case Some(p) =>
        var minute := ParseStampFields(p[1..]);
        if id.None? || minute.None? then None
        else Some(CollectorFile(p[0], minute.value, id.value))
  }

  /** Every collector file name parses back to the file it names. */
  lemma CollectorFileRoundTrip(f: CollectorFile)
    ensures ParseCollectorFile(CollectorFileName(f)) == Some(f)
  {
    var c := CivilOf(f.minute);
    var fields := FieldStrings(c);
    var idText := Padded(f.id, 5);
    var head := f.stream + "-" + Stamp(f.minute);
    assert CollectorFileName(f) == head + "_" + idText;
    assert SplitLast(CollectorFileName(f), '_') == Some((head, idText)) by {
      DigitsHaveNo(idText, '_');
      SplitLastJoin(head, '_', idText);
    }
    assert ParseNat(idText) == Some(f.id) by { PaddedRoundTrip(f.id, 5); }
    var pieces := [f.stream] + fields;
    assert SplitFromRight(head, '-', 5) == Some(pieces) by {
      JoinRightCons(f.stream, fields, '-');
      FieldStringsHaveNoSeparator(c, '-');
      assert forall i :: 0 < i < |pieces| ==> pieces[i] == fields[i - 1];
      SplitFromRightJoin(pieces, '-');
    }
    assert pieces[1..] == fields;
    assert ParseStampFields(fields) == Some(f.minute) by {
      FieldsRoundTrip(c);
      CivilRoundTrip(f.minute);
    }
  }

  /** Distinct collector files have distinct names. */
  lemma CollectorFileNameInjective(f: CollectorFile, g: CollectorFile)
    requires CollectorFileName(f) == CollectorFileName(g)
    ensures f == g
  {
    CollectorFileRoundTrip(f);
    CollectorFileRoundTrip(g);
  }

  /** `isCollectorFile`: the name is one `CollectorFile.create` accepts. */
  function IsCollectorFile(name: string): (r: bool)
    ensures r <==> ParseCollectorFile(name).Some?
  {
    match ParseCollectorFile(name)
    case None => false
    case Some(_) => true
  }

  /** `getCollectorFileName(stream, date)`: the collector file of that minute with sequence number 0. */
  function GetCollectorFileName(stream: string, date: nat): (r: string)
    ensures ParseCollectorFile(r) == Some(CollectorFile(stream, MinuteOfMillis(date), 0))
  {
    var f := CollectorFile(stream, MinuteOfMillis(date), 0);
    CollectorFileRoundTrip(f);
    CollectorFileName(f)
  }

  /** The collector-directory filter: it rejects the names ending in `_current` or `_stats`. */
  function CollectorAccept(name: string): bool {
    !EndsWith(name, "_current") && !EndsWith(name, "_stats")
  }

  /** The filter never rejects a collector file: their names end in a digit. */
  lemma CollectorAcceptsCollectorFiles(f: CollectorFile)
    ensures CollectorAccept(CollectorFileName(f))
  {
    var name := CollectorFileName(f);
    var idText := Padded(f.id, 5);
    assert name[|name| - 1] == idText[|idText| - 1];
    assert IsDigit(name[|name| - 1]);
    assert "_current"[7] == 't' && "_stats"[5] == 's';
  }

  // ---- local and merged stream files ----

  /** `getDatabusStreamFileName(collector, collectorFile)`: `collector-<collectorFile>.gz`. */
  function GetDatabusStreamFileName(collector: string, collectorFile: string): string
  {
    collector + "-" + collectorFile + ".gz"
  }

  /** `DatabusStreamFile.toString`: `collector-<collector file>.<extension>`. */
  function DatabusFileName(f: DatabusStreamFile): string {
    f.collector + "-" + CollectorFileName(f.file) + "." + f.ext
  }

  /**
   * `DatabusStreamFile.create(stream, name)`: the extension is what follows
   * the last `.`; before it comes a collector file of `stream`, preceded by
   * the collector name and `-`.
   */
  function ParseDatabusStreamFile(stream: string, name: string): (r: Option<DatabusStreamFile>)
    ensures r.Some? ==> r.value.file.stream == stream
  {
    match SplitLast(name, '.')
    case None => None
    case Some(be) =>
      match ParseCollectorFile(be.0)
      case None => None
      case Some(cf) =>
        var tail := "-" + stream;
        if !EndsWith(cf.stream, tail) then None
        else
          var collector := cf.stream[..|cf.stream| - |tail|];
          Some(DatabusStreamFile(collector, CollectorFile(stream, cf.minute, cf.id), be.1))
  }

  /** One step of `ParseDatabusStreamFile`, with the results of its two inner parses given. */
  lemma ParseDatabusStreamFileOf(stream: string, name: string, base: string, ext: string, cf: CollectorFile)
    requires SplitLast(name, '.') == Some((base, ext))
    requires ParseCollectorFile(base) == Some(cf)
    requires EndsWith(cf.stream, "-" + stream)
    ensures ParseDatabusStreamFile(stream, name)
            == Some(DatabusStreamFile(cf.stream[..|cf.stream| - |stream| - 1], CollectorFile(stream, cf.minute, cf.id), ext))
  {
  }

  lemma Regroup(collector: string, stream: string, stamp: string, id: string)
    ensures collector + "-" + (stream + "-" + stamp + "_" + id) == (collector + "-" + stream) + "-" + stamp + "_" + id
  {
  }

  lemma DatabusFileNameBase(f: DatabusStreamFile)
    ensures ParseCollectorFile(f.collector + "-" + CollectorFileName(f.file))
            == Some(CollectorFile(f.collector + "-" + f.file.stream, f.file.minute, f.file.id))
  {
    var outer := CollectorFile(f.collector + "-" + f.file.stream, f.file.minute, f.file.id);
    Regroup(f.collector, f.file.stream, Stamp(f.file.minute), Padded(f.file.id, 5));
    CollectorFileRoundTrip(outer);
  }

  /** A name `collector-<base>.<ext>` whose `collector-<base>` is a collector file of stream `collector-stream` parses as the collector's file of `stream`. */
  lemma ParseLocalName(collector: string, stream: string, base: string, ext: string, minute: nat, id: nat)
    requires '.' !in ext
    requires ParseCollectorFile(collector + "-" + base) == Some(CollectorFile(collector + "-" + stream, minute, id))
    ensures ParseDatabusStreamFile(stream, collector + "-" + base + "." + ext)
            == Some(DatabusStreamFile(collector, CollectorFile(stream, minute, id), ext))
  {
    var head := collector + "-" + base;
    SplitLastJoin(head, '.', ext);
    assert collector + "-" + stream == collector + ("-" + stream);
    EndsWithAppend(collector, "-" + stream);
    ParseDatabusStreamFileOf(stream, head + "." + ext, head, ext, CollectorFile(collector + "-" + stream, minute, id));
  }

  /** Every stream file name parses back, for its own stream, to the file it names. */
  lemma DatabusFileRoundTrip(f: DatabusStreamFile)
    requires '.' !in f.ext
    ensures ParseDatabusStreamFile(f.file.stream, DatabusFileName(f)) == Some(f)
  {
    DatabusFileNameBase(f);
    ParseLocalName(f.collector, f.file.stream, CollectorFileName(f.file), f.ext, f.file.minute, f.file.id);
  }

  /** The name `getDatabusStreamFileName(collector, f)` gives a collector file parses as that collector's copy of it. */
  lemma LocalNameParses(collector: string, f: CollectorFile)
    ensures ParseDatabusStreamFile(f.stream, GetDatabusStreamFileName(collector, CollectorFileName(f)))
            == Some(DatabusStreamFile(collector, f, "gz"))
  {
    var d := DatabusStreamFile(collector, f, "gz");
    assert GetDatabusStreamFileName(collector, CollectorFileName(f)) == DatabusFileName(d);
    DatabusFileRoundTrip(d);
  }

  /** Regrouping the pieces of a name around an underscore. */
  lemma RegroupAround(a: string, b: string, c: string, d: string)
    ensures a + (b + "_" + c) + d == (a + b) + "_" + (c + d)
  {
  }

  /** The name `getDatabusStreamFileName(collector, f)` gives is never taken for a collector file. */
  lemma LocalNameIsNotCollectorFile(collector: string, f: CollectorFile)
    ensures !IsCollectorFile(GetDatabusStreamFileName(collector, CollectorFileName(f)))
  {
    var idText := Padded(f.id, 5);
    var stem := f.stream + "-" + Stamp(f.minute);
    var head := (collector + "-") + stem;
    var tail := idText + ".gz";
    var name := GetDatabusStreamFileName(collector, CollectorFileName(f));
    assert CollectorFileName(f) == stem + "_" + idText;
    RegroupAround(collector + "-", stem, idText, ".gz");
    assert name == head + "_" + tail;
    DigitsHaveNo(idText, '_');
    assert '_' !in tail;
    SplitLastJoin(head, '_', tail);
    assert SplitLast(name, '_') == Some((head, tail));
    assert !AllDigits(tail) by { assert tail[|idText|] == '.'; }
    assert ParseNat(tail).None?;
  }

  /** `isDatabusStreamFile(stream, name)`. */
  function IsDatabusStreamFile(stream: string, name: string): (r: bool)
    ensures r <==> ParseDatabusStreamFile(stream, name).Some?
  {
    match ParseDatabusStreamFile(stream, name)
    case None => false
    case Some(_) => true
  }

  /** `getDatabusStreamFileName(stream, date)`: the file of that minute, sequence number 0, no collector, extension `gz`. */
  function GetDatabusStreamFileNameAt(stream: string, date: nat): (r: string)
    ensures ParseDatabusStreamFile(stream, r)
            == Some(DatabusStreamFile("", CollectorFile(stream, MinuteOfMillis(date), 0), "gz"))
  {
    var f := DatabusStreamFile("", CollectorFile(stream, MinuteOfMillis(date), 0), "gz");
    DatabusFileRoundTrip(f);
    DatabusFileName(f)
  }

  /** `getCollectorFileName(stream, localStreamFile)`: the collector file inside a stream file name. */
  function CollectorFileNameOf(stream: string, localStreamFile: string): (r: Option<string>)
    ensures r.Some? <==> IsDatabusStreamFile(stream, localStreamFile)
  {
    match ParseDatabusStreamFile(stream, localStreamFile)
    case None => None
    case Some(d) => Some(CollectorFileName(d.file))
  }

  /** Taking the collector file out of the local name of a collector file gives that name back. */
  lemma CollectorFileNameOfLocal(collector: string, f: CollectorFile)
    ensures CollectorFileNameOf(f.stream, GetDatabusStreamFileName(collector, CollectorFileName(f)))
            == Some(CollectorFileName(f))
  {
    LocalNameParses(collector, f);
  }

  // ---- directories ----

  /** Hadoop `new Path(parent, child)`. */
  function Join(parent: string, child: string): string {
    parent + "/" + child
  }

  /** The directories of a cluster a stream lives under. */
  datatype Cluster = Cluster(name: string, dataDir: string, localFinalDestDirRoot: string, finalDestDirRoot: string)

  /** `getStreamsLocalDir`: the local stream directory of a cluster. */
  function StreamsLocalDir(cluster: Cluster, stream: string): string
  {
    Join(cluster.localFinalDestDirRoot, stream)
  }

  /** `getStreamsDir`: the merged stream directory of a cluster. */
  function StreamsDir(cluster: Cluster, stream: string): string
  {
    Join(cluster.finalDestDirRoot, stream)
  }

  /** The directory one collector writes a stream into (`getStreamDir` of the collector reader). */
  function CollectorDir(cluster: Cluster, stream: string, collector: string): string {
    Join(Join(cluster.dataDir, stream), collector)
  }

  /**
   * `getDateFromDatabusStreamDir(streamDir, dir)`: the instant named by the
   * part of `dir` after `streamDir` and one separator, read as
   * `yyyy/MM/dd/HH/mm`; `None` where that parse fails.
   */
  function DateFromStreamDir(streamDir: string, dir: string): Option<nat>
    requires |streamDir| + 1 <= |dir|
  {
    ParseMinuteDir(dir[|streamDir| + 1..])
  }

  /** The date read from any path inside a minute directory is the start of that minute. */
  lemma DateFromStreamDirOfFile(streamDir: string, t: nat, name: string)
    ensures |streamDir| + 1 <= |Join(Join(streamDir, MinuteDirName(t)), name)|
    ensures DateFromStreamDir(streamDir, Join(Join(streamDir, MinuteDirName(t)), name))
            == Some(StartOfMinute(t))
  {
    JoinJoin(streamDir, MinuteDirName(t), name);
    JoinChild(streamDir, MinuteDirName(t) + ("/" + name));
    MinuteDirRoundTrip(t, "/" + name);
  }

  /** A path two levels down is the child path joined to the top directory. */
  lemma JoinJoin(a: string, b: string, c: string)
    ensures Join(Join(a, b), c) == Join(a, b + ("/" + c))
  {
  }

  /** The part of a joined path after its parent and the separator is the child. */
  lemma JoinChild(parent: string, child: string)
    ensures Join(parent, child)[|parent| + 1..] == child
  {
  }

  /** `getDateFromDatabusStreamDir` of a minute directory itself. */
  lemma DateFromStreamDirOfDir(streamDir: string, t: nat)
    ensures |streamDir| + 1 <= |Join(streamDir, MinuteDirName(t))|
    ensures DateFromStreamDir(streamDir, Join(streamDir, MinuteDirName(t))) == Some(StartOfMinute(t))
  {
    var path := Join(streamDir, MinuteDirName(t));
    assert path[|streamDir| + 1..] == MinuteDirName(t) + [];
    MinuteDirRoundTrip(t, []);
  }
}
