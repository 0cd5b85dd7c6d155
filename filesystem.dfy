/**
 * A snapshot of the Hadoop file system as the readers see it: the clock,
 * for each directory the names of its children, for each file its lines.  An open
 * stream holds the lines the file had when it was opened and a position
 * counted in lines.
 */
module FileSystems {

  import opened Wrappers

  /** The file system at instant `now` (milliseconds since the epoch). */
  datatype FileSystem = FileSystem(now: nat, dirs: map<string, seq<string>>, files: map<string, seq<string>>)

  /** `fs.exists(path)`. */
  predicate Exists(fs: FileSystem, path: string) {
    path in fs.dirs || path in fs.files
  }

  /** `fs.listStatus(dir)`: the names of the children, `None` where the directory does not exist. */
  function ListStatus(fs: FileSystem, dir: string): (r: Option<seq<string>>)
    ensures r.Some? <==> dir in fs.dirs
  {
    if dir in fs.dirs then Some(fs.dirs[dir]) else None
  }

  /** An open input stream: the file's path, its lines when opened, and how many have been consumed. */
  datatype Stream = Stream(path: string, lines: seq<string>, pos: nat)

  /** Opening `path` at its start; `None` where the file does not exist (`FileNotFoundException`). */
  function Open(fs: FileSystem, path: string): (r: Option<Stream>)
    ensures r.Some? <==> path in fs.files
    ensures r.Some? ==> r.value == Stream(path, fs.files[path], 0)
  {
    if path in fs.files then Some(Stream(path, fs.files[path], 0)) else None
  }

  /** Reading one line: the line at the position and the stream after it, or `None` at end of stream. */
  function ReadOne(s: Stream): (r: (Option<string>, Stream))
    ensures r.0.Some? <==> s.pos < |s.lines|
    ensures r.0.Some? ==> r.0.value == s.lines[s.pos] && r.1 == s.(pos := s.pos + 1)
    ensures r.0.None? ==> r.1 == s
  {
    if s.pos < |s.lines| then (Some(s.lines[s.pos]), s.(pos := s.pos + 1)) else (None, s)
  }

  /** Reading and discarding up to `n` lines (`skipLines`); it stops at end of stream. */
  function Skip(s: Stream, n: nat): (r: Stream)
    ensures r.path == s.path && r.lines == s.lines
    ensures r.pos == if s.pos + n <= |s.lines| then s.pos + n else if s.pos <= |s.lines| then |s.lines| else s.pos
  {
    if s.pos + n <= |s.lines| then s.(pos := s.pos + n)
    else if s.pos <= |s.lines| then s.(pos := |s.lines|)
    else s
  }

  /** Moving to an absolute position (`seek`). */
  function Seek(s: Stream, offset: nat): (r: Stream)
    ensures r.path == s.path && r.lines == s.lines && r.pos == offset
  {
    s.(pos := offset)
  }

  /**
   * What a reader's `readLine` ends with: a line, `null`, or -- a model
   * artefact -- `Pending` when it would still be waiting once the given
   * file-system snapshots are used up.
   */
  datatype ReadResult = Line(line: string) | Null | Pending
}
