/**
 * The reader of a stream's merged (or local) directory tree
 * `streamDir/yyyy/MM/dd/HH/mm/<files>`.  Its map is built by walking the
 * minute directories from the build timestamp up to the present, skipping
 * whole hours whose hour directory does not exist; its files are read
 * through a record reader that skips the lines already consumed.
 */
module DatabusStreamReaders {

  import opened Wrappers
  import opened Calendar
  import opened StreamFiles
  import opened FileMaps
  import opened FileSystems

  function HourDir(streamDir: string, t: nat): string {
    Join(streamDir, HourDirName(t))
  }

  function MinuteDir(streamDir: string, t: nat): string {
    Join(streamDir, MinuteDirName(t))
  }

  // ---- the walk of `buildListing` ----

  /** Whether the hour directory of hour `h` (counted from the epoch) exists. */
  function HoursPresent(fs: FileSystem, streamDir: string): nat -> bool {
    (h: nat) => Exists(fs, HourDir(streamDir, h * MillisPerHour))
  }

  /** The existence test of `buildListing` on the hour directory of `t` depends only on the hour of `t`. */
  lemma HoursPresentOf(fs: FileSystem, streamDir: string, t: nat)
    ensures HoursPresent(fs, streamDir)(t / MillisPerHour) <==> Exists(fs, HourDir(streamDir, t))
  {
    var h := t / MillisPerHour;
    assert (h * 3600000) / 3600000 == h;
    HourDirNameOfHour(h * MillisPerHour, t);
  }

  /**
   * The instants whose minute directory `buildListing` lists, starting the
   * outer loop at `t`: a present hour directory is walked minute by minute
   * while the hour of day stays the same, a missing one is skipped.
   */
  function Walk(present: nat -> bool, t: nat, now: nat): seq<nat>
    decreases if t < now then now - t else 0, 0
  {
    if t >= now then []
    else if present(t / MillisPerHour) then
      [t] + MinutesOfHour(present, t + MillisPerMinute, HourOfDay(t), now)
    else Walk(present, NextHourStart(t), now)
  }

  /** The inner loop of `buildListing` at `t` inside hour of day `hour`; it hands back to the outer loop when the hour changes. */
  function MinutesOfHour(present: nat -> bool, t: nat, hour: nat, now: nat): seq<nat>
    decreases if t < now then now - t else 0, 1
  {
    if t < now && HourOfDay(t) == hour then [t] + MinutesOfHour(present, t + MillisPerMinute, hour, now)
    else Walk(present, t, now)
  }

  /** Moving a minute on keeps an instant on its minute grid. */
  lemma MinuteOn(t: nat)
    ensures (t + MillisPerMinute) % MillisPerMinute == t % MillisPerMinute
  {
  }

  lemma {:induction false} WalkRange(present: nat -> bool, t: nat, now: nat, x: nat)
    requires x in Walk(present, t, now)
    ensures t <= x < now && x % MillisPerMinute == t % MillisPerMinute
    decreases if t < now then now - t else 0, 0
  {
    if t < now {
      if present(t / MillisPerHour) {
        var rest := MinutesOfHour(present, t + MillisPerMinute, HourOfDay(t), now);
        assert Walk(present, t, now) == [t] + rest;
        if x != t {
          assert x in rest;
          MinutesRange(present, t + MillisPerMinute, HourOfDay(t), now, x);
          MinuteOn(t);
        }
      } else {
        WalkRange(present, NextHourStart(t), now, x);
      }
    }
  }

  lemma {:induction false} MinutesRange(present: nat -> bool, t: nat, hour: nat, now: nat, x: nat)
    requires x in MinutesOfHour(present, t, hour, now)
    ensures t <= x < now && x % MillisPerMinute == t % MillisPerMinute
    decreases if t < now then now - t else 0, 1
  {
    if t < now && HourOfDay(t) == hour {
      var rest := MinutesOfHour(present, t + MillisPerMinute, hour, now);
      assert MinutesOfHour(present, t, hour, now) == [t] + rest;
      if x != t {
        assert x in rest;
        MinutesRange(present, t + MillisPerMinute, hour, now, x);
        MinuteOn(t);
      }
    } else {
      assert MinutesOfHour(present, t, hour, now) == Walk(present, t, now);
      WalkRange(present, t, now, x);
    }
  }

  /** Every instant the walk lists lies in a present hour. */
  lemma {:induction false} WalkHourPresent(present: nat -> bool, t: nat, now: nat, x: nat)
    requires x in Walk(present, t, now)
    ensures present(x / MillisPerHour)
    decreases if t < now then now - t else 0, 0
  {
    if t < now {
      if present(t / MillisPerHour) {
        var rest := MinutesOfHour(present, t + MillisPerMinute, HourOfDay(t), now);
        assert Walk(present, t, now) == [t] + rest;
        if x != t {
          assert x in rest;
          NextMinuteHour(t);
          MinutesHourPresent(present, t + MillisPerMinute, HourOfDay(t), now, x);
        }
      } else {
        WalkHourPresent(present, NextHourStart(t), now, x);
      }
    }
  }

  lemma {:induction false} MinutesHourPresent(present: nat -> bool, t: nat, hour: nat, now: nat, x: nat)
    requires x in MinutesOfHour(present, t, hour, now)
    requires t < now && HourOfDay(t) == hour ==> present(t / MillisPerHour)
    ensures present(x / MillisPerHour)
    decreases if t < now then now - t else 0, 1
  {
    if t < now && HourOfDay(t) == hour {
      var rest := MinutesOfHour(present, t + MillisPerMinute, hour, now);
      assert MinutesOfHour(present, t, hour, now) == [t] + rest;
      if x != t {
        assert x in rest;
        NextMinuteHour(t);
        MinutesHourPresent(present, t + MillisPerMinute, hour, now, x);
      }
    } else {
      assert MinutesOfHour(present, t, hour, now) == Walk(present, t, now);
      WalkHourPresent(present, t, now, x);
    }
  }

  /** An instant on the minute grid of `t` in a later hour is not before the next hour's start. */
  lemma NextHourStartLeast(t: nat, x: nat)
    requires x % MillisPerMinute == t % MillisPerMinute
    requires x / MillisPerHour > t / MillisPerHour
    ensures NextHourStart(t) <= x
  {
    var a, b := x / 3600000, x % 3600000;
    assert x == a * 3600000 + b;
    assert x % 60000 == b % 60000 by {
      assert x == (a * 60) * 60000 + b;
    }
    assert b % 60000 <= b;
    assert (t / 3600000 + 1) * 3600000 <= a * 3600000;
  }

  /** The next instant on the minute grid of `t` after `t` is at least a minute later. */
  lemma GridNext(t: nat, x: nat)
    requires t < x && x % MillisPerMinute == t % MillisPerMinute
    ensures t + MillisPerMinute <= x && x % MillisPerMinute == (t + MillisPerMinute) % MillisPerMinute
  {
    assert x == (x / 60000) * 60000 + x % 60000;
    assert t == (t / 60000) * 60000 + t % 60000;
    assert t / 60000 < x / 60000;
  }

  /** A later instant in a different hour lies in a later hour. */
  lemma LaterHour(t: nat, x: nat)
    requires t <= x && x / MillisPerHour != t / MillisPerHour
    ensures x / MillisPerHour > t / MillisPerHour
  {
    assert x == (x / 3600000) * 3600000 + x % 3600000;
    assert t == (t / 3600000) * 3600000 + t % 3600000;
  }

  /** Every instant on the grid of `t`, before `now` and in a present hour, is listed. */
  lemma {:induction false} WalkComplete(present: nat -> bool, t: nat, now: nat, x: nat)
    requires t <= x < now && x % MillisPerMinute == t % MillisPerMinute
    requires present(x / MillisPerHour)
    ensures x in Walk(present, t, now)
    decreases if t < now then now - t else 0, 0
  {
    if present(t / MillisPerHour) {
      var rest := MinutesOfHour(present, t + MillisPerMinute, HourOfDay(t), now);
      assert Walk(present, t, now) == [t] + rest;
      if x != t {
        GridNext(t, x);
        MinutesComplete(present, t + MillisPerMinute, HourOfDay(t), now, x);
        assert x in rest;
      }
    } else {
      assert x / MillisPerHour != t / MillisPerHour;
      LaterHour(t, x);
      NextHourStartLeast(t, x);
      WalkComplete(present, NextHourStart(t), now, x);
    }
  }

  lemma {:induction false} MinutesComplete(present: nat -> bool, t: nat, hour: nat, now: nat, x: nat)
    requires t <= x < now && x % MillisPerMinute == t % MillisPerMinute
    requires present(x / MillisPerHour)
    ensures x in MinutesOfHour(present, t, hour, now)
    decreases if t < now then now - t else 0, 1
  {
    if t < now && HourOfDay(t) == hour {
      var rest := MinutesOfHour(present, t + MillisPerMinute, hour, now);
      assert MinutesOfHour(present, t, hour, now) == [t] + rest;
      if x != t {
        GridNext(t, x);
        MinutesComplete(present, t + MillisPerMinute, hour, now, x);
        assert x in rest;
      }
    } else {
      assert MinutesOfHour(present, t, hour, now) == Walk(present, t, now);
      WalkComplete(present, t, now, x);
    }
  }

  /**
   * The instants `buildListing` lists from `start` are exactly those a
   * whole number of minutes after `start`, before `now`, in a present hour.
   */
  lemma WalkVisits(present: nat -> bool, start: nat, now: nat, x: nat)
    ensures x in Walk(present, start, now)
            <==> start <= x < now && x % MillisPerMinute == start % MillisPerMinute && present(x / MillisPerHour)
  {
    if x in Walk(present, start, now) {
      WalkRange(present, start, now, x);
      WalkHourPresent(present, start, now, x);
    }
    if start <= x < now && x % MillisPerMinute == start % MillisPerMinute && present(x / MillisPerHour) {
      WalkComplete(present, start, now, x);
    }
  }

  predicate Increasing(s: seq<nat>) {
    forall i, j :: 0 <= i < j < |s| ==> s[i] < s[j]
  }

  lemma IncreasingCons(t: nat, s: seq<nat>)
    requires Increasing(s)
    requires forall x :: x in s ==> t < x
    ensures Increasing([t] + s)
  {
    var r := [t] + s;
    forall i, j | 0 <= i < j < |r| ensures r[i] < r[j] {
      if i == 0 { assert r[j] in s; }
    }
  }

  /** Each minute directory is listed once, in increasing order of time. */
  lemma {:induction false} WalkIncreasing(present: nat -> bool, t: nat, now: nat)
    ensures Increasing(Walk(present, t, now))
    decreases if t < now then now - t else 0, 0
  {
    if t < now {
      if present(t / MillisPerHour) {
        var rest := MinutesOfHour(present, t + MillisPerMinute, HourOfDay(t), now);
        MinutesIncreasing(present, t + MillisPerMinute, HourOfDay(t), now);
        forall x | x in rest ensures t < x {
          MinutesRange(present, t + MillisPerMinute, HourOfDay(t), now, x);
        }
        IncreasingCons(t, rest);
      } else {
        WalkIncreasing(present, NextHourStart(t), now);
      }
    }
  }

  lemma {:induction false} MinutesIncreasing(present: nat -> bool, t: nat, hour: nat, now: nat)
    ensures Increasing(MinutesOfHour(present, t, hour, now))
    decreases if t < now then now - t else 0, 1
  {
    if t < now && HourOfDay(t) == hour {
      var rest := MinutesOfHour(present, t + MillisPerMinute, hour, now);
      MinutesIncreasing(present, t + MillisPerMinute, hour, now);
      forall x | x in rest ensures t < x {
        MinutesRange(present, t + MillisPerMinute, hour, now, x);
      }
      IncreasingCons(t, rest);
    } else {
      WalkIncreasing(present, t, now);
    }
  }

  // ---- the map the walk fills ----

  /** `k` is the key of the file of the stream that `name` names. */
  predicate Names(stream: string, name: string, k: FileKey) {
    ParseDatabusStreamFile(stream, name).Some? && DatabusKey(ParseDatabusStreamFile(stream, name).value) == k
  }

  /** `addPath` of a listed file: a name that parses as a file of the stream is put into the map under its key. */
  function AddPath(m: seq<Entry>, stream: string, dir: string, name: string): (r: seq<Entry>)
    requires Sorted(m)
    ensures Sorted(r)
  {
    match ParseDatabusStreamFile(stream, name)
    case None => m
    case Some(f) => Add(m, Entry(DatabusKey(f), name, Join(dir, name)))
  }

  lemma AddPathKeys(m: seq<Entry>, stream: string, dir: string, name: string, k: FileKey)
    requires Sorted(m)
    ensures HasKey(AddPath(m, stream, dir, name), k) <==> HasKey(m, k) || Names(stream, name, k)
  {
    match ParseDatabusStreamFile(stream, name)
    case None =>
    case Some(f) => HasKeyAdd(m, Entry(DatabusKey(f), name, Join(dir, name)), k);
  }

  function AddListing(m: seq<Entry>, stream: string, dir: string, names: seq<string>): (r: seq<Entry>)
    requires Sorted(m)
    ensures Sorted(r)
    decreases |names|
  {
    if |names| == 0 then m else AddListing(AddPath(m, stream, dir, names[0]), stream, dir, names[1..])
  }

  /** `listStatus` of a minute directory with the accept-all filter; a missing directory lists nothing. */
  function Listing(fs: FileSystem, dir: string): seq<string> {
    match ListStatus(fs, dir)
    case None => []
    case Some(names) => names
  }

  /** The minute directory of each instant. */
  function MinuteDirs(streamDir: string): nat -> string {
    (t: nat) => MinuteDir(streamDir, t)
  }

  /** The map after listing the directory `dirOf(t)` of each instant `t` of `ts` in turn. */
  function Collect(m: seq<Entry>, fs: FileSystem, dirOf: nat -> string, stream: string, ts: seq<nat>): (r: seq<Entry>)
    requires Sorted(m)
    ensures Sorted(r)
    decreases |ts|
  {
    if |ts| == 0 then m
    else
      var dir := dirOf(ts[0]);
      Collect(AddListing(m, stream, dir, Listing(fs, dir)), fs, dirOf, stream, ts[1..])
  }

  /** `k` is the key of a file of the stream listed in the directory of `t`. */
  predicate ListedAt(fs: FileSystem, dirOf: nat -> string, stream: string, t: nat, k: FileKey) {
    var names := Listing(fs, dirOf(t));
    exists i :: 0 <= i < |names| && Names(stream, names[i], k)
  }

  lemma {:induction false} AddListingKeys(m: seq<Entry>, stream: string, dir: string, names: seq<string>, k: FileKey)
    requires Sorted(m)
    ensures HasKey(AddListing(m, stream, dir, names), k)
            <==> HasKey(m, k) || exists i :: 0 <= i < |names| && Names(stream, names[i], k)
    decreases |names|
  {
    if |names| > 0 {
      var m' := AddPath(m, stream, dir, names[0]);
      AddPathKeys(m, stream, dir, names[0], k);
      AddListingKeys(m', stream, dir, names[1..], k);
      assert forall i :: 1 <= i < |names| ==> names[i] == names[1..][i - 1];
      if exists i :: 0 <= i < |names| && Names(stream, names[i], k) {
        var i :| 0 <= i < |names| && Names(stream, names[i], k);
        if i > 0 { assert Names(stream, names[1..][i - 1], k); }
      }
    }
  }

  lemma {:induction false} CollectKeys(m: seq<Entry>, fs: FileSystem, dirOf: nat -> string, stream: string, ts: seq<nat>, k: FileKey)
    requires Sorted(m)
    ensures HasKey(Collect(m, fs, dirOf, stream, ts), k)
            <==> HasKey(m, k) || exists i :: 0 <= i < |ts| && ListedAt(fs, dirOf, stream, ts[i], k)
    decreases |ts|
  {
    if |ts| > 0 {
      var dir := dirOf(ts[0]);
      var m' := AddListing(m, stream, dir, Listing(fs, dir));
      AddListingKeys(m, stream, dir, Listing(fs, dir), k);
      CollectKeys(m', fs, dirOf, stream, ts[1..], k);
      assert forall i :: 1 <= i < |ts| ==> ts[i] == ts[1..][i - 1];
      if exists i :: 0 <= i < |ts| && ListedAt(fs, dirOf, stream, ts[i], k) {
        var i :| 0 <= i < |ts| && ListedAt(fs, dirOf, stream, ts[i], k);
        if i > 0 { assert ListedAt(fs, dirOf, stream, ts[1..][i - 1], k); }
      }
    }
  }

  /**
   * After `buildListing` from `start`, the map holds exactly the files it
   * held before and the files of the stream in every minute directory from
   * `start` up to `now` in a present hour.
   */
  lemma BuildListingKeys(m: seq<Entry>, fs: FileSystem, present: nat -> bool, dirOf: nat -> string,
                         stream: string, start: nat, now: nat, k: FileKey)
    requires Sorted(m)
    ensures HasKey(Collect(m, fs, dirOf, stream, Walk(present, start, now)), k)
            <==> HasKey(m, k)
                 || exists t: nat :: start <= t < now && t % MillisPerMinute == start % MillisPerMinute
                                     && present(t / MillisPerHour) && ListedAt(fs, dirOf, stream, t, k)
  {
    var ts := Walk(present, start, now);
    CollectKeys(m, fs, dirOf, stream, ts, k);
    if exists i :: 0 <= i < |ts| && ListedAt(fs, dirOf, stream, ts[i], k) {
      var i :| 0 <= i < |ts| && ListedAt(fs, dirOf, stream, ts[i], k);
      WalkListed(fs, present, dirOf, stream, start, now, ts[i], k);
    }
    if exists t: nat :: start <= t < now && t % MillisPerMinute == start % MillisPerMinute
                        && present(t / MillisPerHour) && ListedAt(fs, dirOf, stream, t, k) {
      var t: nat :| start <= t < now && t % MillisPerMinute == start % MillisPerMinute
                    && present(t / MillisPerHour) && ListedAt(fs, dirOf, stream, t, k);
      WalkVisits(present, start, now, t);
      var i :| 0 <= i < |ts| && ts[i] == t;
    }
  }

  /** A directory the walk lists yields a key at an instant of the grid. */
  lemma WalkListed(fs: FileSystem, present: nat -> bool, dirOf: nat -> string, stream: string,
                   start: nat, now: nat, x: nat, k: FileKey)
    requires x in Walk(present, start, now) && ListedAt(fs, dirOf, stream, x, k)
    ensures exists t: nat :: start <= t < now && t % MillisPerMinute == start % MillisPerMinute
                            && present(t / MillisPerHour) && ListedAt(fs, dirOf, stream, t, k)
  {
    WalkVisits(present, start, now, x);
  }

  lemma CollectCons(m: seq<Entry>, fs: FileSystem, dirOf: nat -> string, stream: string, t: nat, ts: seq<nat>)
    requires Sorted(m)
    ensures Collect(m, fs, dirOf, stream, [t] + ts)
            == Collect(AddListing(m, stream, dirOf(t), Listing(fs, dirOf(t))), fs, dirOf, stream, ts)
  {
    assert ([t] + ts)[1..] == ts;
  }

  /** `fmap.addPath(file)` for each listed file in turn. */
  method AddPaths(m: seq<Entry>, stream: string, dir: string, names: seq<string>) returns (r: seq<Entry>)
    requires Sorted(m)
    ensures r == AddListing(m, stream, dir, names)
  {
    r := m;
    var j := 0;
    while j < |names|
      invariant 0 <= j <= |names|
      invariant Sorted(r)
      invariant AddListing(r, stream, dir, names[j..]) == AddListing(m, stream, dir, names)
    {
      assert names[j..][1..] == names[j + 1..];
      r := AddPath(r, stream, dir, names[j]);
      j := j + 1;
    }
  }

  /** List one minute directory and add the files of the stream it holds. */
  method ListMinute(m: seq<Entry>, fs: FileSystem, stream: string, dir: string) returns (r: seq<Entry>)
    requires Sorted(m)
    ensures r == AddListing(m, stream, dir, Listing(fs, dir))
  {
    r := m;
    var fileStatuses := ListStatus(fs, dir);
    if fileStatuses.Some? && |fileStatuses.value| > 0 {
      r := AddPaths(m, stream, dir, fileStatuses.value);
    }
  }

  /** One turn of the inner loop of `buildListing`: listing the minute directory of `t` consumes `t` from the walk. */
  lemma MinuteListed(before: seq<Entry>, after: seq<Entry>, fs: FileSystem, present: nat -> bool, dirOf: nat -> string,
                     stream: string, t: nat, hour: nat, now: nat)
    requires Sorted(before)
    requires t < now && HourOfDay(t) == hour
    requires after == AddListing(before, stream, dirOf(t), Listing(fs, dirOf(t)))
    ensures Sorted(after)
    ensures Collect(after, fs, dirOf, stream, MinutesOfHour(present, t + MillisPerMinute, hour, now))
            == Collect(before, fs, dirOf, stream, MinutesOfHour(present, t, hour, now))
  {
    var rest := MinutesOfHour(present, t + MillisPerMinute, hour, now);
    assert MinutesOfHour(present, t, hour, now) == [t] + rest;
    CollectCons(before, fs, dirOf, stream, t, rest);
  }

  /**
   * The inner loop of `buildListing`: list the minute directories from
   * `current` while they are before `now` and in hour of day `hour`.
   */
  method ListMinutesOfHour(fs: FileSystem, present: nat -> bool, dirOf: nat -> string, stream: string,
                           m: seq<Entry>, start: nat, hour: nat, now: nat) returns (r: seq<Entry>, current: nat)
    requires Sorted(m)
    ensures start <= current && !(current < now && HourOfDay(current) == hour)
    ensures Sorted(r)
    ensures Collect(r, fs, dirOf, stream, Walk(present, current, now))
            == Collect(m, fs, dirOf, stream, MinutesOfHour(present, start, hour, now))
  {
    r := m;
    current := start;
    ghost var target := Collect(m, fs, dirOf, stream, MinutesOfHour(present, start, hour, now));
    while current < now && hour == HourOfDay(current)
      invariant start <= current
      invariant Sorted(r)
      invariant Collect(r, fs, dirOf, stream, MinutesOfHour(present, current, hour, now)) == target
      decreases now - current
    {
      ghost var before := r;
      r := ListMinute(r, fs, stream, dirOf(current));
      MinuteListed(before, r, fs, present, dirOf, stream, current, hour, now);
      // move the current minute to the next minute
      current := current + MillisPerMinute;
    }
    assert MinutesOfHour(present, current, hour, now) == Walk(present, current, now);
  }

  /**
   * `buildListing(fmap, filter)`: walk from `start` up to `now`, testing
   * each hour directory once with `present`, and put every file listed in
   * a visited minute directory `dirOf(t)` into `m`.
   */
  method BuildListing(fs: FileSystem, present: nat -> bool, dirOf: nat -> string, stream: string,
                      m: seq<Entry>, start: nat, now: nat) returns (r: seq<Entry>)
    requires Sorted(m)
    ensures r == Collect(m, fs, dirOf, stream, Walk(present, start, now))
  {
    r := m;
    var current := start;
    ghost var target := Collect(m, fs, dirOf, stream, Walk(present, start, now));
    while current < now
      invariant Sorted(r)
      invariant Collect(r, fs, dirOf, stream, Walk(present, current, now)) == target
      decreases now - current
    {
      var hour := HourOfDay(current);
      if present(current / MillisPerHour) {
        assert MinutesOfHour(present, current, hour, now) == Walk(present, current, now);
        r, current := ListMinutesOfHour(fs, present, dirOf, stream, r, current, hour, now);
      } else {
        // go to the next hour
        current := NextHourStart(current);
      }
    }
  }

  /** The entry's path lies in a directory from which `getDateFromDatabusStreamDir` reads a date. */
  predicate Placed(streamDir: string, e: Entry) {
    |streamDir| + 1 <= |e.path| && DateFromStreamDir(streamDir, e.path).Some?
  }

  predicate AllPlaced(streamDir: string, m: seq<Entry>) {
    forall e :: e in m ==> Placed(streamDir, e)
  }

  /** The entry's path is its name inside the directory of one of the instants `ts`. */
  predicate InDirs(dirOf: nat -> string, ts: seq<nat>, e: Entry) {
    exists i :: 0 <= i < |ts| && e.path == Join(dirOf(ts[i]), e.name)
  }

  lemma {:induction false} AddListingFrom(m: seq<Entry>, stream: string, dir: string, names: seq<string>, x: Entry)
    requires Sorted(m)
    requires x in AddListing(m, stream, dir, names)
    ensures x in m || x.path == Join(dir, x.name)
    decreases |names|
  {
    if |names| > 0 {
      AddListingFrom(AddPath(m, stream, dir, names[0]), stream, dir, names[1..], x);
    }
  }

  /** Every entry the walk adds is a listed file of one of the visited directories. */
  lemma {:induction false} CollectFrom(m: seq<Entry>, fs: FileSystem, dirOf: nat -> string, stream: string, ts: seq<nat>, x: Entry)
    requires Sorted(m)
    requires x in Collect(m, fs, dirOf, stream, ts)
    ensures x in m || InDirs(dirOf, ts, x)
    decreases |ts|
  {
    if |ts| > 0 {
      var dir := dirOf(ts[0]);
      var m' := AddListing(m, stream, dir, Listing(fs, dir));
      CollectFrom(m', fs, dirOf, stream, ts[1..], x);
      if x in m' {
        AddListingFrom(m, stream, dir, Listing(fs, dir), x);
      } else {
        var i :| 0 <= i < |ts[1..]| && x.path == Join(dirOf(ts[1..][i]), x.name);
        assert ts[1..][i] == ts[i + 1];
      }
    }
  }

  /** Every file `build()` puts into the map yields a date for the next rebuild. */
  lemma BuiltListingPlaced(fs: FileSystem, streamDir: string, stream: string, start: nat)
    ensures AllPlaced(streamDir, Collect([], fs, MinuteDirs(streamDir), stream, Walk(HoursPresent(fs, streamDir), start, fs.now)))
  {
    var ts := Walk(HoursPresent(fs, streamDir), start, fs.now);
    var r := Collect([], fs, MinuteDirs(streamDir), stream, ts);
    forall e | e in r ensures Placed(streamDir, e) {
      CollectFrom([], fs, MinuteDirs(streamDir), stream, ts, e);
      PlacedInDirs(streamDir, ts, e);
    }
  }

  /** A file inside the minute directory of an instant yields a date. */
  lemma PlacedInDirs(streamDir: string, ts: seq<nat>, e: Entry)
    requires InDirs(MinuteDirs(streamDir), ts, e)
    ensures Placed(streamDir, e)
  {
    var i :| 0 <= i < |ts| && e.path == Join(MinuteDirs(streamDir)(ts[i]), e.name);
    assert e.path == Join(Join(streamDir, MinuteDirName(ts[i])), e.name);
    DateFromStreamDirOfFile(streamDir, ts[i], e.name);
  }

  /** What the map holds after `build()` with build timestamp `start`. */
  function BuiltListing(fs: FileSystem, streamDir: string, stream: string, start: nat): (r: seq<Entry>)
    ensures Sorted(r) && AllPlaced(streamDir, r)
  {
    BuiltListingPlaced(fs, streamDir, stream, start);
    Collect([], fs, MinuteDirs(streamDir), stream, Walk(HoursPresent(fs, streamDir), start, fs.now))
  }

  /** The key a checkpointed file name stands for, when it names a file of the stream. */
  function CheckpointKey(stream: string, fileName: string): Option<FileKey> {
    match ParseDatabusStreamFile(stream, fileName)
    case None => None
    case Some(f) => Some(DatabusKey(f))
  }

  /** The record reader `fs` gives for file `e`, with `lineNum` lines skipped (none where the file is missing). */
  function OpenedAt(fs: FileSystem, e: Entry, lineNum: nat): Option<Stream> {
    match Open(fs, e.path)
    case None => None
    case Some(s) => Some(Skip(s, lineNum))
  }

  class DatabusStreamReader {

    const streamDir: string
    const streamName: string
    const noNewFiles: bool

    var closed: bool
    var fileMap: seq<Entry>
    var currentFile: Option<Entry>
    var currentLineNum: nat
    var buildTimestamp: Option<nat>
    var recordReader: Option<Stream>
    var currentFileSplit: bool

    /** The map is sorted and every file in it, and the current file, lies in a dated directory. */
    ghost predicate Valid()
      reads this
    {
      Sorted(fileMap) && AllPlaced(streamDir, fileMap)
      && (currentFile.Some? ==> Placed(streamDir, currentFile.value))
    }

    /**
     * The open record reader reads the current file and stands at the
     * current line number, or at the end of a file shorter than it: the
     * line it yields next is line `currentLineNum` of the current file.
     */
    ghost predicate InStep()
      reads this
    {
      recordReader.Some? ==>
        var s := recordReader.value;
        && currentFile.Some? && s.path == currentFile.value.path
        && s.pos <= |s.lines| && s.pos <= currentLineNum && (s.pos < currentLineNum ==> s.pos == |s.lines|)
    }

    constructor (streamDir: string, streamName: string, noNewFiles: bool)
      ensures this.streamDir == streamDir && this.streamName == streamName && this.noNewFiles == noNewFiles
      ensures !closed && fileMap == [] && currentFile.None? && currentLineNum == 0
      ensures buildTimestamp.None? && recordReader.None? && !currentFileSplit
      ensures Valid() && InStep()
    {
      this.streamDir := streamDir;
      this.streamName := streamName;
      this.noNewFiles := noNewFiles;
      closed := false;
      fileMap := [];
      currentFile := None;
      currentLineNum := 0;
      buildTimestamp := None;
      recordReader := None;
      currentFileSplit := false;
    }

    /** `build()`: clear the map and walk the listing from the build timestamp up to the clock of `fs`. */
    method Build(fs: FileSystem)
      requires Valid() && buildTimestamp.Some?
      modifies this
      ensures buildTimestamp == old(buildTimestamp)
      ensures Valid() && fileMap == BuiltListing(fs, streamDir, streamName, buildTimestamp.value)
      ensures closed == old(closed) && currentFile == old(currentFile) && currentLineNum == old(currentLineNum)
      ensures recordReader == old(recordReader) && currentFileSplit == old(currentFileSplit)
    {
      var r := BuildListing(fs, HoursPresent(fs, streamDir), MinuteDirs(streamDir), streamName,
                            [], buildTimestamp.value, fs.now);
      assert r == BuiltListing(fs, streamDir, streamName, buildTimestamp.value);
      assert Sorted(r) && AllPlaced(streamDir, r);
      fileMap := r;
    }

    /** `build(date)`: set the build timestamp, then build; a missing date fails with the map cleared. */
    method BuildFrom(date: Option<nat>, fs: FileSystem) returns (ok: bool)
      requires Valid()
      modifies this
      ensures Valid() && buildTimestamp == date && (ok <==> date.Some?)
      ensures ok ==> fileMap == BuiltListing(fs, streamDir, streamName, date.value)
      ensures !ok ==> fileMap == []
      ensures closed == old(closed) && currentFile == old(currentFile) && currentLineNum == old(currentLineNum)
      ensures recordReader == old(recordReader) && currentFileSplit == old(currentFileSplit)
    {
      buildTimestamp := date;
      if date.None? {
        fileMap := [];
        return false;
      }
      Build(fs);
      ok := true;
    }

    /**
     * `initializeCurrentFile(checkpoint)`: resume at the checkpointed file
     * and line when the map holds it; a checkpoint before the whole stream
     * starts at the first file instead; otherwise no file is current.
     */
    method InitializeCurrentFile(fileName: string, lineNum: nat) returns (ok: bool)
      requires Valid()
      modifies this
      ensures Valid() && fileMap == old(fileMap) && recordReader == old(recordReader)
      ensures var k := CheckpointKey(streamName, fileName);
              ok <==> k.Some? && (HasKey(fileMap, k.value) || IsBefore(fileMap, k.value))
      ensures var k := CheckpointKey(streamName, fileName);
              k.Some? && HasKey(fileMap, k.value) ==>
                currentFile == Some(fileMap[IndexOf(fileMap, k.value).value]) && currentLineNum == lineNum
      ensures var k := CheckpointKey(streamName, fileName);
              k.Some? && !HasKey(fileMap, k.value) && IsBefore(fileMap, k.value) ==>
                currentFile == Some(fileMap[0]) && currentLineNum == 0
      ensures !ok ==> currentFile.None?
      ensures old(recordReader).None? ==> InStep()
    {
      var k := CheckpointKey(streamName, fileName);
      currentFile := None;
      currentLineNum := 0;
      if k.None? {
        return false;
      }
      var i := IndexOf(fileMap, k.value);
      if i.Some? {
        assert fileMap[i.value] in fileMap;
        currentFile := Some(fileMap[i.value]);
        currentLineNum := lineNum;
        return true;
      }
      if IsBefore(fileMap, k.value) {
        ok := InitFromStart();
        return;
      }
      ok := false;
    }

    /** `initFromStart()`: the first file of the map, from its first line. */
    method InitFromStart() returns (ok: bool)
      requires Valid()
      modifies this
      ensures Valid() && fileMap == old(fileMap) && recordReader == old(recordReader)
      ensures ok <==> |fileMap| > 0
      ensures ok ==> currentFile == Some(fileMap[0]) && currentLineNum == 0
      ensures !ok ==> currentFile == old(currentFile) && currentLineNum == old(currentLineNum)
    {
      ok := |fileMap| > 0;
      if ok {
        assert fileMap[0] in fileMap;
        currentFile := Some(fileMap[0]);
        currentLineNum := 0;
      }
    }

    /** `closeCurrentFile()`: drop the record reader and the split. */
    method CloseCurrentFile()
      modifies this
      ensures recordReader.None? && !currentFileSplit
      ensures closed == old(closed) && fileMap == old(fileMap) && currentFile == old(currentFile)
      ensures currentLineNum == old(currentLineNum) && buildTimestamp == old(buildTimestamp)
    {
      recordReader := None;
      currentFileSplit := false;
    }

    /**
     * `openCurrentFile(next)`: close the open file; for a new file start
     * from line 0; open the current file when it exists and skip the lines
     * already read.
     */
    method OpenCurrentFile(next: bool, fs: FileSystem)
      requires currentFile.Some?
      modifies this
      ensures InStep()
      ensures closed == old(closed) && fileMap == old(fileMap) && currentFile == old(currentFile)
      ensures buildTimestamp == old(buildTimestamp)
      ensures currentLineNum == if next then 0 else old(currentLineNum)
      ensures recordReader == OpenedAt(fs, currentFile.value, currentLineNum)
      ensures currentFileSplit <==> currentFile.value.path in fs.files
    {
      CloseCurrentFile();
      if next {
        currentLineNum := 0;
      }
      var s := Open(fs, currentFile.value.path);
      if s.Some? {
        currentFileSplit := true;
        recordReader := Some(Skip(s.value, currentLineNum));
      }
    }

    /** `readRawLine()`: the next record of the open file, `None` at its end or when no file is open. */
    method ReadRawLine() returns (line: Option<string>)
      modifies this
      ensures old(recordReader).None? ==> line.None? && recordReader.None?
      ensures old(recordReader).Some? ==> recordReader.Some? && (line, recordReader.value) == ReadOne(old(recordReader).value)
      ensures closed == old(closed) && fileMap == old(fileMap) && currentFile == old(currentFile)
      ensures currentLineNum == old(currentLineNum) && buildTimestamp == old(buildTimestamp)
      ensures currentFileSplit == old(currentFileSplit)
    {
      line := None;
      if recordReader.Some? {
        var r := ReadOne(recordReader.value);
        line := r.0;
        recordReader := Some(r.1);
      }
    }

    /** `readLine(in, reader)` of the base reader: a raw line, counted in `currentLineNum`. */
    method ReadFromStream() returns (line: Option<string>)
      requires InStep()
      modifies this
      ensures InStep()
      ensures line.Some? ==> recordReader.Some? && currentLineNum == old(currentLineNum) + 1
                             && currentLineNum <= |recordReader.value.lines|
                             && line.value == recordReader.value.lines[currentLineNum - 1]
      ensures line.None? ==> currentLineNum == old(currentLineNum) && recordReader == old(recordReader)
      ensures closed == old(closed) && fileMap == old(fileMap) && currentFile == old(currentFile)
      ensures buildTimestamp == old(buildTimestamp) && currentFileSplit == old(currentFileSplit)
      ensures old(recordReader).Some? ==> recordReader.Some? && recordReader.value.lines == old(recordReader).value.lines
    {
      line := ReadRawLine();
      if line.Some? {
        currentLineNum := currentLineNum + 1;
      }
    }

    /** `nextFile()`: move to and open the file after the current one, if the map has one. */
    method NextFile(fs: FileSystem) returns (moved: bool)
      requires Valid() && InStep() && currentFile.Some?
      modifies this
      ensures Valid() && InStep() && currentFile.Some?
      ensures closed == old(closed) && fileMap == old(fileMap) && buildTimestamp == old(buildTimestamp)
      ensures moved <==> Successor(fileMap, old(currentFile).value.key).Some?
      ensures moved ==> currentFile == Some(fileMap[Successor(fileMap, old(currentFile).value.key).value])
                        && currentLineNum == 0 && recordReader == OpenedAt(fs, currentFile.value, 0)
      ensures !moved ==> currentFile == old(currentFile) && currentLineNum == old(currentLineNum)
                         && recordReader == old(recordReader)
    {
      var next := Successor(fileMap, currentFile.value.key);
      moved := next.Some?;
      if moved {
        assert fileMap[next.value] in fileMap;
        currentFile := Some(fileMap[next.value]);
        OpenCurrentFile(true, fs);
      }
    }

    /** `setNextHigherAndOpen(file)`: move to and open the least file above `k`, if the map has one. */
    method SetNextHigherAndOpen(k: FileKey, fs: FileSystem) returns (moved: bool)
      requires Valid() && InStep()
      modifies this
      ensures Valid() && InStep()
      ensures closed == old(closed) && fileMap == old(fileMap) && buildTimestamp == old(buildTimestamp)
      ensures moved <==> Higher(fileMap, k).Some?
      ensures moved ==> currentFile == Some(fileMap[Higher(fileMap, k).value]) && currentLineNum == 0
                        && recordReader == OpenedAt(fs, currentFile.value, 0)
      ensures !moved ==> currentFile == old(currentFile) && currentLineNum == old(currentLineNum)
                         && recordReader == old(recordReader)
    {
      var h := Higher(fileMap, k);
      moved := h.Some?;
      if moved {
        assert fileMap[h.value] in fileMap;
        currentFile := Some(fileMap[h.value]);
        OpenCurrentFile(true, fs);
      }
    }

    /** `close()`: the reader is closed and its file with it. */
    method Close()
      modifies this
      ensures closed && recordReader.None? && !currentFileSplit
      ensures fileMap == old(fileMap) && currentFile == old(currentFile) && currentLineNum == old(currentLineNum)
      ensures buildTimestamp == old(buildTimestamp)
    {
      CloseCurrentFile();
      closed := true;
    }
  }
}
