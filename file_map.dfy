/**
 * The file map a stream reader keeps of its directory (a `TreeMap` from the
 * parsed file to its path): entries in strictly increasing key order, one
 * per key, with the look-ups the readers use.
 */
module FileMaps {

  import opened Wrappers
  import opened StreamFiles

  /** One file of the map: its key, its name and its full path. */
  datatype Entry = Entry(key: FileKey, name: string, path: string)

  predicate Sorted(es: seq<Entry>) {
    forall i, j :: 0 <= i < j < |es| ==> KeyBefore(es[i].key, es[j].key)
  }

  predicate HasKey(es: seq<Entry>, k: FileKey) {
    exists i :: 0 <= i < |es| && es[i].key == k
  }

  lemma SortedCons(e: Entry, es: seq<Entry>)
    requires Sorted(es)
    requires |es| > 0 ==> KeyBefore(e.key, es[0].key)
    ensures Sorted([e] + es)
  {
    var r := [e] + es;
    forall i, j | 0 <= i < j < |r|
      ensures KeyBefore(r[i].key, r[j].key)
    {
      if i == 0 && j > 1 { KeyBeforeTransitive(e.key, es[0].key, es[j - 1].key); }
    }
  }

  /** Position of the entry with key `k`. */
  function IndexOf(es: seq<Entry>, k: FileKey): (r: Option<nat>)
    ensures r.Some? ==> r.value < |es| && es[r.value].key == k
    ensures r.None? <==> !HasKey(es, k)
  {
    if |es| == 0 then None
    else if es[0].key == k then Some(0)
    else
      var t := IndexOf(es[1..], k);
      if t.None? then
        assert forall i :: 1 <= i < |es| ==> es[i] == es[1..][i - 1];
        None
      else Some(t.value + 1)
  }

  /** In a sorted map the entry with a given key is unique. */
  lemma IndexOfUnique(es: seq<Entry>, k: FileKey, i: nat)
    requires Sorted(es)
    requires i < |es| && es[i].key == k
    ensures IndexOf(es, k) == Some(i)
  {
    var j := IndexOf(es, k).value;
    if j < i { KeyBeforeIrreflexive(k); }
    if i < j { KeyBeforeIrreflexive(k); }
  }

  /** `put`: the entry replaces any entry with the same key; the map stays sorted. */
  function Add(es: seq<Entry>, e: Entry): (r: seq<Entry>)
    requires Sorted(es)
    ensures Sorted(r)
    ensures forall x :: x in r <==> x == e || (x in es && x.key != e.key)
  {
    if |es| == 0 then [e]
    else if KeyBefore(e.key, es[0].key) then
      SortedCons(e, es);
      assert forall x :: x in es ==> x.key != e.key by {
        forall x | x in es ensures x.key != e.key {
          var j :| 0 <= j < |es| && es[j] == x;
          if j > 0 { KeyBeforeTransitive(e.key, es[0].key, es[j].key); }
          KeyBeforeIrreflexive(e.key);
        }
      }
      [e] + es
    else if e.key == es[0].key then
      assert Sorted(es[1..]);
      SortedCons(e, es[1..]);
      assert forall x :: x in es[1..] ==> x.key != e.key by {
        forall x | x in es[1..] ensures x.key != e.key {
          var j :| 0 <= j < |es[1..]| && es[1..][j] == x;
          assert KeyBefore(es[0].key, es[j + 1].key);
          KeyBeforeIrreflexive(e.key);
        }
      }
      assert es == [es[0]] + es[1..];
      [e] + es[1..]
    else
      KeyBeforeTotal(e.key, es[0].key);
      var rest := Add(es[1..], e);
      assert es == [es[0]] + es[1..];
      assert forall x :: x in rest ==> KeyBefore(es[0].key, x.key);
      SortedConsAfter(es[0], rest);
      [es[0]] + rest
  }

  lemma SortedConsAfter(e: Entry, es: seq<Entry>)
    requires Sorted(es)
    requires forall x :: x in es ==> KeyBefore(e.key, x.key)
    ensures Sorted([e] + es)
  {
    if |es| > 0 { assert es[0] in es; }
    SortedCons(e, es);
  }

  lemma HasKeyAdd(es: seq<Entry>, e: Entry, k: FileKey)
    requires Sorted(es)
    ensures HasKey(Add(es, e), k) <==> k == e.key || HasKey(es, k)
  {
    var r := Add(es, e);
    if k == e.key {
      assert e in r;
      var i :| 0 <= i < |r| && r[i] == e;
    } else if HasKey(es, k) {
      var i :| 0 <= i < |es| && es[i].key == k;
      assert es[i] in r;
      var j :| 0 <= j < |r| && r[j] == es[i];
    }
    if HasKey(r, k) {
      var i :| 0 <= i < |r| && r[i].key == k;
      assert r[i] in r;
      if r[i] != e {
        var j :| 0 <= j < |es| && es[j] == r[i];
      }
    }
  }

  /** Index of the first entry whose key is strictly above `k` (`higherEntry`). */
  function Higher(es: seq<Entry>, k: FileKey): (r: Option<nat>)
    ensures r.Some? ==> r.value < |es| && KeyBefore(k, es[r.value].key)
    ensures r.Some? ==> forall i :: 0 <= i < r.value ==> !KeyBefore(k, es[i].key)
    ensures r.None? ==> forall i :: 0 <= i < |es| ==> !KeyBefore(k, es[i].key)
  {
    if |es| == 0 then None
    else if KeyBefore(k, es[0].key) then Some(0)
    else
      var t := Higher(es[1..], k);
      if t.None? then
        assert forall i :: 1 <= i < |es| ==> es[i] == es[1..][i - 1];
        None
      else
        assert forall i :: 1 <= i < t.value + 1 ==> es[i] == es[1..][i - 1];
        Some(t.value + 1)
  }

  /** In a sorted map, the entry `Higher` picks is the least key above `k`. */
  lemma HigherIsLeast(es: seq<Entry>, k: FileKey, j: nat)
    requires Sorted(es)
    requires j < |es| && KeyBefore(k, es[j].key)
    ensures Higher(es, k).Some? && Higher(es, k).value <= j
  {
  }

  /** The successor of the entry with key `k`, when `k` is in the map (the iterator's `next`). */
  function Successor(es: seq<Entry>, k: FileKey): (r: Option<nat>)
    ensures r.Some? ==> 0 < r.value < |es| && es[r.value - 1].key == k
    ensures r.None? ==> !HasKey(es, k) || IndexOf(es, k).value == |es| - 1
  {
    match IndexOf(es, k)
    case None => None
    case Some(i) => if i + 1 < |es| then Some(i + 1) else None
  }

  /** No entry up to the one with key `k` lies above `k`. */
  lemma NoneAboveUpTo(es: seq<Entry>, k: FileKey, i: nat)
    requires Sorted(es)
    requires i < |es| && es[i].key == k
    ensures forall j :: 0 <= j <= i ==> !KeyBefore(k, es[j].key)
  {
    forall j | 0 <= j <= i
      ensures !KeyBefore(k, es[j].key)
    {
      if j < i { KeyBeforeAsymmetric(es[j].key, k); } else { KeyBeforeIrreflexive(k); }
    }
  }

  /** For a file in the map, the next file and the next higher file are the same. */
  lemma SuccessorIsHigher(es: seq<Entry>, k: FileKey)
    requires Sorted(es) && HasKey(es, k)
    ensures Successor(es, k) == Higher(es, k)
  {
    var i := IndexOf(es, k).value;
    NoneAboveUpTo(es, k, i);
    var h := Higher(es, k);
    if i + 1 < |es| {
      HigherIsLeast(es, k, i + 1);
      assert h == Some(i + 1);
    } else {
      assert h.None?;
    }
  }

  /** `isWithin`: the map is non-empty and `k` lies between its first and last keys. */
  predicate IsWithin(es: seq<Entry>, k: FileKey) {
    |es| > 0 && !KeyBefore(k, es[0].key) && !KeyBefore(es[|es| - 1].key, k)
  }

  /** `isBefore`: the map is non-empty and `k` lies below its first key. */
  predicate IsBefore(es: seq<Entry>, k: FileKey) {
    |es| > 0 && KeyBefore(k, es[0].key)
  }

  /** A key within the map's range that is not in the map has a next higher entry. */
  lemma WithinMissingHasHigher(es: seq<Entry>, k: FileKey)
    requires IsWithin(es, k) && !HasKey(es, k)
    ensures Higher(es, k).Some?
  {
    KeyBeforeTotal(k, es[|es| - 1].key);
  }
}
