/**
 The append-only history with size-based rotation. File 0 is the current file and file `i`
 its `i`-th rotation. Every file operation may fail and leave the rotation half done.
 */
module History {
  import opened Utf8

  const U64_MAX: nat := 0xFFFF_FFFF_FFFF_FFFF

  /** A serialized line in memory; it ends with a newline, so it is not empty. */
  type Record = r: seq<Byte> | 0 < |r| <= U64_MAX witness [10]

  type Files = map<nat, seq<Record>>

  function Content(files: Files, i: nat): seq<Record> {
    if i in files then files[i] else []
  }

  /** The records still on disk in files `n`, `n - 1`, ..., 0: oldest to newest. */
  function Retained(files: Files, n: nat): seq<Record> {
    Content(files, n) + (if n == 0 then [] else Retained(files, n - 1))
  }

  /** The same without the oldest slot. */
  function Newer(files: Files, n: nat): seq<Record> {
    if n == 0 then [] else Retained(files, n - 1)
  }

  function Size(records: seq<Record>): nat {
    if records == [] then 0 else Size(records[..|records| - 1]) + |records[|records| - 1]|
  }

  predicate IsSuffix(s: seq<Record>, log: seq<Record>) {
    |s| <= |log| && log[|log| - |s|..] == s
  }

  function Rename(files: Files, i: nat, j: nat): Files {
    if i in files then (files - {i})[j := files[i]] else files
  }

  lemma {:induction false} RetainedDependsOnFiles(f: Files, g: Files, n: nat)
    requires forall i :: 0 <= i <= n ==> Content(f, i) == Content(g, i)
    ensures Retained(f, n) == Retained(g, n)
  {
    if n == 0 {
    } else {
      RetainedDependsOnFiles(f, g, n - 1);
    }
  }

  lemma RenameContents(files: Files, i: nat, k: nat)
    requires i + 1 !in files
    ensures Content(Rename(files, i, i + 1), k)
            == if k == i + 1 then Content(files, i) else if k == i then [] else Content(files, k)
  {
  }

  /** The two slots around the moved file, in front of whatever is below them. */
  lemma MovedPair(files: Files, i: nat)
    requires i + 1 !in files
    ensures Retained(Rename(files, i, i + 1), i + 1) == Retained(files, i + 1)
  {
    var g := Rename(files, i, i + 1);
    var below := if i == 0 then [] else Retained(files, i - 1);
    forall k: nat | k < i ensures Content(g, k) == Content(files, k) { RenameContents(files, i, k); }
    if i > 0 {
      RetainedDependsOnFiles(g, files, i - 1);
    }
    RenameContents(files, i, i);
    RenameContents(files, i, i + 1);
    assert Retained(g, i) == [] + below == below;
    assert Retained(files, i) == Content(files, i) + below;
    assert Retained(files, i + 1) == [] + Retained(files, i) == Retained(files, i);
    assert Retained(g, i + 1) == Content(files, i) + below;
  }

  /** Moving a file to the free slot above it changes nothing in the retained history. */
  lemma {:induction false} RenameKeepsHistory(files: Files, i: nat, n: nat)
    requires i + 1 !in files && i < n
    ensures Retained(Rename(files, i, i + 1), n) == Retained(files, n)
  {
    if n == i + 1 {
      MovedPair(files, i);
    } else {
      RenameKeepsHistory(files, i, n - 1);
      RenameContents(files, i, n);
    }
  }

  lemma {:induction false} AppendExtendsHistory(files: Files, r: Record, n: nat)
    ensures Retained(files[0 := Content(files, 0) + [r]], n) == Retained(files, n) + [r]
  {
    if n == 0 {
    } else {
      AppendExtendsHistory(files, r, n - 1);
    }
  }

  /** Deleting the oldest file drops a prefix of the retained history. */
  lemma DroppingOldestLeavesSuffix(files: Files, n: nat, log: seq<Record>)
    requires IsSuffix(Retained(files, n), log)
    ensures Retained(files - {n}, n) == Newer(files, n)
    ensures IsSuffix(Retained(files - {n}, n), log)
  {
    var newer := Newer(files, n);
    if n > 0 {
      RetainedDependsOnFiles(files, files - {n}, n - 1);
    }
    assert Retained(files - {n}, n) == [] + newer == newer;
    SuffixOfSuffix(Content(files, n), newer, log);
  }

  lemma SuffixOfSuffix(older: seq<Record>, newer: seq<Record>, log: seq<Record>)
    requires IsSuffix(older + newer, log)
    ensures IsSuffix(newer, log)
  {
    assert newer == (older + newer)[|older|..];
  }

  lemma SuffixGrows(s: seq<Record>, log: seq<Record>, r: Record)
    requires IsSuffix(s, log)
    ensures IsSuffix(s + [r], log + [r])
  {
    assert (log + [r])[|log| - |s|..] == log[|log| - |s|..] + [r];
  }

  function SaturatingAdd(a: nat, b: nat): nat {
    if a + b <= U64_MAX then a + b else U64_MAX
  }

  /** Within the limit, or a single record that exceeds it alone. */
  predicate Bounded(records: seq<Record>, maxBytes: nat) {
    records != [] && (Size(records) <= maxBytes || |records| == 1)
  }

  /** What every reachable directory satisfies: at most `n + 1` files, each bounded, together a
      suffix of the log of all appended records. */
  ghost predicate Sound(files: Files, maxBytes: nat, n: nat, log: seq<Record>) {
    && (forall i :: i in files ==> i <= n && Bounded(files[i], maxBytes))
    && IsSuffix(Retained(files, n), log)
  }

  /** Slot `index + 1` is free, the slots above hold what was one slot lower, those below are
      untouched. */
  ghost predicate Shifted(was: Files, files: Files, index: int, n: nat) {
    && -1 <= index < n
    && index + 1 !in files
    && (forall i: nat :: i <= index ==> Content(files, i) == Content(was, i))
    && (forall i: nat :: index + 1 < i <= n ==> Content(files, i) == Content(was, i - 1))
  }

  lemma RenameKeepsSound(files: Files, i: nat, maxBytes: nat, n: nat, log: seq<Record>)
    requires Sound(files, maxBytes, n, log) && i + 1 !in files && i < n
    ensures Sound(Rename(files, i, i + 1), maxBytes, n, log)
  {
    RenameKeepsHistory(files, i, n);
  }

  lemma DropKeepsSound(files: Files, maxBytes: nat, n: nat, log: seq<Record>)
    requires Sound(files, maxBytes, n, log)
    ensures Sound(files - {n}, maxBytes, n, log) && Retained(files - {n}, n) == Newer(files, n)
    ensures forall i :: 0 <= i < n ==> Content(files - {n}, i) == Content(files, i)
  {
    DroppingOldestLeavesSuffix(files, n, log);
  }

  /** A shift under way: sound, shifted down to `index`, and every record still there. */
  ghost predicate Shifting(was: Files, files: Files, index: int, maxBytes: nat, n: nat, log: seq<Record>) {
    Sound(files, maxBytes, n, log) && Shifted(was, files, index, n) && Retained(files, n) == Retained(was, n)
  }

  lemma ShiftStep(was: Files, files: Files, index: nat, maxBytes: nat, n: nat, log: seq<Record>)
    requires Shifting(was, files, index, maxBytes, n, log)
    ensures index + 1 !in files
    ensures Shifting(was, Rename(files, index, index + 1), index - 1, maxBytes, n, log)
  {
    RenameKeepsHistory(files, index, n);
    RenameKeepsSound(files, index, maxBytes, n, log);
    RenameShifts(was, files, index, n);
  }

  /** The directory after the renames of the slots above `index`. */
  function ShiftedTo(was: Files, n: nat, index: int): Files
    requires -1 <= index < n
    decreases n - index
  {
    if index == n - 1 then was else Rename(ShiftedTo(was, n, index + 1), index + 1, index + 2)
  }

  lemma {:induction false} ShiftedToIsShifting(was: Files, index: int, maxBytes: nat, n: nat, log: seq<Record>)
    requires Sound(was, maxBytes, n, log) && n !in was && -1 <= index < n
    ensures Shifting(was, ShiftedTo(was, n, index), index, maxBytes, n, log)
    decreases n - index
  {
    if index == n - 1 {
    } else {
      ShiftedToIsShifting(was, index + 1, maxBytes, n, log);
      ShiftStep(was, ShiftedTo(was, n, index + 1), index + 1, maxBytes, n, log);
    }
  }

  lemma NextSlotIsFree(was: Files, index: int, maxBytes: nat, n: nat, log: seq<Record>)
    requires Sound(was, maxBytes, n, log) && n !in was && -1 <= index < n
    ensures index + 1 !in ShiftedTo(was, n, index)
  {
    ShiftedToIsShifting(was, index, maxBytes, n, log);
  }

  lemma RenameShifts(was: Files, files: Files, index: nat, n: nat)
    requires Shifted(was, files, index, n)
    ensures Shifted(was, Rename(files, index, index + 1), index - 1, n)
  {
    var g := Rename(files, index, index + 1);
    assert Content(g, index + 1) == Content(files, index);
    forall i: nat | i != index && i != index + 1
      ensures Content(g, i) == Content(files, i)
    {
    }
  }

  /** The current file may grow when the record fits, or when it is the first one in it. */
  lemma AppendKeepsSound(files: Files, r: Record, maxBytes: nat, n: nat, log: seq<Record>)
    requires Sound(files, maxBytes, n, log)
    requires Size(Content(files, 0)) + |r| <= U64_MAX
    requires Content(files, 0) == [] || SaturatingAdd(Size(Content(files, 0)), |r|) <= maxBytes <= U64_MAX
    ensures Sound(files[0 := Content(files, 0) + [r]], maxBytes, n, log + [r])
    ensures Retained(files[0 := Content(files, 0) + [r]], n) == Retained(files, n) + [r]
  {
    AppendExtendsHistory(files, r, n);
    SuffixGrows(Retained(files, n), log, r);
    SizeAppends(Content(files, 0), r);
  }

  class HistoryFile {
    const maxBytes: nat
    const rotations: nat
    var files: Files
    ghost var log: seq<Record>          // every record whose append succeeded
    ghost var overwritten: bool         // whether a rename ever replaced an existing file

    ghost predicate Valid() reads this {
      maxBytes <= U64_MAX && Sound(files, maxBytes, rotations, log) && !overwritten
    }

    constructor (maxBytes: nat, rotations: nat)
      requires maxBytes <= U64_MAX
      ensures Valid() && log == [] && files == map[]
      ensures this.maxBytes == maxBytes && this.rotations == rotations
    {
      this.maxBytes, this.rotations := maxBytes, rotations;
      files, log, overwritten := map[], [], false;
      new;
      EmptyHistory(rotations);
    }

    /** The rename system call: it silently replaces the destination. */
    method RenameIfExists(i: nat, j: nat)
      modifies this`files, this`overwritten
      ensures files == Rename(old(files), i, j)
      ensures overwritten == (old(overwritten) || (i in old(files) && j in old(files)))
    {
      if i in files {
        overwritten := overwritten || j in files;
        files := (files - {i})[j := files[i]];
      }
    }

    /** Moves every file one slot up, from the highest. `fails(k)` makes the rename of slot `k`
        fail; stopped half-way it has still overwritten nothing and kept every record. */
    method ShiftFiles(fails: nat -> bool) returns (ok: bool)
      requires Valid() && rotations > 0 && rotations !in files
      modifies this`files, this`overwritten
      ensures Valid()
      ensures Retained(files, rotations) == Retained(old(files), rotations)
      ensures ok ==> Shifted(old(files), files, -1, rotations)
      ensures ok <==> forall k :: 0 <= k < rotations ==> !fails(k)
    {
      var index := rotations - 1;
      while index >= 0
        invariant -1 <= index < rotations && !overwritten
        invariant files == ShiftedTo(old(files), rotations, index)
        invariant forall k :: index < k < rotations ==> !fails(k)
      {
        if fails(index) {
          ShiftedToIsShifting(old(files), index, maxBytes, rotations, log);
          return false;
        }
        NextSlotIsFree(old(files), index, maxBytes, rotations, log);
        RenameIfExists(index, index + 1);
        index := index - 1;
      }
      ShiftedToIsShifting(old(files), -1, maxBytes, rotations, log);
      ok := true;
    }

    /** Frees slot 0, losing exactly the records of the oldest file. `fails(rotations)` makes
        its removal fail and `fails(rotations + 1)` the directory sync. */
    method RotateFiles(fails: nat -> bool) returns (ok: bool)
      requires Valid()
      modifies this`files, this`overwritten
      ensures Valid()
      ensures Retained(files, rotations)
              == if fails(rotations) then Retained(old(files), rotations) else Newer(old(files), rotations)
      ensures ok ==> !fails(rotations)
      ensures ok ==> 0 !in files && forall i :: 0 < i <= rotations ==> Content(files, i) == Content(old(files), i - 1)
      ensures (forall k :: !fails(k)) ==> ok
    {
      if fails(rotations) {
        return false;
      }
      DropKeepsSound(files, maxBytes, rotations, log);
      files := files - {rotations};
      if rotations == 0 {
        return true;
      }
      ok := ShiftFiles(fails);
      ok := ok && !fails(rotations + 1);
    }

    /** The record would overflow a current file that is not empty. */
    ghost predicate Due(record: Record) reads this {
      Content(files, 0) != [] && SaturatingAdd(Size(Content(files, 0)), |record|) > maxBytes
    }

    /** Appends one record, rotating first if it would overflow the current file. What was
        retained before stays, except the oldest file of a rotation that removed it; the
        record follows it exactly on success. The file system refuses a file of more than `U64_MAX`
        bytes, the largest length it can report. */
    method Append(record: Record, fails: nat -> bool, appendFails: bool) returns (ok: bool)
      requires Valid()
      modifies this
      ensures Valid()
      ensures ok ==> log == old(log) + [record]
      ensures Retained(files, rotations)
              == (if old(Due(record)) && !fails(rotations) then Newer(old(files), rotations)
                  else Retained(old(files), rotations))
                 + (if ok then [record] else [])
      ensures !ok ==> log == old(log)
      ensures (forall k :: !fails(k)) && !appendFails
                && (maxBytes < U64_MAX || Size(Content(old(files), 0)) + |record| <= U64_MAX)
              ==> ok
    {
      SizeIsZeroOnlyIfEmpty(Content(files, 0));
      var currentBytes := if 0 in files then Size(files[0]) else 0;
      if currentBytes > 0 && SaturatingAdd(currentBytes, |record|) > maxBytes {
        var rotated := RotateFiles(fails);
        if !rotated {
          return false;
        }
      }
      if appendFails || (if 0 in files then Size(files[0]) else 0) + |record| > U64_MAX {
        return false;
      }
      AppendKeepsSound(files, record, maxBytes, rotations, log);
      files := files[0 := (if 0 in files then files[0] else []) + [record]];
      log := log + [record];
      ok := true;
    }
  }

  lemma {:induction false} EmptyHistory(n: nat)
    ensures Retained(map[], n) == []
  {
    if n == 0 {
    } else {
      EmptyHistory(n - 1);
    }
  }

  lemma SizeIsZeroOnlyIfEmpty(records: seq<Record>)
    ensures Size(records) == 0 <==> records == []
  {
  }

  lemma SizeAppends(records: seq<Record>, r: Record)
    ensures Size(records + [r]) == Size(records) + |r|
  {
    assert (records + [r])[..|records|] == records;
  }
}
