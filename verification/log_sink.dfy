/**
 * The rotating log copy (apps/api/src/logging/file-log-sink.ts). Generation 0 is the live file,
 * generation g the file ending in `.g`. Every file-system call may fail, which disables the sink.
 */
module LogSink {
  /** An encoded line, its newline included. */
  type Line = seq<int>

  function At<T>(m: map<nat, seq<T>>, g: nat): seq<T> {
    if g in m then m[g] else []
  }

  /** Generations `top` down to the live file, oldest first. */
  function Read<T>(m: map<nat, seq<T>>, top: nat): seq<T> {
    if top == 0 then At(m, 0) else At(m, top) + Read(m, top - 1)
  }

  function Flatten(lines: seq<Line>): seq<int> {
    if lines == [] then [] else lines[0] + Flatten(lines[1..])
  }

  function RenamedIfPresent<T>(m: map<nat, seq<T>>, from: nat, to: nat): map<nat, seq<T>> {
    if from in m then m[to := m[from]] - {from} else m
  }

  predicate IsSuffix<T(==)>(a: seq<T>, b: seq<T>) {
    |a| <= |b| && a == b[|b| - |a|..]
  }

  lemma SuffixTrans<T>(a: seq<T>, b: seq<T>, c: seq<T>)
    requires IsSuffix(a, b) && IsSuffix(b, c)
    ensures IsSuffix(a, c)
  {
    assert a == c[|c| - |b|..][|b| - |a|..];
  }

  lemma SuffixSnoc<T>(a: seq<T>, b: seq<T>, x: T)
    requires IsSuffix(a, b)
    ensures IsSuffix(a + [x], b + [x])
  {
  }

  lemma {:induction false} FlattenConcat(a: seq<Line>, b: seq<Line>)
    ensures Flatten(a + b) == Flatten(a) + Flatten(b)
  {
    if a == [] {
      assert a + b == b;
    } else {
      assert (a + b)[0] == a[0] && (a + b)[1..] == a[1..] + b;
      FlattenConcat(a[1..], b);
    }
  }

  lemma {:induction false} ReadSame<T>(m: map<nat, seq<T>>, n: map<nat, seq<T>>, top: nat)
    requires forall g: nat | g <= top :: At(m, g) == At(n, g)
    ensures Read(m, top) == Read(n, top)
  {
    if top > 0 { ReadSame(m, n, top - 1); }
  }

  /** A rename into an empty slot loses nothing; a rename onto the oldest generation loses exactly that one. */
  lemma {:induction false} RenameReads<T>(m: map<nat, seq<T>>, from: nat, top: nat)
    requires from < top && (from + 1 == top || from + 1 !in m)
    ensures Read(RenamedIfPresent(m, from, from + 1), top)
            == if from in m && from + 1 == top then Read(m, top)[|At(m, top)|..] else Read(m, top)
    decreases top
  {
    var n := RenamedIfPresent(m, from, from + 1);
    if from in m {
      if from + 1 == top {
        if from > 0 { ReadSame(m, n, from - 1); }
        assert Read(n, from) == Read(m, from)[|At(m, from)|..];
      } else {
        RenameReads(m, from, top - 1);
        assert At(n, top) == At(m, top);
      }
    }
  }

  lemma ReadSnoc<T>(m: map<nat, seq<T>>, top: nat, xs: seq<T>)
    requires 0 in m
    ensures Read(m[0 := m[0] + xs], top) == Read(m, top) + xs
  {
    if top > 0 { ReadSnoc(m, top - 1, xs); }
  }

  /** The names in use, and the lines each file holds. */
  ghost predicate Stores(files: map<nat, seq<int>>, stored: map<nat, seq<Line>>, torn: seq<int>, keep: nat) {
    && files.Keys == stored.Keys
    && (forall g | g in files :: g <= keep && files[g] == Flatten(stored[g]) + (if g == 0 then torn else []))
    && (0 !in files ==> torn == [])
  }

  ghost predicate Bounded(files: map<nat, seq<int>>, limit: nat) {
    forall g | g in files :: |files[g]| <= limit
  }

  lemma {:induction false} ReadStores(files: map<nat, seq<int>>, stored: map<nat, seq<Line>>, torn: seq<int>, keep: nat,
      top: nat)
    requires Stores(files, stored, torn, keep) && top <= keep
    ensures Read(files, top) == Flatten(Read(stored, top)) + torn
  {
    StoredAt(files, stored, torn, keep, top);
    if top > 0 {
      ReadStores(files, stored, torn, keep, top - 1);
      FlattenConcat(At(stored, top), Read(stored, top - 1));
      Regroup(Flatten(At(stored, top)), Flatten(Read(stored, top - 1)), torn);
    }
  }

  lemma StoredAt(files: map<nat, seq<int>>, stored: map<nat, seq<Line>>, torn: seq<int>, keep: nat, g: nat)
    requires Stores(files, stored, torn, keep)
    ensures At(files, g) == Flatten(At(stored, g)) + if g == 0 then torn else []
  {
  }

  lemma Regroup(a: seq<int>, b: seq<int>, c: seq<int>)
    ensures a + (b + c) == (a + b) + c && a + [] == a
  {
  }

  lemma RenameStores(files: map<nat, seq<int>>, stored: map<nat, seq<Line>>, keep: nat, from: nat, limit: nat)
    requires Stores(files, stored, [], keep) && Bounded(files, limit) && from < keep
    ensures Stores(RenamedIfPresent(files, from, from + 1), RenamedIfPresent(stored, from, from + 1), [], keep)
    ensures Bounded(RenamedIfPresent(files, from, from + 1), limit)
  {
  }

  lemma GrowBounded(files: map<nat, seq<int>>, part: seq<int>, before: nat, limit: nat)
    requires Bounded(files, before) && before <= limit && 0 in files && |files[0]| + |part| <= limit
    ensures Bounded(files[0 := files[0] + part], limit)
  {
  }

  /** An empty live file holds no lines. */
  lemma EmptyStores(files: map<nat, seq<int>>, stored: map<nat, seq<Line>>, keep: nat, limit: nat)
    requires Stores(files, stored, [], keep) && Bounded(files, limit) && 0 !in files
    ensures Stores(files[0 := []], stored[0 := []], [], keep) && Bounded(files[0 := []], limit)
    ensures Read(stored[0 := []], keep) == Read(stored, keep)
  {
    ReadSame(stored, stored[0 := []], keep);
  }

  lemma TornStores(files: map<nat, seq<int>>, stored: map<nat, seq<Line>>, keep: nat, part: seq<int>)
    requires Stores(files, stored, [], keep) && 0 in files
    ensures Stores(files[0 := files[0] + part], stored, part, keep)
  {
  }

  lemma LineStores(files: map<nat, seq<int>>, stored: map<nat, seq<Line>>, keep: nat, line: Line)
    requires Stores(files, stored, [], keep) && 0 in files
    ensures Stores(files[0 := files[0] + line], stored[0 := stored[0] + [line]], [], keep)
  {
    FlattenConcat(stored[0], [line]);
    assert Flatten([line]) == line;
  }

  /** What a completed rotation keeps: everything but the oldest generation, if one was there to be overwritten. */
  ghost function Survivors(was: map<nat, seq<Line>>, keep: nat): (r: seq<Line>)
    requires keep > 0
    ensures IsSuffix(r, Read(was, keep))
  {
    if keep - 1 in was then Read(was, keep)[|At(was, keep)|..] else Read(was, keep)
  }

  /** What a rotation loses is the oldest generation, and that only if there is one to rename over it. */
  lemma LostExactly(was: map<nat, seq<Line>>, keep: nat)
    requires keep > 0
    ensures Read(was, keep)
         == (if keep in was && keep - 1 in was then was[keep] else []) + Survivors(was, keep)
  {
  }

  class FileLogSink {
    const maxBytes: nat
    const keep: nat
    var files: map<nat, seq<int>>
    var size: nat
    var isOpen: bool
    /** Every line given to an open sink and written whole. */
    ghost var lines: seq<Line>
    /** The lines each file holds, and what a failed write left behind in the live file. */
    ghost var stored: map<nat, seq<Line>>
    ghost var torn: seq<int>
    ghost var longest: nat

    ghost predicate Holds()
      reads this`files, this`stored, this`torn, this`longest
    {
      Stores(files, stored, torn, keep) && Bounded(files, if maxBytes > longest then maxBytes else longest)
    }

    ghost predicate Valid()
      reads this
    {
      && Holds()
      && IsSuffix(Read(stored, keep), lines)
      && (isOpen ==> 0 in files && size == |files[0]| && torn == [])
    }

    constructor (maxBytes: nat, keep: nat, opens: bool)
      ensures Valid() && this.maxBytes == maxBytes && this.keep == keep && lines == []
      ensures isOpen == (maxBytes > 0 && opens) && files == if isOpen then map[0 := []] else map[]
    {
      this.maxBytes, this.keep := maxBytes, keep;
      files, stored := map[], map[];
      size, isOpen, lines, torn, longest := 0, false, [], [], 0;
      new;
      NothingStored(keep);
      if maxBytes > 0 {
        OpenFile(opens);
      }
    }

    static lemma NothingStored(top: nat)
      ensures Read<Line>(map[], top) == []
    {
    }

    /** Open the live file for appending, creating it if it is not there; `opens` says whether that works. */
    method OpenFile(opens: bool)
      requires Holds() && torn == [] && IsSuffix(Read(stored, keep), lines) && !isOpen
      modifies this
      ensures Valid() && isOpen == opens
      ensures files == old(if 0 in files || !opens then files else files[0 := []])
      ensures Read(stored, keep) == old(Read(stored, keep)) && lines == old(lines) && longest == old(longest)
              && torn == []
    {
      if !opens { return; }
      if 0 !in files {
        EmptyStores(files, stored, keep, if maxBytes > longest then maxBytes else longest);
        files, stored := files[0 := []], stored[0 := []];
      }
      size, isOpen := |files[0]|, true;
    }

    method RenameIfPresent(from: nat)
      requires Holds() && torn == [] && from < keep
      requires from + 1 == keep || from + 1 !in stored
      modifies this`files, this`stored
      ensures Holds()
      ensures files == RenamedIfPresent(old(files), from, from + 1)
      ensures stored == RenamedIfPresent(old(stored), from, from + 1) && from !in stored
      ensures Read(stored, keep) == if from + 1 == keep then Survivors(old(stored), keep) else old(Read(stored, keep))
    {
      RenameReads(stored, from, keep);
      RenameStores(files, stored, keep, from, if maxBytes > longest then maxBytes else longest);
      if from in files {
        files, stored := files[from + 1 := files[from]] - {from}, stored[from + 1 := stored[from]] - {from};
      }
    }

    /**
     * Move every generation up by one, oldest first. `fails(g)` says the rename of generation g throws;
     * whatever was renamed before stays renamed, and no line is lost that a completed rotation keeps.
     */
    method ShiftUp(fails: nat -> bool) returns (ok: bool)
      requires Holds() && torn == [] && keep > 0
      modifies this`files, this`stored
      ensures Holds()
      ensures Read(stored, keep) == old(Read(stored, keep)) || Read(stored, keep) == Survivors(old(stored), keep)
      ensures ok ==> 0 !in stored && Read(stored, keep) == Survivors(old(stored), keep)
      ensures (forall g: nat :: !fails(g)) ==> ok
    {
      var g := keep - 1;
      ghost var whole, left := Read(stored, keep), Survivors(stored, keep);
      while g >= 1
        invariant 0 <= g < keep && Holds()
        invariant g == keep - 1 || g + 1 !in stored
        invariant g == keep - 1 ==> stored == old(stored)
        invariant Read(stored, keep) == if g < keep - 1 then left else whole
      {
        if fails(g) { return false; }
        RenameIfPresent(g);
        g := g - 1;
      }
      if fails(0) { return false; }
      RenameIfPresent(0);
      ok := true;
    }

    /** Shift the generations and start a fresh live file; a failure leaves the sink closed. */
    method Rotate(fails: nat -> bool, opens: bool) returns (ok: bool)
      requires Valid() && isOpen
      modifies this
      ensures Valid() && lines == old(lines) && longest == old(longest) && torn == [] && ok == isOpen
      ensures ok ==> files[0] == [] && Read(stored, keep) == if keep == 0 then [] else Survivors(old(stored), keep)
      ensures opens && (forall g: nat :: !fails(g)) ==> ok
    {
      isOpen, ok := false, false;
      ghost var before := Read(stored, keep);
      if keep == 0 {
        if fails(0) { return; }
        files, stored := files - {0}, stored - {0};
      } else {
        var shifted := ShiftUp(fails);
        SuffixTrans(Read(stored, keep), before, lines);
        if !shifted { return; }
      }
      OpenFile(opens);
      ok := opens;
    }

    /**
     * Append one line, rotating first when it would not fit. `fails` and `opens` are about the rotation's
     * calls; `accepts(k)` is how many bytes the write at offset k takes, none meaning that it throws.
     */
    method Write(line: Line, fails: nat -> bool, opens: bool, accepts: nat -> nat)
      requires Valid() && line != []
      modifies this
      ensures Valid()
      ensures !old(isOpen) ==> files == old(files) && lines == old(lines)
      ensures isOpen ==> lines == old(lines) + [line]
      ensures isOpen && !(0 < old(size) && old(size) + |line| > maxBytes)
              ==> Read(stored, keep) == old(Read(stored, keep)) + [line]
      ensures isOpen && 0 < old(size) && old(size) + |line| > maxBytes ==>
                Read(stored, keep) == (if keep == 0 then [] else Survivors(old(stored), keep)) + [line]
      ensures old(isOpen) && opens && (forall g: nat :: !fails(g)) && (forall k: nat :: accepts(k) > 0) ==> isOpen
      ensures !isOpen ==> lines == old(lines)
      ensures longest == old(longest) || longest == |line| > old(longest)
    {
      if !isOpen { return; }
      if size > 0 && size + |line| > maxBytes {
        var rotated := Rotate(fails, opens);
        if !rotated { return; }
      }
      Append(line, accepts);
    }

    method Append(line: Line, accepts: nat -> nat)
      requires Valid() && isOpen && (size == 0 || size + |line| <= maxBytes)
      modifies this
      ensures Valid()
      ensures isOpen ==> lines == old(lines) + [line] && Read(stored, keep) == old(Read(stored, keep)) + [line]
      ensures (forall k: nat :: accepts(k) > 0) ==> isOpen
      ensures !isOpen ==> lines == old(lines)
      ensures longest == if |line| > old(longest) then |line| else old(longest)
    {
      var offset := Grow(line, accepts);
      if offset == |line| { size := size + |line|; } else { isOpen := false; }
    }

    /** Write to the live file what the calls take of a line. */
    method Grow(line: Line, accepts: nat -> nat) returns (offset: nat)
      requires Holds() && torn == [] && IsSuffix(Read(stored, keep), lines)
      requires 0 in files && (files[0] == [] || |files[0]| + |line| <= maxBytes)
      modifies this`files, this`stored, this`lines, this`torn, this`longest
      ensures Holds() && IsSuffix(Read(stored, keep), lines)
      ensures offset <= |line| && 0 in files && |files[0]| == |old(files)[0]| + offset
      ensures longest == if |line| > old(longest) then |line| else old(longest)
      ensures offset == |line| ==> torn == [] && lines == old(lines) + [line]
      ensures offset == |line| ==> Read(stored, keep) == old(Read(stored, keep)) + [line]
      ensures offset < |line| ==> lines == old(lines)
      ensures (forall k: nat :: accepts(k) > 0) ==> offset == |line|
    {
      ghost var before, was := files, if maxBytes > longest then maxBytes else longest;
      if |line| > longest { longest := |line|; }
      offset := WriteBytes(line, accepts);
      GrowBounded(before, line[..offset], was, if maxBytes > longest then maxBytes else longest);
      Account(before, line, offset);
    }

    /** Account for what reached the live file: the whole line, or a torn start of it. */
    ghost method Account(before: map<nat, seq<int>>, line: Line, offset: nat)
      requires offset <= |line| && 0 in before && files == before[0 := before[0] + line[..offset]]
      requires Stores(before, stored, [], keep) && torn == [] && IsSuffix(Read(stored, keep), lines)
      requires Bounded(files, if maxBytes > longest then maxBytes else longest)
      modifies this`stored, this`lines, this`torn
      ensures Holds() && IsSuffix(Read(stored, keep), lines)
      ensures offset == |line| ==> torn == [] && lines == old(lines) + [line]
      ensures offset == |line| ==> Read(stored, keep) == old(Read(stored, keep)) + [line]
      ensures offset < |line| ==> lines == old(lines)
    {
      if offset < |line| {
        TornStores(before, stored, keep, line[..offset]);
        torn := line[..offset];
      } else {
        assert line[..offset] == line;
        ReadSnoc(stored, keep, [line]);
        SuffixSnoc(Read(stored, keep), lines, line);
        LineStores(before, stored, keep, line);
        stored, lines := stored[0 := stored[0] + [line]], lines + [line];
      }
    }

    /** Write until every byte is taken, or a call takes none. */
    method WriteBytes(line: Line, accepts: nat -> nat) returns (offset: nat)
      requires 0 in files
      modifies this`files
      ensures offset <= |line| && files == old(files)[0 := old(files)[0] + line[..offset]]
      ensures (forall k: nat :: accepts(k) > 0) ==> offset == |line|
    {
      offset := 0;
      ghost var was := files[0];
      assert was + line[..0] == was && files[0 := was] == files;
      while offset < |line|
        invariant offset <= |line| && was == old(files)[0] && files == old(files)[0 := old(files)[0] + line[..offset]]
      {
        var taken := accepts(offset);
        if taken == 0 { return; }
        var upTo := if offset + taken < |line| then offset + taken else |line|;
        assert was + line[..offset] + line[offset..upTo] == was + line[..upTo];
        files := files[0 := files[0] + line[offset..upTo]];
        offset := upTo;
      }
    }

    /**
     * What reading the files oldest to newest gives: the last whole lines written, and a torn line if the sink
     * failed in it.
     */
    lemma ReadsAsLines()
      requires Valid()
      ensures Read(files, keep) == Flatten(Read(stored, keep)) + torn
      ensures Read(files, keep) == Flatten(lines[|lines| - |Read(stored, keep)|..]) + torn
    {
      ReadStores(files, stored, torn, keep, keep);
    }

    /** At most keep + 1 files, none larger than the limit and the longest line both. */
    lemma BoundedSpace()
      requires Valid()
      ensures |files| <= keep + 1
      ensures forall g | g in files :: |files[g]| <= maxBytes || |files[g]| <= longest
    {
      CountNames(keep);
      assert Names(keep) == files.Keys + (Names(keep) - files.Keys);
    }
  }

  /** The generations a directory may hold. */
  function Names(keep: nat): set<nat> {
    if keep == 0 then {0} else {keep} + Names(keep - 1)
  }

  lemma {:induction false} CountNames(keep: nat)
    ensures |Names(keep)| == keep + 1 && forall g: nat :: g in Names(keep) <==> g <= keep
  {
    if keep > 0 { CountNames(keep - 1); }
  }
}
