/**
 * The install / confirm / roll back protocol of the certificate helper: what holds at every file
 * operation, over every run of requests, and when one is cut short by a crash or a thrown error.
 */
module CertProtocol {
  import opened Options
  import opened CertFiles

  // ---- prefixes ----

  lemma {:induction false} SafeAtEnd(d: Dir, ops: seq<FileOp>)
    requires SafeThroughout(d, ops)
    ensures Safe(ApplyAll(d, ops))
  {
    SafeAtEveryPrefix(d, ops, |ops|);
    assert ops[..|ops|] == ops;
  }

  lemma SafeCons(d: Dir, op: FileOp, rest: seq<FileOp>)
    requires Safe(d) && SafeThroughout(Apply(d, op), rest)
    ensures SafeThroughout(d, [op] + rest) && ApplyAll(d, [op] + rest) == ApplyAll(Apply(d, op), rest)
  {
    assert ([op] + rest)[0] == op && ([op] + rest)[1..] == rest;
  }

  lemma PrefixOfConcat(d: Dir, a: seq<FileOp>, b: seq<FileOp>, k: nat)
    requires k <= |a| + |b|
    ensures ApplyAll(d, (a + b)[..k])
         == if k <= |a| then ApplyAll(d, a[..k]) else ApplyAll(ApplyAll(d, a), b[..k - |a|])
  {
    if k <= |a| {
      assert (a + b)[..k] == a[..k];
    } else {
      assert (a + b)[..k] == a + b[..k - |a|];
      ApplyConcat(d, a, b[..k - |a|]);
    }
  }

  /** Operations that write sets, stage a link or delete sets touch neither the link nor the record. */
  predicate LeavesLink(op: FileOp) {
    !op.RenameLive? && !op.OpenPending? && !op.FillPending? && !op.DropPending?
  }

  lemma {:induction false} DropsLeaveLink(d: Dir, ops: seq<FileOp>)
    requires forall i | 0 <= i < |ops| :: LeavesLink(ops[i])
    ensures ApplyAll(d, ops).live == d.live && ApplyAll(d, ops).pending == d.pending
    decreases |ops|
  {
    if ops != [] {
      assert LeavesLink(ops[0]);
      assert forall i | 0 <= i < |ops[1..]| :: ops[1..][i] == ops[i + 1];
      DropsLeaveLink(Apply(d, ops[0]), ops[1..]);
    }
  }

  lemma SwapPrefix(d: Dir, target: string, i: nat)
    requires i <= 3
    ensures var r := ApplyAll(d, SwapOps(target, 3)[..i]);
            r.live == (if i < 3 then d.live else Some(target)) && r.pending == d.pending
  {
    assert SwapOps(target, 3)[..i] == SwapOps(target, i);
    SwapResult(d, target, i);
  }

  // ---- undoing an unconfirmed install ----

  /** All of an undo: the record, then the link. */
  function UndoOps(p: PendingState): seq<FileOp> {
    [DropPending] + if p.previous.Some? then SwapOps(p.previous.value, 3) else []
  }

  /** However an undo ends, it did the first operations of it; only one that swapped back can have succeeded. */
  lemma ExpireIsPrefix(p: PendingState, back: Back)
    ensures var ops := Expire(p, back).ops;
            && |ops| <= |UndoOps(p)| <= 4 && ops == UndoOps(p)[..|ops|]
            && (|ops| == 4 <==> back.cleared && p.previous.Some? && back.steps >= 3)
            && (ops == [] <==> Expire(p, back).outcome == Aborted)
            && (Expire(p, back).outcome == RolledBack ==> |ops| == 4)
            && (Expire(p, back).outcome in {RolledBack, RollbackFailed, Aborted})
  {
  }

  lemma UndoSafe(d: Dir)
    requires Safe(d) && d.pending.Held?
    ensures SafeThroughout(d, UndoOps(d.pending.p))
  {
    var p := d.pending.p;
    var d1 := d.(pending := Absent);
    if p.previous.Some? { SwapSafe(d1, p.previous.value, 3); }
    SafeCons(d, DropPending, if p.previous.Some? then SwapOps(p.previous.value, 3) else []);
  }

  lemma UndoPrefix(d: Dir, k: nat)
    requires d.pending.Held? && k <= |UndoOps(d.pending.p)|
    ensures var c := ApplyAll(d, UndoOps(d.pending.p)[..k]);
            && c.live == (if k < 4 then d.live else d.pending.p.previous)
            && c.pending == (if k == 0 then d.pending else Absent) && c.sets == d.sets
  {
    var p := d.pending.p;
    if k > 0 {
      var swap := if p.previous.Some? then SwapOps(p.previous.value, 3) else [];
      assert UndoOps(p)[..k] == [DropPending] + swap[..k - 1];
      assert ([DropPending] + swap[..k - 1])[1..] == swap[..k - 1];
      if p.previous.Some? {
        assert swap[..k - 1] == SwapOps(p.previous.value, k - 1);
        SwapResult(d.(pending := Absent), p.previous.value, k - 1);
      }
    }
  }

  /** What an undo leaves, at its end and after each of its operations. */
  lemma ExpirePrefix(d: Dir, back: Back, k: nat)
    requires Safe(d) && d.pending.Held? && k <= |Expire(d.pending.p, back).ops|
    ensures var c := ApplyAll(d, Expire(d.pending.p, back).ops[..k]);
            && Safe(c) && c.live == (if k < 4 then d.live else d.pending.p.previous)
            && c.pending == (if k == 0 then d.pending else Absent) && c.sets == d.sets
    ensures SafeThroughout(d, Expire(d.pending.p, back).ops)
  {
    var ops := Expire(d.pending.p, back).ops;
    ExpireIsPrefix(d.pending.p, back);
    UndoSafe(d);
    SafePrefix(d, UndoOps(d.pending.p), |ops|);
    SafeAtEveryPrefix(d, UndoOps(d.pending.p), k);
    assert ops[..k] == UndoOps(d.pending.p)[..k];
    UndoPrefix(d, k);
  }

  /** The live link after whatever is pending has been undone, or not. */
  function LiveAfter(d: Dir, back: Back): Option<string> {
    if d.pending.Held? && back.cleared && d.pending.p.previous.Some? && back.steps >= 3
    then d.pending.p.previous else d.live
  }

  lemma RecoverState(d: Dir, back: Back)
    requires Safe(d)
    ensures SafeThroughout(d, RecoverOps(d, back))
    ensures var r := ApplyAll(d, RecoverOps(d, back));
            && Safe(r) && r.sets == d.sets && r.live == LiveAfter(d, back)
            && (d.pending.Held? ==> r.pending == if back.cleared then Absent else d.pending)
            && (!d.pending.Held? ==> r == d)
  {
    if d.pending.Held? {
      var ops := Expire(d.pending.p, back).ops;
      ExpireIsPrefix(d.pending.p, back);
      ExpirePrefix(d, back, |ops|);
      assert ops[..|ops|] == ops;
    }
  }

  // ---- installing ----

  /** All of an install in which no operation throws: write, swap, and either keep and record it or swap back. */
  function FullOps(d: Dir, u: Upload, p: PendingState): seq<FileOp> {
    WriteSetOps(u) + SwapOps(u.name, 3) + Settling(d, u, p)
  }

  function Settling(d: Dir, u: Upload, p: PendingState): seq<FileOp> {
    if Verified(u) then PruneOps(d.sets.Keys + {u.name}, u.name, d.live) + MarkOps(p)
    else if d.live.Some? then SwapOps(d.live.value, 3) else []
  }

  /** What an install request does once nothing is pending. */
  function TailOps(d: Dir, u: Upload, tokenHash: string, expiresAt: int): seq<FileOp> {
    Install(d, u).ops
    + if Install(d, u).outcome == Installed then UpTo(MarkOps(PendingFor(u, d.live, tokenHash, expiresAt)), u.marked)
       else []
  }

  lemma UpToConcat<T>(a: seq<T>, b: seq<T>, n: nat)
    ensures a + UpTo(b, n) == UpTo(a + b, |a| + n)
  {
  }

  lemma UpToPrefix<T>(a: seq<T>, b: seq<T>, n: nat)
    ensures UpTo(a, n) == (a + b)[..|UpTo(a, n)|]
  {
  }

  lemma Associate<T>(a: seq<T>, b: seq<T>, c: seq<T>)
    ensures a + b + c == a + (b + c)
  {
  }

  lemma InstallVerified(d: Dir, u: Upload)
    requires u.fingerprint.Some? && u.written >= 5 && u.steps >= 3 && Verified(u)
    ensures var prune := PruneOps(d.sets.Keys + {u.name}, u.name, d.live);
            && Install(d, u).ops == WriteSetOps(u) + SwapOps(u.name, 3) + UpTo(prune, u.pruned)
            && Install(d, u).outcome == if u.pruned < |prune| then Aborted else Installed
  {
    assert SwapOps(u.name, u.steps) == SwapOps(u.name, 3);
  }

  /** Pruning and then recording, either of which may stop early. */
  lemma PruneThenMark(staged: seq<FileOp>, prune: seq<FileOp>, mark: seq<FileOp>, pruned: nat, marked: nat)
    ensures staged + UpTo(prune, pruned) + (if pruned < |prune| then [] else UpTo(mark, marked))
            == staged + UpTo(prune + mark, if pruned < |prune| then pruned else |prune| + marked)
  {
    if pruned < |prune| {
      assert UpTo(prune + mark, pruned) == UpTo(prune, pruned);
    } else {
      assert UpTo(prune, pruned) == prune;
      UpToConcat(prune, mark, marked);
    }
  }

  /** An install that is verified after its swap. */
  lemma TailVerified(d: Dir, u: Upload, tokenHash: string, expiresAt: int)
    requires u.fingerprint.Some? && u.written >= 5 && u.steps >= 3 && Verified(u)
    ensures var p := PendingFor(u, d.live, tokenHash, expiresAt);
            var prune := PruneOps(d.sets.Keys + {u.name}, u.name, d.live);
            TailOps(d, u, tokenHash, expiresAt)
            == WriteSetOps(u) + SwapOps(u.name, 3) + UpTo(prune + MarkOps(p),
                    if u.pruned < |prune| then u.pruned else |prune| + u.marked)
  {
    InstallVerified(d, u);
    PruneThenMark(WriteSetOps(u) + SwapOps(u.name, 3), PruneOps(d.sets.Keys + {u.name}, u.name, d.live),
                  MarkOps(PendingFor(u, d.live, tokenHash, expiresAt)), u.pruned, u.marked);
  }

  /** An install that is not, and swaps back what was live as far as that goes. */
  lemma TailUnverified(d: Dir, u: Upload, tokenHash: string, expiresAt: int)
    requires u.fingerprint.Some? && u.written >= 5 && u.steps >= 3 && !Verified(u)
    ensures TailOps(d, u, tokenHash, expiresAt)
            == WriteSetOps(u) + SwapOps(u.name, 3)
               + UpTo(if d.live.Some? then SwapOps(d.live.value, 3) else [], u.back.steps)
  {
    var staged := WriteSetOps(u) + SwapOps(u.name, 3);
    assert SwapOps(u.name, u.steps) == SwapOps(u.name, 3);
    var r := Rollback(d.live, u.previousFingerprint, u.back);
    assert r.outcome != Installed;
    assert staged + r.ops + [] == staged + r.ops;
    if d.live.Some? { assert SwapOps(d.live.value, u.back.steps) == UpTo(SwapOps(d.live.value, 3), u.back.steps); }
  }

  lemma UpToExtends<T>(a: seq<T>, b: seq<T>, n: nat)
    ensures var tail := a + UpTo(b, n); |tail| <= |a + b| && tail == (a + b)[..|tail|]
  {
  }

  lemma VerifiedIsPrefix(d: Dir, u: Upload, tokenHash: string, expiresAt: int)
    requires u.fingerprint.Some? && u.written >= 5 && u.steps >= 3 && Verified(u)
    ensures var p := PendingFor(u, d.live, tokenHash, expiresAt);
            var tail := TailOps(d, u, tokenHash, expiresAt);
            |tail| <= |FullOps(d, u, p)| && tail == FullOps(d, u, p)[..|tail|]
  {
    var prune := PruneOps(d.sets.Keys + {u.name}, u.name, d.live);
    var mark := MarkOps(PendingFor(u, d.live, tokenHash, expiresAt));
    TailVerified(d, u, tokenHash, expiresAt);
    UpToExtends(WriteSetOps(u) + SwapOps(u.name, 3), prune + mark,
                if u.pruned < |prune| then u.pruned else |prune| + u.marked);
  }

  lemma UnverifiedIsPrefix(d: Dir, u: Upload, tokenHash: string, expiresAt: int)
    requires u.fingerprint.Some? && u.written >= 5 && u.steps >= 3 && !Verified(u)
    ensures var p := PendingFor(u, d.live, tokenHash, expiresAt);
            var tail := TailOps(d, u, tokenHash, expiresAt);
            |tail| <= |FullOps(d, u, p)| && tail == FullOps(d, u, p)[..|tail|]
  {
    TailUnverified(d, u, tokenHash, expiresAt);
    UpToExtends(WriteSetOps(u) + SwapOps(u.name, 3),
                if d.live.Some? then SwapOps(d.live.value, 3) else [], u.back.steps);
  }

  /** An install that gets as far as the swap. */
  lemma TailAfterSwap(d: Dir, u: Upload, tokenHash: string, expiresAt: int)
    requires u.fingerprint.Some? && u.written >= 5 && u.steps >= 3
    ensures var p := PendingFor(u, d.live, tokenHash, expiresAt);
            var tail := TailOps(d, u, tokenHash, expiresAt);
            |tail| <= |FullOps(d, u, p)| && tail == FullOps(d, u, p)[..|tail|]
  {
    if Verified(u) {
      VerifiedIsPrefix(d, u, tokenHash, expiresAt);
    } else {
      UnverifiedIsPrefix(d, u, tokenHash, expiresAt);
    }
  }

  lemma TailIsPrefix(d: Dir, u: Upload, tokenHash: string, expiresAt: int)
    requires u.fingerprint.Some?
    ensures var p := PendingFor(u, d.live, tokenHash, expiresAt);
            var tail := TailOps(d, u, tokenHash, expiresAt);
            |tail| <= |FullOps(d, u, p)| && tail == FullOps(d, u, p)[..|tail|]
  {
    var w, s := WriteSetOps(u), SwapOps(u.name, 3);
    var rest := Settling(d, u, PendingFor(u, d.live, tokenHash, expiresAt));
    if u.written >= 5 && u.steps >= 3 {
      TailAfterSwap(d, u, tokenHash, expiresAt);
    } else if u.written >= 5 {
      assert SwapOps(u.name, u.steps) == UpTo(s, u.steps);
      UpToConcat(w, s, u.steps);
      UpToPrefix(w + s, rest, |w| + u.steps);
    } else {
      Associate(w, s, rest);
      UpToPrefix(w, s + rest, u.written);
    }
  }

  lemma MarkSafe(d: Dir, p: PendingState)
    requires Safe(d) && !d.pending.Held? && d.live == Some(p.setName)
    requires p.previous.Some? ==> WholeSet(d, p.previous.value)
    ensures SafeThroughout(d, MarkOps(p))
  {
    var d1 := d.(pending := Torn);
    var d2 := d.(pending := Held(p));
    assert MarkOps(p)[1..] == [FillPending(p)] && [FillPending(p)][1..] == [];
    assert SafeThroughout(d2, []);
    assert SafeThroughout(d1, [FillPending(p)]);
  }

  lemma SettlingSafe(d: Dir, swapped: Dir, u: Upload, p: PendingState)
    requires Safe(swapped) && !swapped.pending.Held? && swapped.live == Some(u.name) == Some(p.setName)
    requires p.previous == d.live && (d.live.Some? ==> WholeSet(swapped, d.live.value))
    ensures SafeThroughout(swapped, Settling(d, u, p))
  {
    if Verified(u) {
      var prune := PruneOps(d.sets.Keys + {u.name}, u.name, d.live);
      PruneIsSafe(swapped, d.sets.Keys + {u.name}, u.name, d.live);
      MarkSafe(ApplyAll(swapped, prune), p);
      SafeConcat(swapped, prune, MarkOps(p));
    } else if d.live.Some? {
      SwapSafe(swapped, d.live.value, 3);
    }
  }

  lemma FullSafe(d: Dir, u: Upload, p: PendingState)
    requires Safe(d) && !d.pending.Held? && d.live != Some(u.name) && p.setName == u.name && p.previous == d.live
    ensures SafeThroughout(d, FullOps(d, u, p))
  {
    var w, s := WriteSetOps(u), SwapOps(u.name, 3);
    var d1 := ApplyAll(d, w);
    WriteSetSafe(d, u);
    SwapSafe(d1, u.name, 3);
    SwapResult(d1, u.name, 3);
    SafeConcat(d, w, s);
    ApplyConcat(d, w, s);
    SafeAtEnd(d, w + s);
    SettlingSafe(d, ApplyAll(d1, s), u, p);
    SafeConcat(d, w + s, Settling(d, u, p));
  }

  /** Installing over the live set truncates what the proxy reads, from the moment its file is opened. */
  lemma OverwritingBreaksLive(d: Dir, u: Upload)
    requires Safe(d) && d.live == Some(u.name)
    ensures !Safe(ApplyAll(d, WriteSetOps(u)[..2]))
  {
    var ops := WriteSetOps(u)[..2];
    assert ops == [MakeSet(u.name), OpenCert(u.name)] && ops[1..] == [OpenCert(u.name)] && ops[1..][1..] == [];
    var d1 := Apply(d, MakeSet(u.name));
    var d2 := Apply(d1, OpenCert(u.name));
    assert ApplyAll(d1, [OpenCert(u.name)]) == ApplyAll(d2, []) == d2;
  }

  /**
   * Live is never broken, exactly: with nothing pending, an install keeps live whole at every file
   * operation unless it opens a file of the set that is live.
   */
  lemma TailSafeExactly(d: Dir, u: Upload, tokenHash: string, expiresAt: int)
    requires Safe(d) && !d.pending.Held?
    ensures SafeThroughout(d, TailOps(d, u, tokenHash, expiresAt))
            <==> u.fingerprint.None? || u.written < 2 || d.live != Some(u.name)
  {
    var tail := TailOps(d, u, tokenHash, expiresAt);
    var p := PendingFor(u, d.live, tokenHash, expiresAt);
    if u.fingerprint.Some? {
      TailIsPrefix(d, u, tokenHash, expiresAt);
      if d.live != Some(u.name) {
        FullSafe(d, u, p);
        SafePrefix(d, FullOps(d, u, p), |tail|);
      } else if u.written >= 2 {
        TailIsLong(d, u, tokenHash, expiresAt);
        assert tail[..2] == WriteSetOps(u)[..2];
        OverwritingBreaksLive(d, u);
        if SafeThroughout(d, tail) { SafeAtEveryPrefix(d, tail, 2); }
      } else {
        TouchesNothingYet(d, u, tokenHash, expiresAt);
      }
    }
  }

  lemma TailIsLong(d: Dir, u: Upload, tokenHash: string, expiresAt: int)
    requires u.fingerprint.Some? && u.written >= 2
    ensures |TailOps(d, u, tokenHash, expiresAt)| >= 2
  {
  }

  lemma TouchesNothingYet(d: Dir, u: Upload, tokenHash: string, expiresAt: int)
    requires Safe(d) && u.fingerprint.Some? && u.written < 2 && d.live == Some(u.name)
    ensures SafeThroughout(d, TailOps(d, u, tokenHash, expiresAt))
  {
    var tail := TailOps(d, u, tokenHash, expiresAt);
    if u.written == 1 {
      assert tail == [MakeSet(u.name)] && tail[1..] == [];
      assert Apply(d, MakeSet(u.name)).sets == d.sets;
      assert SafeThroughout(Apply(d, MakeSet(u.name)), []);
    } else {
      assert tail == [];
    }
  }

  lemma StageSplits(d: Dir, before: Back, u: Upload, tokenHash: string, expiresAt: int)
    ensures var first := RecoverOps(d, before);
            Stage(d, before, u, tokenHash, expiresAt).ops
            == first + if d.pending.Held? && !before.cleared then []
               else TailOps(ApplyAll(d, first), u, tokenHash, expiresAt)
  {
    var first := RecoverOps(d, before);
    if d.pending.Held? && !before.cleared {
      assert first == [];
    } else {
      var d1 := ApplyAll(d, first);
      var mark := UpTo(MarkOps(PendingFor(u, d1.live, tokenHash, expiresAt)), u.marked);
      Associate(first, Install(d1, u).ops, mark);
      assert Install(d1, u).ops + [] == Install(d1, u).ops;
    }
  }

  /** The same of a whole install request, which undoes what is pending first. */
  lemma StageSafeExactly(d: Dir, before: Back, u: Upload, tokenHash: string, expiresAt: int)
    requires Safe(d)
    ensures SafeThroughout(d, Stage(d, before, u, tokenHash, expiresAt).ops)
            <==> u.fingerprint.None? || u.written < 2 || LiveAfter(d, before) != Some(u.name)
                 || (d.pending.Held? && !before.cleared)
  {
    var first := RecoverOps(d, before);
    var d1 := ApplyAll(d, first);
    RecoverState(d, before);
    StageSplits(d, before, u, tokenHash, expiresAt);
    if d.pending.Held? && !before.cleared {
      assert first + [] == first;
    } else {
      TailSafeExactly(d1, u, tokenHash, expiresAt);
      SafeConcatExactly(d, first, TailOps(d1, u, tokenHash, expiresAt));
    }
  }

  lemma {:induction false} SafeConcatExactly(d: Dir, a: seq<FileOp>, b: seq<FileOp>)
    requires SafeThroughout(d, a)
    ensures SafeThroughout(d, a + b) <==> SafeThroughout(ApplyAll(d, a), b)
    decreases |a|
  {
    if a == [] {
      assert a + b == b;
    } else {
      assert (a + b)[0] == a[0] && (a + b)[1..] == a[1..] + b;
      SafeConcatExactly(Apply(d, a[0]), a[1..], b);
    }
  }

  // ---- confirming ----

  /** With the record gone, the set it named is live and the one it would have restored is still whole. */
  lemma DropRecord(d: Dir)
    requires Safe(d) && d.pending.Held?
    ensures var d1 := Apply(d, DropPending);
            && Safe(d1) && d1.live == d.live == Some(d.pending.p.setName) && d1.pending == Absent
            && (d.pending.p.previous.Some? ==> WholeSet(d1, d.pending.p.previous.value))
  {
  }

  lemma KeepSafe(d: Dir)
    requires Safe(d) && d.pending.Held?
    ensures SafeThroughout(d, KeepOps(d, d.pending.p))
  {
    var p := d.pending.p;
    DropRecord(d);
    PruneIsSafe(Apply(d, DropPending), d.sets.Keys, p.setName, p.previous);
    SafeCons(d, DropPending, PruneOps(d.sets.Keys, p.setName, p.previous));
  }

  lemma ConsPrefix(d: Dir, op: FileOp, rest: seq<FileOp>, k: nat)
    requires 1 <= k <= |rest| + 1
    ensures ApplyAll(d, ([op] + rest)[..k]) == ApplyAll(Apply(d, op), rest[..k - 1])
  {
    assert ([op] + rest)[..k] == [op] + rest[..k - 1];
    assert ([op] + rest[..k - 1])[1..] == rest[..k - 1];
  }

  /** From its first operation on, a confirmation has left the confirmed set live and no record of it. */
  lemma KeepPrefix(d: Dir, k: nat)
    requires Safe(d) && d.pending.Held? && k <= |KeepOps(d, d.pending.p)|
    ensures var c := ApplyAll(d, KeepOps(d, d.pending.p)[..k]);
            Safe(c) && c.live == d.live && c.pending == if k == 0 then d.pending else Absent
  {
    KeepSafe(d);
    SafeAtEveryPrefix(d, KeepOps(d, d.pending.p), k);
    if k > 0 {
      var prune := PruneOps(d.sets.Keys, d.pending.p.setName, d.pending.p.previous);
      ConsPrefix(d, DropPending, prune, k);
      DropRecord(d);
      DropsLeaveLink(Apply(d, DropPending), prune[..k - 1]);
    }
  }

  lemma ConfirmSafe(d: Dir, tokenHash: string, now: int, back: Back, done: nat)
    requires Safe(d)
    ensures SafeThroughout(d, Confirm(d, tokenHash, now, back, done).0)
  {
    if d.pending.Held? && now > d.pending.p.expiresAt {
      ExpirePrefix(d, back, 0);
    } else if d.pending.Held? {
      KeepSafe(d);
      SafePrefix(d, KeepOps(d, d.pending.p), |UpTo(KeepOps(d, d.pending.p), done)|);
    }
  }

  // ---- committed or pending ----

  /** What is live was committed, or is held pending with something committed, or nothing, to go back to. */
  ghost predicate Accounted(d: Dir, committed: set<string>) {
    && Safe(d)
    && (!d.pending.Held? ==> Settled(d, committed))
    && (d.pending.Held? ==> d.pending.p.setName !in committed
                            && (d.pending.p.previous.Some? ==> d.pending.p.previous.value in committed))
  }

  ghost predicate Settled(d: Dir, committed: set<string>) {
    d.live.Some? ==> d.live.value in committed
  }

  /** An uncommitted certificate is live and no record says so. */
  ghost predicate Stranded(d: Dir, committed: set<string>) {
    !Settled(d, committed) && !d.pending.Held?
  }

  datatype Request =
    | Put(before: Back, u: Upload, tokenHash: string, expiresAt: int)
    | Vouch(tokenHash: string, now: int, back: Back, done: nat)
    | Sweep(now: int, back: Back)
    | Restart(back: Back)

  function OpsOf(d: Dir, r: Request): seq<FileOp> {
    match r
    case Put(before, u, h, e) => Stage(d, before, u, h, e).ops
    case Vouch(h, now, back, done) => Confirm(d, h, now, back, done).0
    case Sweep(now, back) => if ExpireIfDue(d, now, back).Some? then ExpireIfDue(d, now, back).value.ops else []
    case Restart(back) => RecoverOps(d, back)
  }

  /** The request takes effect up to its `k`th operation: a crash there, an error thrown there, or its end. */
  function Cut(d: Dir, r: Request, k: nat): Dir
    requires k <= |OpsOf(d, r)|
  {
    ApplyAll(d, OpsOf(d, r)[..k])
  }

  /** The upload does not go into the set that is live when it is written. */
  predicate NameOk(d: Dir, r: Request) {
    r.Put? && r.u.fingerprint.Some? ==> LiveAfter(d, r.before) != Some(r.u.name)
  }

  predicate Confirms(d: Dir, r: Request) {
    r.Vouch? && d.pending.Held? && r.now <= d.pending.p.expiresAt && r.tokenHash == d.pending.p.tokenHash
  }

  /**
   * A confirmation commits with its first operation; writing over an old set ends what was committed under its
   * name.
   */
  function CommitUpTo(d: Dir, committed: set<string>, r: Request, k: nat): set<string> {
    if Confirms(d, r) && k >= 1 then committed + {d.pending.p.setName}
    else if r.Put? && k > |RecoverOps(d, r.before)| then committed - {r.u.name}
    else committed
  }

  /**
   * The stretches in which an uncommitted certificate is live with nothing to undo it: in an undo, from
   * the removal of the record to the swap back; in an install, from the swap to the finished record or
   * the swap back; and all of an install that follows an undo that did not swap back.
   */
  predicate Exposed(d: Dir, r: Request, k: nat) {
    match r
    case Put(before, u, _, _) =>
      var m := |RecoverOps(d, before)|;
      if k <= m then d.pending.Held? && 1 <= k < 4
      else (d.pending.Held? && m < 4) || 8 <= k - m < InstallSettles(d, before, u)
    case Vouch(_, now, _, _) => d.pending.Held? && now > d.pending.p.expiresAt && 1 <= k < 4
    case Sweep(now, _) => d.pending.Held? && now > d.pending.p.expiresAt && 1 <= k < 4
    case Restart(_) => d.pending.Held? && 1 <= k < 4
  }

  /** The operation of an install after which it is recorded, or its swap is undone. */
  function InstallSettles(d: Dir, before: Back, u: Upload): nat {
    if Verified(u) then 10 + |PruneOps(d.sets.Keys + {u.name}, u.name, LiveAfter(d, before))| else 11
  }

  lemma WritePrefix(d: Dir, u: Upload, j: nat)
    requires j <= 8
    ensures var r := ApplyAll(d, (WriteSetOps(u) + SwapOps(u.name, 3))[..j]);
            r.live == (if j < 8 then d.live else Some(u.name)) && r.pending == d.pending
  {
    var w, s := WriteSetOps(u), SwapOps(u.name, 3);
    PrefixOfConcat(d, w, s, j);
    assert forall i | 0 <= i < 5 :: LeavesLink(w[i]);
    if j <= 5 {
      DropsLeaveLink(d, w[..j]);
    } else {
      DropsLeaveLink(d, w);
      SwapPrefix(ApplyAll(d, w), u.name, j - 5);
    }
  }

  lemma MarkPrefix(d: Dir, p: PendingState, m: nat)
    requires m <= 2 && !d.pending.Held?
    ensures var r := ApplyAll(d, MarkOps(p)[..m]);
            r.live == d.live && (r.pending.Held? <==> m == 2) && (m == 2 ==> r.pending.p == p)
  {
    var d1 := d.(pending := Torn);
    var d2 := d.(pending := Held(p));
    assert ApplyAll(d1, []) == d1 && ApplyAll(d2, []) == d2;
    if m == 1 {
      assert MarkOps(p)[..1] == [OpenPending] && [OpenPending][1..] == [];
    } else if m == 2 {
      assert MarkOps(p)[..2] == MarkOps(p) && MarkOps(p)[1..] == [FillPending(p)] && [FillPending(p)][1..] == [];
      assert ApplyAll(d1, [FillPending(p)]) == d2;
    }
  }

  lemma RecordingPrefix(d: Dir, prune: seq<FileOp>, p: PendingState, i: nat)
    requires !d.pending.Held? && i <= |prune| + 2
    requires forall j | 0 <= j < |prune| :: LeavesLink(prune[j])
    ensures var c := ApplyAll(d, (prune + MarkOps(p))[..i]);
            && c.live == d.live && (c.pending.Held? <==> i == |prune| + 2) && (c.pending.Held? ==> c.pending.p == p)
  {
    PrefixOfConcat(d, prune, MarkOps(p), i);
    if i <= |prune| {
      DropsLeaveLink(d, prune[..i]);
    } else {
      DropsLeaveLink(d, prune);
      MarkPrefix(ApplyAll(d, prune), p, i - |prune|);
    }
  }

  lemma SettlingPrefix(d: Dir, swapped: Dir, u: Upload, p: PendingState, i: nat)
    requires !swapped.pending.Held? && i <= |Settling(d, u, p)|
    ensures var c := ApplyAll(swapped, Settling(d, u, p)[..i]);
            && c.live == (if !Verified(u) && i == 3 then d.live else swapped.live)
            && (c.pending.Held? <==> Verified(u) && i == |Settling(d, u, p)|)
            && (c.pending.Held? ==> c.pending.p == p)
  {
    if Verified(u) {
      RecordingPrefix(swapped, PruneOps(d.sets.Keys + {u.name}, u.name, d.live), p, i);
    } else if d.live.Some? {
      SwapPrefix(swapped, d.live.value, i);
    }
  }

  /** The link and the record after each operation of an install. */
  lemma FullPrefix(d: Dir, u: Upload, p: PendingState, j: nat)
    requires !d.pending.Held? && j <= |FullOps(d, u, p)|
    ensures var c := ApplyAll(d, FullOps(d, u, p)[..j]);
            && c.live == (if j < 8 || (!Verified(u) && j == 11) then d.live else Some(u.name))
            && (c.pending.Held? <==> Verified(u) && j == |FullOps(d, u, p)|)
            && (c.pending.Held? ==> c.pending.p == p)
  {
    var staged := WriteSetOps(u) + SwapOps(u.name, 3);
    assert |staged| == 8;
    PrefixOfConcat(d, staged, Settling(d, u, p), j);
    if j <= 8 {
      WritePrefix(d, u, j);
      assert j == 8 && Settling(d, u, p) == [] ==> !Verified(u);
    } else {
      WritePrefix(d, u, 8);
      assert staged[..8] == staged;
      SettlingPrefix(d, ApplyAll(d, staged), u, p, j - 8);
    }
  }

  /** An install from a state with nothing pending, cut after `j` operations. */
  lemma TailCut(d: Dir, committed: set<string>, u: Upload, tokenHash: string, expiresAt: int, j: nat)
    requires Safe(d) && !d.pending.Held? && d.live != Some(u.name) && u.fingerprint.Some?
    requires j <= |TailOps(d, u, tokenHash, expiresAt)|
    ensures Accounted(ApplyAll(d, TailOps(d, u, tokenHash, expiresAt)[..j]), committed - {u.name})
            <==> Settled(d, committed)
                 && !(8 <= j < if Verified(u) then 10 + |PruneOps(d.sets.Keys + {u.name}, u.name, d.live)| else 11)
  {
    var tail := TailOps(d, u, tokenHash, expiresAt);
    var p := PendingFor(u, d.live, tokenHash, expiresAt);
    TailIsPrefix(d, u, tokenHash, expiresAt);
    FullSafe(d, u, p);
    SafeAtEveryPrefix(d, FullOps(d, u, p), j);
    assert tail[..j] == FullOps(d, u, p)[..j];
    FullPrefix(d, u, p, j);
    FullLength(d, u, p);
  }

  lemma FullLength(d: Dir, u: Upload, p: PendingState)
    ensures |FullOps(d, u, p)| == if Verified(u) then 10 + |PruneOps(d.sets.Keys + {u.name}, u.name, d.live)|
                                  else if d.live.Some? then 11 else 8
  {
  }

  /** A cut of an install request falls in the undo, or in the install after it. */
  lemma StagePrefix(d: Dir, before: Back, u: Upload, tokenHash: string, expiresAt: int, k: nat)
    requires Safe(d) && k <= |Stage(d, before, u, tokenHash, expiresAt).ops|
    ensures var first := RecoverOps(d, before);
            var d1 := ApplyAll(d, first);
            var c := ApplyAll(d, Stage(d, before, u, tokenHash, expiresAt).ops[..k]);
            if k <= |first| then c == ApplyAll(d, first[..k])
            else
              && u.fingerprint.Some? && k - |first| <= |TailOps(d1, u, tokenHash, expiresAt)|
              && c == ApplyAll(d1, TailOps(d1, u, tokenHash, expiresAt)[..k - |first|])
              && Safe(d1) && !d1.pending.Held? && d1.live == LiveAfter(d, before) && d1.sets == d.sets
  {
    var first := RecoverOps(d, before);
    RecoverState(d, before);
    StageSplits(d, before, u, tokenHash, expiresAt);
    if k <= |first| {
      assert Stage(d, before, u, tokenHash, expiresAt).ops[..k] == first[..k];
    } else {
      PrefixOfConcat(d, first, TailOps(ApplyAll(d, first), u, tokenHash, expiresAt), k);
    }
  }

  /** The undo that starts an install request, cut. */
  lemma FirstPrefix(d: Dir, before: Back, k: nat)
    requires Safe(d) && k <= |RecoverOps(d, before)|
    ensures var c := ApplyAll(d, RecoverOps(d, before)[..k]);
            if d.pending.Held?
            then Safe(c) && c.live == (if k < 4 then d.live else d.pending.p.previous)
                && c.pending == (if k == 0 then d.pending else Absent)
            else c == d && k == 0
  {
    if d.pending.Held? { ExpirePrefix(d, before, k); }
  }

  /** Cut in the undo. */
  lemma PutCutEarly(d: Dir, committed: set<string>, r: Request, k: nat)
    requires Accounted(d, committed) && r.Put? && k <= |RecoverOps(d, r.before)|
    ensures Accounted(ApplyAll(d, RecoverOps(d, r.before)[..k]), CommitUpTo(d, committed, r, k)) <==> !Exposed(d, r, k)
  {
    FirstPrefix(d, r.before, k);
  }

  /** Cut after it. */
  lemma PutCutLate(d: Dir, committed: set<string>, r: Request, k: nat, d1: Dir)
    requires Accounted(d, committed) && r.Put? && NameOk(d, r) && k > |RecoverOps(d, r.before)|
    requires r.u.fingerprint.Some? && k - |RecoverOps(d, r.before)| <= |TailOps(d1, r.u, r.tokenHash, r.expiresAt)|
    requires Safe(d1) && !d1.pending.Held? && d1.live == LiveAfter(d, r.before) && d1.sets == d.sets
    ensures var j := k - |RecoverOps(d, r.before)|;
            Accounted(ApplyAll(d1, TailOps(d1, r.u, r.tokenHash, r.expiresAt)[..j]), CommitUpTo(d, committed, r, k))
            <==> !Exposed(d, r, k)
  {
    TailCut(d1, committed, r.u, r.tokenHash, r.expiresAt, k - |RecoverOps(d, r.before)|);
    NoneLeft(d, r, k);
    SettledAfterUndo(d, committed, r.before, d1);
    assert CommitUpTo(d, committed, r, k) == committed - {r.u.name};
  }

  lemma SettledAfterUndo(d: Dir, committed: set<string>, before: Back, d1: Dir)
    requires Accounted(d, committed) && !d1.pending.Held? && d1.live == LiveAfter(d, before)
    ensures Settled(d1, committed) <==> !(d.pending.Held? && |RecoverOps(d, before)| < 4)
  {
    UndoneIsSettled(d, committed, before);
  }

  /** A cut after the undo is no confirmation, and what it commits is told by the upload alone. */
  lemma NoneLeft(d: Dir, r: Request, k: nat)
    requires r.Put? && k > |RecoverOps(d, r.before)|
    ensures forall committed :: CommitUpTo(d, committed, r, k) == committed - {r.u.name}
    ensures Exposed(d, r, k) <==> (d.pending.Held? && |RecoverOps(d, r.before)| < 4)
                                  || 8 <= k - |RecoverOps(d, r.before)| < InstallSettles(d, r.before, r.u)
  {
  }

  /** After the undo, if there was one to do, what is live is committed exactly when it swapped back. */
  lemma UndoneIsSettled(d: Dir, committed: set<string>, before: Back)
    requires Accounted(d, committed)
    ensures (LiveAfter(d, before).Some? ==> LiveAfter(d, before).value in committed)
            <==> !(d.pending.Held? && |RecoverOps(d, before)| < 4)
  {
    if d.pending.Held? { ExpireIsPrefix(d.pending.p, before); }
  }

  lemma PutCut(d: Dir, committed: set<string>, r: Request, k: nat)
    requires Accounted(d, committed) && r.Put? && NameOk(d, r) && k <= |OpsOf(d, r)|
    ensures Accounted(Cut(d, r, k), CommitUpTo(d, committed, r, k)) <==> !Exposed(d, r, k)
  {
    StagePrefix(d, r.before, r.u, r.tokenHash, r.expiresAt, k);
    if k <= |RecoverOps(d, r.before)| {
      PutCutEarly(d, committed, r, k);
    } else {
      PutCutLate(d, committed, r, k, ApplyAll(d, RecoverOps(d, r.before)));
    }
  }

  /** The request undoes what is pending. */
  predicate Undoes(d: Dir, r: Request) {
    && d.pending.Held?
    && (r.Restart? || (r.Sweep? && r.now > d.pending.p.expiresAt) || (r.Vouch? && r.now > d.pending.p.expiresAt))
  }

  /** What a request other than an install leaves when it is cut. */
  lemma SimpleCut(d: Dir, r: Request, k: nat)
    requires Safe(d) && !r.Put? && k <= |OpsOf(d, r)|
    ensures var c := Cut(d, r, k);
            && Safe(c)
            && (Undoes(d, r) ==>
                  && c.live == (if k < 4 then d.live else d.pending.p.previous)
                  && c.pending == if k == 0 then d.pending else Absent)
            && (Confirms(d, r) ==> c.live == d.live && c.pending == if k == 0 then d.pending else Absent)
            && (!Undoes(d, r) && !Confirms(d, r) ==> c == d)
  {
    if Undoes(d, r) {
      ExpirePrefix(d, r.back, k);
    } else if Confirms(d, r) {
      KeepPrefix(d, k);
      assert OpsOf(d, r)[..k] == KeepOps(d, d.pending.p)[..k];
    } else {
      assert OpsOf(d, r)[..k] == [];
    }
  }

  /**
   * Committed or pending, exactly: from an accounted state, a request cut after any number of its file
   * operations leaves an accounted state unless the cut is in one of the exposed stretches.
   */
  lemma CutAccountedExactly(d: Dir, committed: set<string>, r: Request, k: nat)
    requires Accounted(d, committed) && NameOk(d, r) && k <= |OpsOf(d, r)|
    ensures Accounted(Cut(d, r, k), CommitUpTo(d, committed, r, k)) <==> !Exposed(d, r, k)
  {
    if r.Put? { PutCut(d, committed, r, k); } else { SimpleCut(d, r, k); }
  }

  lemma CutIsSafe(d: Dir, r: Request, k: nat)
    requires Safe(d) && NameOk(d, r) && k <= |OpsOf(d, r)|
    ensures Safe(Cut(d, r, k))
  {
    if r.Put? {
      StageSafeExactly(d, r.before, r.u, r.tokenHash, r.expiresAt);
      SafeAtEveryPrefix(d, OpsOf(d, r), k);
    } else {
      SimpleCut(d, r, k);
    }
  }

  // ---- crashes ----

  /** Recovery finds nothing to undo, or undoes it. */
  predicate Recovers(c: Dir, back: Back) {
    c.pending.Held? ==> Expire(c.pending.p, back).outcome == RolledBack
  }

  /**
   * Restarting after a crash in any request, at any operation, leaves an uncommitted certificate live exactly
   * in the exposed stretches.
   */
  lemma CrashStrandsExactly(d: Dir, committed: set<string>, r: Request, k: nat, back: Back)
    requires Accounted(d, committed) && NameOk(d, r) && k <= |OpsOf(d, r)|
    requires Recovers(Cut(d, r, k), back)
    ensures var c := Cut(d, r, k);
            Stranded(ApplyAll(c, RecoverOps(c, back)), CommitUpTo(d, committed, r, k)) <==> Exposed(d, r, k)
    ensures !ApplyAll(Cut(d, r, k), RecoverOps(Cut(d, r, k), back)).pending.Held?
  {
    var c := Cut(d, r, k);
    var s := CommitUpTo(d, committed, r, k);
    CutAccountedExactly(d, committed, r, k);
    CutIsSafe(d, r, k);
    RecoverState(c, back);
    if c.pending.Held? {
      ExpireIsPrefix(c.pending.p, back);
      HeldNotCommitted(d, committed, r, k);
    }
  }

  /** A record found after a cut names a set that is not committed. */
  lemma HeldNotCommitted(d: Dir, committed: set<string>, r: Request, k: nat)
    requires Accounted(d, committed) && NameOk(d, r) && k <= |OpsOf(d, r)| && Cut(d, r, k).pending.Held?
    ensures Cut(d, r, k).pending.p.setName !in CommitUpTo(d, committed, r, k)
  {
    if r.Put? { PutHolds(d, r.before, r.u, r.tokenHash, r.expiresAt, k); } else { SimpleCut(d, r, k); }
  }

  lemma PutHolds(d: Dir, before: Back, u: Upload, tokenHash: string, expiresAt: int, k: nat)
    requires Safe(d) && NameOk(d, Put(before, u, tokenHash, expiresAt))
    requires k <= |Stage(d, before, u, tokenHash, expiresAt).ops|
    requires Cut(d, Put(before, u, tokenHash, expiresAt), k).pending.Held?
    ensures var c := Cut(d, Put(before, u, tokenHash, expiresAt), k);
            if k <= |RecoverOps(d, before)| then d.pending.Held? && c.pending.p == d.pending.p
                else c.pending.p.setName == u.name
  {
    var first := RecoverOps(d, before);
    StagePrefix(d, before, u, tokenHash, expiresAt, k);
    if k <= |first| {
      FirstPrefix(d, before, k);
    } else {
      TailHolds(ApplyAll(d, first), u, tokenHash, expiresAt, k - |first|);
    }
  }

  lemma TailHolds(d: Dir, u: Upload, tokenHash: string, expiresAt: int, j: nat)
    requires !d.pending.Held? && u.fingerprint.Some? && j <= |TailOps(d, u, tokenHash, expiresAt)|
    ensures var c := ApplyAll(d, TailOps(d, u, tokenHash, expiresAt)[..j]);
            c.pending.Held? ==> c.pending.p.setName == u.name
  {
    var p := PendingFor(u, d.live, tokenHash, expiresAt);
    TailIsPrefix(d, u, tokenHash, expiresAt);
    assert TailOps(d, u, tokenHash, expiresAt)[..j] == FullOps(d, u, p)[..j];
    FullPrefix(d, u, p, j);
  }

  /**
   * A crash in a confirmation: before its first operation recovery undoes the install like any other;
   * after it the confirmed set stays live and recovery does nothing.
   */
  lemma ConfirmationCrash(d: Dir, committed: set<string>, r: Request, k: nat, back: Back)
    requires Accounted(d, committed) && Confirms(d, r) && k <= |OpsOf(d, r)|
    requires Recovers(Cut(d, r, k), back)
    ensures var c := Cut(d, r, k);
            && ApplyAll(c, RecoverOps(c, back)).live
               == (if k == 0 then d.pending.p.previous else Some(d.pending.p.setName))
            && (k > 0 ==> RecoverOps(c, back) == [])
  {
    SimpleCut(d, r, k);
    RecoverState(Cut(d, r, k), back);
    if k == 0 { ExpireIsPrefix(d.pending.p, back); }
  }

  // ---- runs ----

  /** Some rollback in the request failed: the one outcome that asks for hands on the host. */
  predicate FailsRollback(d: Dir, r: Request) {
    match r
    case Put(before, u, h, e) =>
      (d.pending.Held? && Expire(d.pending.p, before).outcome == RollbackFailed)
      || Stage(d, before, u, h, e).outcome == RollbackFailed
    case Vouch(h, now, back, done) => Confirm(d, h, now, back, done).1 == Expired(RollbackFailed)
    case Sweep(now, back) => ExpireIfDue(d, now, back).Some?
        && ExpireIfDue(d, now, back).value.outcome == RollbackFailed
    case Restart(back) => d.pending.Held? && Expire(d.pending.p, back).outcome == RollbackFailed
  }

  /** An install request ended with an error thrown after its swap. */
  predicate AbortsAfterSwap(d: Dir, r: Request) {
    r.Put? && Stage(d, r.before, r.u, r.tokenHash, r.expiresAt).outcome == Aborted
    && |OpsOf(d, r)| >= |RecoverOps(d, r.before)| + 8
  }

  /**
   * A request that runs to its end is exposed there only if a rollback failed or an error was thrown after the
   * swap.
   */
  lemma WholeRequestExposed(d: Dir, r: Request)
    requires Exposed(d, r, |OpsOf(d, r)|)
    ensures FailsRollback(d, r) || AbortsAfterSwap(d, r)
  {
    if d.pending.Held? { ExpireIsPrefix(d.pending.p, if r.Put? then r.before else r.back); }
    if r.Put? {
      StageSplits(d, r.before, r.u, r.tokenHash, r.expiresAt);
      if |OpsOf(d, r)| > |RecoverOps(d, r.before)| && !(d.pending.Held? && |RecoverOps(d, r.before)| < 4) {
        RecoverKeepsSets(d, r.before);
        WholeTailExposed(ApplyAll(d, RecoverOps(d, r.before)), r.u, r.tokenHash, r.expiresAt);
      }
    }
  }

  lemma RecoverKeepsSets(d: Dir, back: Back)
    ensures var r := ApplyAll(d, RecoverOps(d, back)); r.sets == d.sets && r.live == LiveAfter(d, back)
  {
    if d.pending.Held? {
      var ops := Expire(d.pending.p, back).ops;
      ExpireIsPrefix(d.pending.p, back);
      UndoPrefix(d, |ops|);
    }
  }

  lemma WholeTailExposed(d: Dir, u: Upload, tokenHash: string, expiresAt: int)
    requires 8 <= |TailOps(d, u, tokenHash, expiresAt)|
             < if Verified(u) then 10 + |PruneOps(d.sets.Keys + {u.name}, u.name, d.live)| else 11
    ensures Install(d, u).outcome in {RollbackFailed, Aborted} || (Install(d, u).outcome == Installed && u.marked < 2)
  {
    if u.fingerprint.Some? && u.written >= 5 && u.steps >= 3 {
      if Verified(u) { TailVerified(d, u, tokenHash, expiresAt); } else { TailUnverified(d, u, tokenHash, expiresAt); }
    }
  }

  /** And an error thrown after the swap, by pruning or by writing the record, always leaves it exposed. */
  lemma AbortAfterSwapStrands(d: Dir, committed: set<string>, r: Request)
    requires Accounted(d, committed) && NameOk(d, r) && AbortsAfterSwap(d, r)
    ensures Exposed(d, r, |OpsOf(d, r)|)
    ensures !Accounted(Cut(d, r, |OpsOf(d, r)|), CommitUpTo(d, committed, r, |OpsOf(d, r)|))
  {
    StageSplits(d, r.before, r.u, r.tokenHash, r.expiresAt);
    RecoverKeepsSets(d, r.before);
    if d.pending.Held? { ExpireIsPrefix(d.pending.p, r.before); }
    AbortedTail(ApplyAll(d, RecoverOps(d, r.before)), r.u, r.tokenHash, r.expiresAt);
    CutAccountedExactly(d, committed, r, |OpsOf(d, r)|);
  }

  lemma AbortedTail(d: Dir, u: Upload, tokenHash: string, expiresAt: int)
    requires Install(d, u).outcome == Aborted || (Install(d, u).outcome == Installed && u.marked < 2)
    requires |TailOps(d, u, tokenHash, expiresAt)| >= 8
    ensures Verified(u)
            && |TailOps(d, u, tokenHash, expiresAt)| < 10 + |PruneOps(d.sets.Keys + {u.name}, u.name, d.live)|
  {
    ShortTail(d, u, tokenHash, expiresAt);
    TailVerified(d, u, tokenHash, expiresAt);
  }

  /**
   * An install that stops while writing the set, or that is not verified, does not end with an error after the
   * swap.
   */
  lemma ShortTail(d: Dir, u: Upload, tokenHash: string, expiresAt: int)
    requires Install(d, u).outcome == Aborted || (Install(d, u).outcome == Installed && u.marked < 2)
    requires |TailOps(d, u, tokenHash, expiresAt)| >= 8
    ensures u.fingerprint.Some? && u.written >= 5 && u.steps >= 3 && Verified(u)
  {
  }

  datatype Event = Event(r: Request, k: nat)

  /** Requests, each taking effect up to some operation outside the exposed stretches. */
  ghost predicate Serves(d: Dir, es: seq<Event>)
    decreases |es|
  {
    es == [] ||
    (es[0].k <= |OpsOf(d, es[0].r)| && NameOk(d, es[0].r) && !Exposed(d, es[0].r, es[0].k)
     && Serves(Cut(d, es[0].r, es[0].k), es[1..]))
  }

  ghost function After(d: Dir, committed: set<string>, es: seq<Event>): (Dir, set<string>)
    requires Serves(d, es)
    decreases |es|
  {
    if es == [] then (d, committed)
    else After(Cut(d, es[0].r, es[0].k), CommitUpTo(d, committed, es[0].r, es[0].k), es[1..])
  }

  /**
   * Over every run whose crashes and errors miss the exposed stretches, an uncommitted certificate is live only
   * while it is pending.
   */
  lemma {:induction false} RunAccounted(d: Dir, committed: set<string>, es: seq<Event>)
    requires Accounted(d, committed) && Serves(d, es)
    ensures Accounted(After(d, committed, es).0, After(d, committed, es).1)
    decreases |es|
  {
    if es != [] {
      CutAccountedExactly(d, committed, es[0].r, es[0].k);
      RunAccounted(Cut(d, es[0].r, es[0].k), CommitUpTo(d, committed, es[0].r, es[0].k), es[1..]);
    }
  }

  // ---- the deadline ----

  /**
   * After any request but a confirmation, no overdue certificate is still pending, unless its record could not
   * be removed.
   */
  lemma SweptRequestsLeaveNothingOverdue(d: Dir, now: int, back: Back)
    requires Safe(d) && back.cleared
    ensures var r := ApplyAll(d, OpsOf(d, Sweep(now, back)));
            r.pending.Held? ==> r.pending == d.pending && now <= r.pending.p.expiresAt
  {
    RecoverState(d, back);
  }
}
