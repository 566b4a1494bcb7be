/**
 * The certificate helper as a process over its directory (apps/cert-helper/src/install.ts,
 * pending.ts, server.ts): each handler performs exactly the file operations of its script.
 */
module CertHelper {
  import opened Options
  import opened CertFiles
  import opened CertProtocol
  import opened CertResults

  /** Two stretches of file operations, one after the other. */
  lemma Compose(d0: Dir, l0: seq<FileOp>, a: seq<FileOp>, d1: Dir, l1: seq<FileOp>, b: seq<FileOp>, d2: Dir,
      l2: seq<FileOp>)
    requires l1 == l0 + a && d1 == ApplyAll(d0, a)
    requires l2 == l1 + b && d2 == ApplyAll(d1, b)
    ensures l2 == l0 + (a + b) && d2 == ApplyAll(d0, a + b)
  {
    ApplyConcat(d0, a, b);
  }

  lemma OneMoreOp(ops: seq<FileOp>, i: nat)
    requires i < |ops|
    ensures ops[..i + 1] == ops[..i] + [ops[i]]
  {
  }

  class Helper {
    var sets: map<string, SetDir>
    var live: Option<string>
    var staging: Option<string>
    var pending: PendingFile
    /** Every file operation so far. */
    ghost var log: seq<FileOp>

    constructor ()
      ensures State() == Dir(map[], None, None, Absent) && log == []
    {
      sets, live, staging, pending, log := map[], None, None, Absent, [];
    }

    ghost function State(): Dir
      reads this
    {
      Dir(sets, live, staging, pending)
    }

    /** Since `before` and `start`, exactly `ops` were performed. */
    ghost predicate Ran(before: Dir, start: seq<FileOp>, ops: seq<FileOp>)
      reads this
    {
      log == start + ops && State() == ApplyAll(before, ops)
    }

    // ---- file operations ----

    method Perform(op: FileOp)
      modifies this
      ensures Ran(old(State()), old(log), [op])
    {
      ghost var before := State();
      match op {
        case MakeSet(n) => if n !in sets { sets := sets[n := SetDir(Missing, Missing)]; }
        case OpenCert(n) => sets := sets[n := SetOf(Dir(sets, live, staging, pending), n).(cert := Partial)];
        case FillCert(n, pem) => sets := sets[n := SetOf(Dir(sets, live, staging, pending), n).(cert := Whole(pem))];
        case OpenKey(n) => sets := sets[n := SetOf(Dir(sets, live, staging, pending), n).(key := Partial)];
        case FillKey(n, pem) => sets := sets[n := SetOf(Dir(sets, live, staging, pending), n).(key := Whole(pem))];
        case ClearStaging => staging := None;
        case LinkStaging(n) => staging := Some(n);
        case RenameLive => if staging.Some? { live, staging := staging, None; }
        case DropSet(n) => sets := sets - {n};
        case OpenPending => pending := Torn;
        case FillPending(p) => pending := Held(p);
        case DropPending => pending := Absent;
      }
      log := log + [op];
      assert op.MakeSet? ==> before.sets[op.name := SetOf(before, op.name)] == sets;
      assert [op][1..] == [] && ApplyAll(Apply(before, op), []) == Apply(before, op);
    }

    /** Replace the live link by renaming a staged one over it; an error stops it part-way. */
    method SwapLive(target: string, steps: nat) returns (ok: bool)
      modifies this
      ensures Ran(old(State()), old(log), SwapOps(target, steps))
      ensures ok <==> steps >= 3
    {
      ghost var before, start := State(), log;
      ok := false;
      assert SwapOps(target, 0) == [];
      if steps == 0 { return; }
      Perform(ClearStaging);
      assert SwapOps(target, 1) == [ClearStaging];
      if steps == 1 { return; }
      assert SwapOps(target, 2) == [ClearStaging] + [LinkStaging(target)];
      ApplyConcat(before, [ClearStaging], [LinkStaging(target)]);
      Perform(LinkStaging(target));
      if steps == 2 { return; }
      assert SwapOps(target, 3) == SwapOps(target, 2) + [RenameLive];
      ApplyConcat(before, SwapOps(target, 2), [RenameLive]);
      Perform(RenameLive);
      ok := true;
      assert SwapOps(target, steps) == SwapOps(target, 3);
    }

    // ---- install.ts ----

    /** Put the previous set back and check that the proxy serves it. */
    method Rollback(previous: Option<string>, previousFingerprint: Option<string>, back: Back)
        returns (outcome: Outcome)
      modifies this
      ensures Ran(old(State()), old(log), CertFiles.Rollback(previous, previousFingerprint, back).ops)
      ensures outcome == CertFiles.Rollback(previous, previousFingerprint, back).outcome
    {
      if previous == None {
        return RollbackFailed;
      }
      var ok := SwapLive(previous.value, back.steps);
      if !ok || back.probe.Threw? {
        return RollbackFailed;
      }
      if previousFingerprint.Some? && back.probe.fingerprint != previousFingerprint.value {
        return RollbackFailed;
      }
      outcome := RolledBack;
    }

    /** Perform operations in order, stopping after `n`. */
    method PerformAll(ops: seq<FileOp>, n: nat) returns (ok: bool)
      modifies this
      ensures Ran(old(State()), old(log), UpTo(ops, n))
      ensures ok <==> n >= |ops|
    {
      ghost var before, start := State(), log;
      var upTo := if n < |ops| then n else |ops|;
      for i := 0 to upTo
        invariant Ran(before, start, ops[..i])
      {
        ghost var mid, sofar := State(), log;
        Perform(ops[i]);
        Compose(before, start, ops[..i], mid, sofar, [ops[i]], State(), log);
        OneMoreOp(ops, i);
      }
      ok := n >= |ops|;
    }

    /** Delete old sets one by one; `n` deletions succeed before one throws. */
    method Prune(names: set<string>, keep: string, previous: Option<string>, n: nat) returns (ok: bool)
      modifies this
      ensures Ran(old(State()), old(log), UpTo(PruneOps(names, keep, previous), n))
      ensures ok <==> n >= |PruneOps(names, keep, previous)|
    {
      var gone := Removable(names, keep, previous);
      ok := PerformAll(seq(|gone|, i requires 0 <= i < |gone| => DropSet(gone[i])), n);
    }

    /** Write both files of a new set. */
    method WriteSet(u: Upload) returns (ok: bool)
      modifies this
      ensures Ran(old(State()), old(log), UpTo(WriteSetOps(u), u.written))
      ensures ok <==> u.written >= 5
    {
      ok := PerformAll([MakeSet(u.name), OpenCert(u.name), FillCert(u.name, u.cert), OpenKey(u.name),
          FillKey(u.name, u.key)], u.written);
    }

    /** Write a new set and point the live link at it. */
    method PlaceSet(u: Upload) returns (written: bool, swapped: bool)
      modifies this
      ensures written <==> u.written >= 5
      ensures written ==> (swapped <==> u.steps >= 3)
      ensures Ran(old(State()), old(log),
                if u.written < 5 then UpTo(WriteSetOps(u), u.written) else WriteSetOps(u) + SwapOps(u.name, u.steps))
    {
      ghost var d, l := State(), log;
      written := WriteSet(u);
      if !written {
        return false, false;
      }
      assert UpTo(WriteSetOps(u), u.written) == WriteSetOps(u);
      ghost var d1, l1 := State(), log;
      swapped := SwapLive(u.name, u.steps);
      Compose(d, l, WriteSetOps(u), d1, l1, SwapOps(u.name, u.steps), State(), log);
    }

    /** Stage, swap, reload, ask the listener what it serves, and only then keep the new set. */
    method InstallBundle(u: Upload) returns (outcome: Outcome, previous: Option<string>)
      modifies this
      ensures Ran(old(State()), old(log), Install(old(State()), u).ops)
      ensures outcome == Install(old(State()), u).outcome
      ensures previous == old(live)
      ensures outcome == Installed ==>
                && u.fingerprint.Some? && u.readBack == u.fingerprint
                && u.probe.Served? && u.readAgain == Some(u.probe.fingerprint)
                && live == Some(u.name) && u.name in sets && sets[u.name] == SetDir(Whole(u.cert), Whole(u.key))
    {
      previous := live;
      if u.fingerprint == None {
        return Rejected, previous;
      }
      ghost var d, l := State(), log;
      var names := sets.Keys;
      var written, swapped := PlaceSet(u);
      if !written {
        return Aborted, previous;
      }
      ghost var staged := WriteSetOps(u) + SwapOps(u.name, u.steps);
      if !swapped {
        return RolledBack, previous;
      }
      ghost var d1, l1 := State(), log;
      if u.readBack != u.fingerprint || u.probe.Threw? || u.readAgain != Some(u.probe.fingerprint) {
        outcome := Rollback(previous, u.previousFingerprint, u.back);
        Compose(d, l, staged, d1, l1, CertFiles.Rollback(previous, u.previousFingerprint, u.back).ops, State(), log);
        return;
      }
      var ok := Prune(names + {u.name}, u.name, previous, u.pruned);
      Compose(d, l, staged, d1, l1, UpTo(PruneOps(names + {u.name}, u.name, previous), u.pruned), State(), log);
      outcome := if ok then Installed else Aborted;
      if ok { InstalledIsLive(d, u); }
    }

    // ---- pending.ts ----

    /** Undo an unconfirmed install, clearing its record first. */
    method Expire(p: PendingState, back: Back) returns (outcome: Outcome)
      modifies this
      ensures Ran(old(State()), old(log), CertFiles.Expire(p, back).ops)
      ensures outcome == CertFiles.Expire(p, back).outcome
    {
      if !back.cleared {
        return Aborted;
      }
      ApplyConcat(State(), [DropPending], CertFiles.Rollback(p.previous, p.previousFingerprint, back).ops);
      Perform(DropPending);
      outcome := Rollback(p.previous, p.previousFingerprint, back);
    }

    method RecoverOnStart(back: Back) returns (outcome: Option<Outcome>)
      modifies this
      ensures Ran(old(State()), old(log), RecoverOps(old(State()), back))
      ensures outcome == if old(pending).Held? then Some(CertFiles.Expire(old(pending).p, back).outcome) else None
    {
      if !pending.Held? {
        return None;
      }
      var r := Expire(pending.p, back);
      outcome := Some(r);
    }

    method MarkPending(p: PendingState, n: nat) returns (ok: bool)
      modifies this
      ensures Ran(old(State()), old(log), UpTo(MarkOps(p), n))
      ensures ok <==> n >= 2
    {
      ok := PerformAll([OpenPending, FillPending(p)], n);
    }

    /** Undo what is pending, install, and hold the new certificate until it is confirmed. */
    method StageBundle(before: Back, u: Upload, tokenHash: string, expiresAt: int) returns (outcome: Outcome)
      modifies this
      ensures Ran(old(State()), old(log), Stage(old(State()), before, u, tokenHash, expiresAt).ops)
      ensures outcome == Stage(old(State()), before, u, tokenHash, expiresAt).outcome
    {
      ghost var d, l := State(), log;
      var recovered := RecoverOnStart(before);
      ExpireAborts(d, before);
      if recovered == Some(Aborted) {
        return Aborted;
      }
      ghost var d1, l1 := State(), log;
      ghost var first := RecoverOps(d, before);
      var previous;
      outcome, previous := InstallBundle(u);
      ghost var placed := Install(d1, u).ops;
      ghost var d2, l2 := State(), log;
      Compose(d, l, first, d1, l1, placed, d2, l2);
      if outcome == Installed {
        var p := PendingState(u.name, previous, u.previousFingerprint, tokenHash, expiresAt);
        var ok := MarkPending(p, u.marked);
        Compose(d, l, first + placed, d2, l2, UpTo(MarkOps(p), u.marked), State(), log);
        if !ok { outcome := Aborted; }
      }
    }

    /** Expiry is checked before the token; a confirmed set stays, and old sets go. */
    method ConfirmPending(tokenHash: string, now: int, back: Back, done: nat) returns (outcome: Confirmation)
      modifies this
      ensures Ran(old(State()), old(log), Confirm(old(State()), tokenHash, now, back, done).0)
      ensures outcome == Confirm(old(State()), tokenHash, now, back, done).1
    {
      if !pending.Held? {
        return NothingPending;
      }
      var p := pending.p;
      if now > p.expiresAt {
        var r := Expire(p, back);
        return Expired(r);
      }
      if tokenHash != p.tokenHash {
        return TokenMismatch;
      }
      var ok := PerformAll(KeepOps(Dir(sets, live, staging, pending), p), done);
      outcome := if ok then Confirmed else Broken;
    }

    method SweepExpired(now: int, back: Back) returns (outcome: Option<Outcome>)
      modifies this
      ensures Ran(old(State()), old(log), OpsOf(old(State()), Sweep(now, back)))
      ensures outcome == if old(pending).Held? && now > old(pending).p.expiresAt
                         then Some(CertFiles.Expire(old(pending).p, back).outcome) else None
    {
      if pending.Held? && now > pending.p.expiresAt {
        var r := Expire(pending.p, back);
        return Some(r);
      }
      outcome := None;
    }

    // ---- server.ts ----

    /** An install request: sweep first, then stage if the grant is valid. */
    method HandleInstall(now: int, sweep: Back, granted: bool, before: Back, u: Upload, tokenHash: string,
        expiresAt: int)
      returns (outcome: Option<Outcome>)
      modifies this
      ensures outcome.Some? <==> granted && !SweepAborts(old(State()), now, sweep)
      ensures Ran(old(State()), old(log),
              InstallRequestOps(old(State()), now, sweep, granted, before, u, tokenHash, expiresAt))
    {
      ghost var d, l := State(), log;
      ghost var first := OpsOf(d, Sweep(now, sweep));
      var swept := SweepExpired(now, sweep);
      if d.pending.Held? { ExpireIsPrefix(d.pending.p, sweep); }
      ghost var d1, l1 := State(), log;
      if swept == Some(Aborted) || !granted {
        assert first + [] == first;
        return None;
      }
      var r := StageBundle(before, u, tokenHash, expiresAt);
      Compose(d, l, first, d1, l1, Stage(d1, before, u, tokenHash, expiresAt).ops, State(), log);
      outcome := Some(r);
    }
  }

  lemma ExpireAborts(d: Dir, back: Back)
    ensures d.pending.Held? ==> (CertFiles.Expire(d.pending.p, back).outcome == Aborted <==> !back.cleared)
    ensures d.pending.Held? && !back.cleared ==> RecoverOps(d, back) == []
  {
  }

  /** The sweep could not remove an overdue record, and threw. */
  predicate SweepAborts(d: Dir, now: int, sweep: Back) {
    d.pending.Held? && now > d.pending.p.expiresAt && !sweep.cleared
  }

  /** The file operations of an install request. */
  function InstallRequestOps(d: Dir, now: int, sweep: Back, granted: bool, before: Back, u: Upload, tokenHash: string,
      expiresAt: int): seq<FileOp> {
    var first := OpsOf(d, Sweep(now, sweep));
    first + if granted && !SweepAborts(d, now, sweep)
        then Stage(ApplyAll(d, first), before, u, tokenHash, expiresAt).ops else []
  }

  /** What an overdue record was undone to, before the install begins. */
  function Swept(d: Dir, now: int, sweep: Back): Dir {
    ApplyAll(d, OpsOf(d, Sweep(now, sweep)))
  }

  /**
   * An install request keeps live whole at every file operation, exactly unless it gets as far as opening
   * a file of the set that is live once the sweep and the undo are done.
   */
  lemma InstallRequestSafeExactly(d: Dir, now: int, sweep: Back, granted: bool, before: Back, u: Upload,
      tokenHash: string, expiresAt: int)
    requires CertFiles.Safe(d)
    ensures var d1 := Swept(d, now, sweep);
            SafeThroughout(d, InstallRequestOps(d, now, sweep, granted, before, u, tokenHash, expiresAt))
            <==> !granted || SweepAborts(d, now, sweep) || u.fingerprint.None? || u.written < 2
                 || LiveAfter(d1, before) != Some(u.name) || (d1.pending.Held? && !before.cleared)
  {
    var first := OpsOf(d, Sweep(now, sweep));
    var d1 := Swept(d, now, sweep);
    SimpleCut(d, Sweep(now, sweep), |first|);
    assert first[..|first|] == first;
    RecoverState(d, sweep);
    if granted && !SweepAborts(d, now, sweep) {
      StageSafeExactly(d1, before, u, tokenHash, expiresAt);
      SafeConcatExactly(d, first, Stage(d1, before, u, tokenHash, expiresAt).ops);
    } else {
      assert first + [] == first;
    }
  }

  /** A refused request leaves nothing overdue pending, unless the sweep itself threw. */
  lemma RefusedRequestSweeps(d: Dir, now: int, sweep: Back, before: Back, u: Upload, tokenHash: string, expiresAt: int)
    requires CertFiles.Safe(d) && sweep.cleared
    ensures var r := ApplyAll(d, InstallRequestOps(d, now, sweep, false, before, u, tokenHash, expiresAt));
            r.pending.Held? ==> r.pending == d.pending && now <= r.pending.p.expiresAt
  {
    var first := OpsOf(d, Sweep(now, sweep));
    assert first + [] == first;
    SweptRequestsLeaveNothingOverdue(d, now, sweep);
  }
}
