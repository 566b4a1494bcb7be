/**
 * What the helper's answers mean (apps/cert-helper/src/install.ts, pending.ts), told from what the disk and the
 * listener answered and from the directory before and after: when an install is kept, what is put back when it
 * is not, what is held until it is confirmed, and which old sets go.
 */
module CertResults {
  import opened Options
  import opened Order
  import opened CertFiles

  // ---- putting the previous set back ----

  /**
   * A rollback has worked exactly when there was a set to go back to, the link was swapped, and the listener
   * answered afterwards, with the previous fingerprint where that is known. Otherwise it has failed.
   */
  lemma RolledBackExactly(previous: Option<string>, previousFingerprint: Option<string>, back: Back)
    ensures var r := Rollback(previous, previousFingerprint, back).outcome;
            && (r == RolledBack <==>
                  && previous.Some? && back.steps >= 3 && back.probe.Served?
                  && (previousFingerprint.Some? ==> back.probe.fingerprint == previousFingerprint.value))
            && (r != RolledBack ==> r == RollbackFailed)
  {
  }

  /** Whatever its answer, it touches nothing but the link: live is the previous set once the swap is through. */
  lemma RollbackSwaps(d: Dir, previous: Option<string>, previousFingerprint: Option<string>, back: Back)
    ensures var r := ApplyAll(d, Rollback(previous, previousFingerprint, back).ops);
            && r.sets == d.sets && r.pending == d.pending
            && r.live == if previous.Some? && back.steps >= 3 then previous else d.live
  {
    if previous.Some? { SwapResult(d, previous.value, back.steps); }
  }

  // ---- installing ----

  /**
   * An install is kept exactly when the bundle is acceptable, the set was written whole and swapped in, the
   * fingerprint read back is the upload's, the listener answered after the reload with the fingerprint then
   * read off the disk, and the old sets could be deleted.
   */
  lemma InstalledExactly(d: Dir, u: Upload)
    ensures Install(d, u).outcome == Installed <==>
              && u.fingerprint.Some? && u.written >= 5 && u.steps >= 3
              && u.readBack == u.fingerprint
              && u.probe.Served? && u.readAgain == Some(u.probe.fingerprint)
              && u.pruned >= |Removable(d.sets.Keys + {u.name}, u.name, d.live)|
  {
  }

  /** Then the new set is whole and live, and the record of what is pending is untouched. */
  lemma InstalledIsLive(d: Dir, u: Upload)
    requires Install(d, u).outcome == Installed
    ensures var r := ApplyAll(d, Install(d, u).ops);
            && r.live == Some(u.name) && r.pending == d.pending
            && u.name in r.sets && r.sets[u.name] == SetDir(Whole(u.cert), Whole(u.key))
            && (forall n | n in d.sets && n != u.name && d.live == Some(n) :: n in r.sets && r.sets[n] == d.sets[n])
  {
    PlacedResult(d, u);
    InstalledPrunes(d, u);
    RemovableSpares(d.sets.Keys + {u.name}, u.name, d.live);
  }

  lemma InstalledOps(d: Dir, u: Upload)
    requires Install(d, u).outcome == Installed
    ensures Install(d, u).ops
         == WriteSetOps(u) + SwapOps(u.name, u.steps) + PruneOps(d.sets.Keys + {u.name}, u.name, d.live)
  {
    var prune := PruneOps(d.sets.Keys + {u.name}, u.name, d.live);
    assert UpTo(prune, u.pruned) == prune;
  }

  lemma InstalledPrunes(d: Dir, u: Upload)
    requires Install(d, u).outcome == Installed
    ensures var gone := Removable(d.sets.Keys + {u.name}, u.name, d.live);
            ApplyAll(d, Install(d, u).ops) == Placed(d, u).(sets := Placed(d, u).sets - set n | n in gone)
  {
    var prune := PruneOps(d.sets.Keys + {u.name}, u.name, d.live);
    InstalledOps(d, u);
    ApplyConcat(d, WriteSetOps(u) + SwapOps(u.name, u.steps), prune);
    PruneResult(Placed(d, u), d.sets.Keys + {u.name}, u.name, d.live);
  }

  /** The directory once the set is written and the link swapped. */
  function Placed(d: Dir, u: Upload): Dir {
    ApplyAll(d, WriteSetOps(u) + SwapOps(u.name, u.steps))
  }

  lemma PlacedResult(d: Dir, u: Upload)
    ensures Placed(d, u).sets == d.sets[u.name := SetDir(Whole(u.cert), Whole(u.key))]
    ensures Placed(d, u).pending == d.pending
    ensures Placed(d, u).live == if u.steps >= 3 then Some(u.name) else d.live
  {
    ApplyConcat(d, WriteSetOps(u), SwapOps(u.name, u.steps));
    WriteSetResult(d, u);
    SwapResult(ApplyAll(d, WriteSetOps(u)), u.name, u.steps);
  }

  /**
   * In every other case after the swap what is undone is the swap: if the disk or the listener did not agree,
   * the previous set is live again once the swap back is through, and the answer is the rollback's.
   */
  lemma DisagreementUndoesSwap(d: Dir, u: Upload)
    requires u.fingerprint.Some? && u.written >= 5 && u.steps >= 3
    requires u.readBack != u.fingerprint || u.probe.Threw? || u.readAgain != Some(u.probe.fingerprint)
    ensures var s := Install(d, u);
            var r := ApplyAll(d, s.ops);
            && r.sets == d.sets[u.name := SetDir(Whole(u.cert), Whole(u.key))] && r.pending == d.pending
            && r.live == (if d.live.Some? && u.back.steps >= 3 then d.live else Some(u.name))
            && (s.outcome == RolledBack <==>
                  && d.live.Some? && u.back.steps >= 3 && u.back.probe.Served?
                  && (u.previousFingerprint.Some? ==> u.back.probe.fingerprint == u.previousFingerprint.value))
            && (s.outcome != RolledBack ==> s.outcome == RollbackFailed)
  {
    var back := Rollback(d.live, u.previousFingerprint, u.back);
    ApplyConcat(d, WriteSetOps(u) + SwapOps(u.name, u.steps), back.ops);
    PlacedResult(d, u);
    RollbackSwaps(Placed(d, u), d.live, u.previousFingerprint, u.back);
    RolledBackExactly(d.live, u.previousFingerprint, u.back);
  }

  /**
   * Before the swap nothing the proxy reads changes: a rejected bundle touches nothing, a failed write or swap
   * leaves the link.
   */
  lemma EarlyFailureKeepsLive(d: Dir, u: Upload)
    requires u.fingerprint == None || u.written < 5 || u.steps < 3
    ensures ApplyAll(d, Install(d, u).ops).live == d.live && ApplyAll(d, Install(d, u).ops).pending == d.pending
    ensures u.fingerprint == None ==> Install(d, u) == Script([], Rejected)
    ensures u.fingerprint.Some? ==> Install(d, u).outcome == if u.written < 5 then Aborted else RolledBack
  {
    if u.fingerprint.Some? {
      if u.written < 5 { WritesKeepLink(d, UpTo(WriteSetOps(u), u.written), u.name); } else { PlacedResult(d, u); }
    }
  }

  lemma {:induction false} WritesKeepLink(d: Dir, ops: seq<FileOp>, n: string)
    requires forall i | 0 <= i < |ops| :: Within(ops[i], n)
    ensures ApplyAll(d, ops).live == d.live && ApplyAll(d, ops).pending == d.pending
    decreases |ops|
  {
    if ops != [] {
      assert Within(ops[0], n);
      assert forall i | 0 <= i < |ops[1..]| :: ops[1..][i] == ops[i + 1];
      WritesKeepLink(Apply(d, ops[0]), ops[1..], n);
    }
  }

  // ---- old sets ----

  /** The sets newer than `n` that are neither kept nor the previous one. */
  function Newer(names: set<string>, keep: string, previous: Option<string>, n: string): set<string> {
    set m | m in names && m != keep && previous != Some(m) && Less(n, m)
  }

  /** A set goes exactly when it is neither kept nor the previous one and three such sets are newer. */
  lemma RemovableExactly(names: set<string>, keep: string, previous: Option<string>, n: string)
    ensures n in Removable(names, keep, previous)
            <==> n in names && n != keep && previous != Some(n) && |Newer(names, keep, previous, n)| >= 3
  {
    var others := names - {keep} - if previous.Some? then {previous.value} else {};
    var all, gone, newer := SortedStrings(others), Removable(names, keep, previous), Newer(names, keep, previous, n);
    RemovableIs(names, keep, previous, all, gone);
    if n in others {
      NewerIs(names, keep, previous, n, others, newer);
      RemovableAmong(others, all, gone, n, newer);
    } else {
      ListedOnly(all, gone, n);
    }
  }

  lemma RemovableIs(names: set<string>, keep: string, previous: Option<string>, all: seq<string>, gone: seq<string>)
    requires gone == Removable(names, keep, previous)
    requires all == SortedStrings(names - {keep} - if previous.Some? then {previous.value} else {})
    ensures |gone| == if |all| <= 3 then 0 else |all| - 3
    ensures forall j | 0 <= j < |gone| :: gone[j] == all[|all| - 4 - j]
  {
    AllButNewestAre(all, gone);
  }

  lemma AllButNewestAre(all: seq<string>, gone: seq<string>)
    requires gone == AllButNewest(all)
    ensures |gone| == if |all| <= 3 then 0 else |all| - 3
    ensures forall j | 0 <= j < |gone| :: gone[j] == all[|all| - 4 - j]
  {
  }

  lemma NewerIs(names: set<string>, keep: string, previous: Option<string>, n: string, others: set<string>,
      newer: set<string>)
    requires others == names - {keep} - if previous.Some? then {previous.value} else {}
    requires newer == Newer(names, keep, previous, n)
    ensures newer == set m | m in others && Less(n, m)
  {
  }

  lemma RemovableAmong(others: set<string>, all: seq<string>, gone: seq<string>, n: string, newer: set<string>)
    requires all == SortedStrings(others) && n in others && |gone| == if |all| <= 3 then 0 else |all| - 3
    requires forall j | 0 <= j < |gone| :: gone[j] == all[|all| - 4 - j]
    requires newer == set m | m in others && Less(n, m)
    ensures n in gone <==> |newer| >= 3
  {
    assert n in all;
    var i :| 0 <= i < |all| && all[i] == n;
    SortedAfter(others, i, newer);
    OldestGo(all, gone, i);
  }

  lemma ListedOnly(all: seq<string>, gone: seq<string>, n: string)
    requires |gone| == if |all| <= 3 then 0 else |all| - 3
    requires forall j | 0 <= j < |gone| :: gone[j] == all[|all| - 4 - j]
    requires n !in all
    ensures n !in gone
  {
    forall j | 0 <= j < |gone| ensures gone[j] != n { assert all[|all| - 4 - j] in all; }
  }

  lemma OldestGo(all: seq<string>, gone: seq<string>, i: nat)
    requires forall i, j | 0 <= i < j < |all| :: Less(all[i], all[j])
    requires i < |all| && |gone| == (if |all| <= 3 then 0 else |all| - 3)
    requires forall j | 0 <= j < |gone| :: gone[j] == all[|all| - 4 - j]
    ensures all[i] in gone <==> |all| - 1 - i >= 3
  {
    if |all| - 1 - i >= 3 {
      assert gone[|all| - 4 - i] == all[i];
    } else {
      forall j | 0 <= j < |gone| ensures gone[j] != all[i] { LessIrreflexive(all[i]); }
    }
  }

  lemma {:induction false} DropsResult(d: Dir, gone: seq<string>)
    ensures ApplyAll(d, DropOps(gone)) == d.(sets := d.sets - set n | n in gone)
    decreases |gone|
  {
    if gone == [] {
      assert (set n | n in gone) == {};
      assert d.sets - {} == d.sets;
    } else {
      assert DropOps(gone)[1..] == DropOps(gone[1..]);
      DropsResult(Apply(d, DropSet(gone[0])), gone[1..]);
      assert d.sets - {gone[0]} - (set n | n in gone[1..]) == d.sets - set n | n in gone;
    }
  }

  lemma PruneResult(d: Dir, names: set<string>, keep: string, previous: Option<string>)
    ensures var r := ApplyAll(d, PruneOps(names, keep, previous));
            r == d.(sets := d.sets - set n | n in Removable(names, keep, previous))
  {
    assert PruneOps(names, keep, previous) == DropOps(Removable(names, keep, previous));
    DropsResult(d, Removable(names, keep, previous));
  }

  // ---- held until confirmed ----

  /**
   * Staging: the answer is `Installed` exactly when what was pending could be cleared, the install was kept, and
   * the record was written. Then the new set is live, and the record names it, the set that was live before,
   * the token and the end of the window.
   */
  lemma StagedIsHeld(d: Dir, before: Back, u: Upload, tokenHash: string, expiresAt: int)
    ensures var d1 := ApplyAll(d, RecoverOps(d, before));
            Stage(d, before, u, tokenHash, expiresAt).outcome == Installed <==>
              (d.pending.Held? ==> before.cleared) && Install(d1, u).outcome == Installed && u.marked >= 2
    ensures Stage(d, before, u, tokenHash, expiresAt).outcome == Installed ==>
              var d1 := ApplyAll(d, RecoverOps(d, before));
              var r := ApplyAll(d, Stage(d, before, u, tokenHash, expiresAt).ops);
              && r.live == Some(u.name) && u.name in r.sets && r.sets[u.name] == SetDir(Whole(u.cert), Whole(u.key))
              && r.pending.Held? && r.pending.p.setName == u.name && r.pending.p.previous == d1.live
              && r.pending.p.previousFingerprint == u.previousFingerprint
              && r.pending.p.tokenHash == tokenHash && r.pending.p.expiresAt == expiresAt
  {
    if Stage(d, before, u, tokenHash, expiresAt).outcome == Installed {
      var first := RecoverOps(d, before);
      var d1 := ApplyAll(d, first);
      var mark := MarkOps(PendingFor(u, d1.live, tokenHash, expiresAt));
      assert UpTo(mark, u.marked) == mark;
      InstalledIsLive(d1, u);
      ApplyConcat(d, first, Install(d1, u).ops);
      ApplyConcat(d, first + Install(d1, u).ops, mark);
      MarkResult(ApplyAll(d1, Install(d1, u).ops), PendingFor(u, d1.live, tokenHash, expiresAt));
    }
  }

  lemma MarkResult(d: Dir, p: PendingState)
    ensures ApplyAll(d, MarkOps(p)) == d.(pending := Held(p))
  {
    var ops := MarkOps(p);
    assert ops[1..] == [FillPending(p)] && ops[1..][1..] == [];
    assert ApplyAll(d.(pending := Held(p)), []) == d.(pending := Held(p));
    assert ApplyAll(d.(pending := Torn), [FillPending(p)]) == d.(pending := Held(p));
  }

  /**
   * A confirmation commits exactly when something is pending, its window is open, the token is the one it was
   * staged with, and no file operation throws. The window is checked before the token.
   */
  lemma ConfirmedExactly(d: Dir, tokenHash: string, now: int, back: Back, done: nat)
    ensures var c := Confirm(d, tokenHash, now, back, done).1;
            && (c == NothingPending <==> !d.pending.Held?)
            && (c.Expired? <==> d.pending.Held? && now > d.pending.p.expiresAt)
            && (c == TokenMismatch <==>
                  d.pending.Held? && now <= d.pending.p.expiresAt && tokenHash != d.pending.p.tokenHash)
            && (c == Confirmed <==>
                  && d.pending.Held? && now <= d.pending.p.expiresAt && tokenHash == d.pending.p.tokenHash
                  && done > |Removable(d.sets.Keys, d.pending.p.setName, d.pending.p.previous)|)
  {
  }

  /**
   * A confirmed set stays live, with nothing pending and only old sets gone. A wrong token changes nothing, and
   * one that comes late undoes the install.
   */
  lemma ConfirmationResult(d: Dir, tokenHash: string, now: int, back: Back, done: nat)
    requires d.pending.Held?
    ensures var (ops, c) := Confirm(d, tokenHash, now, back, done);
            var r := ApplyAll(d, ops);
            var p := d.pending.p;
            && (c == Confirmed ==>
                  && r.live == d.live && r.pending == Absent
                  && r.sets == d.sets - set n | n in Removable(d.sets.Keys, p.setName, p.previous))
            && (c == TokenMismatch ==> r == d)
            && (c.Expired? && back.cleared ==>
                  && r.pending == Absent && r.sets == d.sets
                  && r.live == if p.previous.Some? && back.steps >= 3 then p.previous else d.live)
            && (c.Expired? && !back.cleared ==> r == d)
  {
    var p := d.pending.p;
    var gone := d.(pending := Absent);
    if now > p.expiresAt {
      if back.cleared { ExpireResult(d, p, back); }
    } else if tokenHash == p.tokenHash && done >= |KeepOps(d, p)| {
      assert UpTo(KeepOps(d, p), done) == KeepOps(d, p);
      assert KeepOps(d, p)[0] == DropPending && KeepOps(d, p)[1..] == PruneOps(d.sets.Keys, p.setName, p.previous);
      PruneResult(gone, d.sets.Keys, p.setName, p.previous);
    }
  }

  lemma ExpireResult(d: Dir, p: PendingState, back: Back)
    requires back.cleared
    ensures var r := ApplyAll(d, Expire(p, back).ops);
            && r.pending == Absent && r.sets == d.sets
            && r.live == if p.previous.Some? && back.steps >= 3 then p.previous else d.live
  {
    var ops := Expire(p, back).ops;
    assert ops[0] == DropPending && ops[1..] == Rollback(p.previous, p.previousFingerprint, back).ops;
    RollbackSwaps(d.(pending := Absent), p.previous, p.previousFingerprint, back);
  }

  /** From upload to confirmation: what was staged and is confirmed in time with its token is live for good. */
  lemma StagedThenConfirmed(
      d: Dir, before: Back, u: Upload, tokenHash: string, expiresAt: int, now: int, back: Back, done: nat)
    requires Stage(d, before, u, tokenHash, expiresAt).outcome == Installed && now <= expiresAt
    requires var d1 := ApplyAll(d, Stage(d, before, u, tokenHash, expiresAt).ops);
             d1.pending.Held? ==> done > |Removable(d1.sets.Keys, u.name, d1.pending.p.previous)|
    ensures var d1 := ApplyAll(d, Stage(d, before, u, tokenHash, expiresAt).ops);
            var (ops, c) := Confirm(d1, tokenHash, now, back, done);
            var r := ApplyAll(d1, ops);
            && c == Confirmed && r.live == Some(u.name) && r.pending == Absent
            && u.name in r.sets && r.sets[u.name] == SetDir(Whole(u.cert), Whole(u.key))
  {
    var d1 := ApplyAll(d, Stage(d, before, u, tokenHash, expiresAt).ops);
    StagedIsHeld(d, before, u, tokenHash, expiresAt);
    ConfirmedExactly(d1, tokenHash, now, back, done);
    ConfirmationResult(d1, tokenHash, now, back, done);
    RemovableSpares(d1.sets.Keys, u.name, d1.pending.p.previous);
  }
}
