/**
 * The certificate helper's directory and the file-operation scripts of its handlers
 * (apps/cert-helper/src/install.ts, pending.ts). A crash is a prefix of a script.
 */
module CertFiles {
  import opened Order
  import opened Options

  /** A file being written is `Partial` from the moment it is opened until its contents are complete. */
  datatype Content = Missing | Partial | Whole(pem: string)
  datatype SetDir = SetDir(cert: Content, key: Content)

  datatype PendingState = PendingState(
    setName: string, previous: Option<string>, previousFingerprint: Option<string>, tokenHash: string, expiresAt: int)

  datatype PendingFile = Absent | Torn | Held(p: PendingState)

  datatype Dir = Dir(sets: map<string, SetDir>, live: Option<string>, staging: Option<string>, pending: PendingFile)

  datatype FileOp =
    | MakeSet(name: string)
    | OpenCert(name: string) | FillCert(name: string, pem: string)
    | OpenKey(name: string) | FillKey(name: string, pem: string)
    | ClearStaging | LinkStaging(name: string) | RenameLive
    | DropSet(name: string)
    | OpenPending | FillPending(p: PendingState) | DropPending

  function SetOf(d: Dir, name: string): SetDir {
    if name in d.sets then d.sets[name] else SetDir(Missing, Missing)
  }

  function Apply(d: Dir, op: FileOp): Dir {
    match op
    case MakeSet(n) => d.(sets := d.sets[n := SetOf(d, n)])
    case OpenCert(n) => d.(sets := d.sets[n := SetOf(d, n).(cert := Partial)])
    case FillCert(n, pem) => d.(sets := d.sets[n := SetOf(d, n).(cert := Whole(pem))])
    case OpenKey(n) => d.(sets := d.sets[n := SetOf(d, n).(key := Partial)])
    case FillKey(n, pem) => d.(sets := d.sets[n := SetOf(d, n).(key := Whole(pem))])
    case ClearStaging => d.(staging := None)
    case LinkStaging(n) => d.(staging := Some(n))
    case RenameLive => if d.staging.Some? then d.(live := d.staging, staging := None) else d
    case DropSet(n) => d.(sets := d.sets - {n})
    case OpenPending => d.(pending := Torn)
    case FillPending(p) => d.(pending := Held(p))
    case DropPending => d.(pending := Absent)
  }

  function ApplyAll(d: Dir, ops: seq<FileOp>): Dir
    decreases |ops|
  {
    if ops == [] then d else ApplyAll(Apply(d, ops[0]), ops[1..])
  }

  // ---- the scripts ----

  datatype Probe = Threw | Served(fingerprint: string)

  /**
   * How undoing goes: whether the record could be removed, the swap operations done before one throws
   * (3 is all of them), then the proxy's answer.
   */
  datatype Back = Back(cleared: bool, steps: nat, probe: Probe)

  /** An upload and everything the outside world answers while it is installed. */
  datatype Upload = Upload(
    name: string, cert: string, key: string,
    fingerprint: Option<string>,   // None: the bundle was rejected
    written: nat,                  // operations of writing the set done before one throws
    steps: nat,                    // swap operations done before one throws
    readBack: Option<string>,      // fingerprint read off disk after the swap
    probe: Probe,                  // reload, then what the listener serves
    readAgain: Option<string>,     // fingerprint read off disk after the reload
    pruned: nat,                   // old sets deleted before a deletion throws
    marked: nat,                   // operations of writing the record done before one throws
    previousFingerprint: Option<string>,
    back: Back)

  /** `Aborted`: an operation outside the swaps threw, and the request ended there. */
  datatype Outcome = Rejected | Installed | RolledBack | RollbackFailed | Aborted

  datatype Script = Script(ops: seq<FileOp>, outcome: Outcome)

  /** The first `n` of them, or all. */
  function UpTo<T>(s: seq<T>, n: nat): seq<T> {
    s[..if n < |s| then n else |s|]
  }

  function SwapOps(target: string, steps: nat): seq<FileOp> {
    UpTo([ClearStaging, LinkStaging(target), RenameLive], steps)
  }

  function Rollback(previous: Option<string>, previousFingerprint: Option<string>, back: Back): Script {
    if previous == None then Script([], RollbackFailed)
    else
      var ops := SwapOps(previous.value, back.steps);
      if back.steps < 3 || back.probe.Threw? then Script(ops, RollbackFailed)
      else if previousFingerprint.Some? && back.probe.fingerprint != previousFingerprint.value
          then Script(ops, RollbackFailed)
      else Script(ops, RolledBack)
  }

  /** All but the last three of an increasing list, last first. */
  function AllButNewest(all: seq<string>): seq<string> {
    if |all| <= 3 then [] else seq(|all| - 3, i requires 0 <= i < |all| - 3 => all[|all| - 4 - i])
  }

  /** Sets beyond the kept one, the previous one and the three newest others, newest first. */
  function Removable(names: set<string>, keep: string, previous: Option<string>): seq<string> {
    AllButNewest(SortedStrings(names - {keep} - if previous.Some? then {previous.value} else {}))
  }

  function PruneOps(names: set<string>, keep: string, previous: Option<string>): seq<FileOp> {
    var gone := Removable(names, keep, previous);
    seq(|gone|, i requires 0 <= i < |gone| => DropSet(gone[i]))
  }

  function WriteSetOps(u: Upload): seq<FileOp> {
    [MakeSet(u.name), OpenCert(u.name), FillCert(u.name, u.cert), OpenKey(u.name), FillKey(u.name, u.key)]
  }

  /** The listener serves what is on disk. */
  predicate Verified(u: Upload) {
    u.readBack == u.fingerprint && u.probe.Served? && u.readAgain == Some(u.probe.fingerprint)
  }

  function Install(d: Dir, u: Upload): Script {
    if u.fingerprint == None then Script([], Rejected)
    else if u.written < 5 then Script(UpTo(WriteSetOps(u), u.written), Aborted)
    else
      var staged := WriteSetOps(u) + SwapOps(u.name, u.steps);
      if u.steps < 3 then Script(staged, RolledBack)
      else if !Verified(u) then
        var r := Rollback(d.live, u.previousFingerprint, u.back);
        Script(staged + r.ops, r.outcome)
      else
        var prune := PruneOps(d.sets.Keys + {u.name}, u.name, d.live);
        Script(staged + UpTo(prune, u.pruned), if u.pruned < |prune| then Aborted else Installed)
  }

  /** Undo an unconfirmed install: the record goes first, then the link is swapped back. */
  function Expire(p: PendingState, back: Back): Script {
    if !back.cleared then Script([], Aborted)
    else
      var r := Rollback(p.previous, p.previousFingerprint, back);
      Script([DropPending] + r.ops, r.outcome)
  }

  /** On start, and before every install: nothing to do unless a whole record is found. */
  function RecoverOps(d: Dir, back: Back): seq<FileOp> {
    if d.pending.Held? then Expire(d.pending.p, back).ops else []
  }

  function MarkOps(p: PendingState): seq<FileOp> {
    [OpenPending, FillPending(p)]
  }

  function PendingFor(u: Upload, previous: Option<string>, tokenHash: string, expiresAt: int): PendingState {
    PendingState(u.name, previous, u.previousFingerprint, tokenHash, expiresAt)
  }

  /** A whole install request: recover, install, and hold the change as pending. */
  function Stage(d: Dir, before: Back, u: Upload, tokenHash: string, expiresAt: int): Script {
    if d.pending.Held? && !before.cleared then Script([], Aborted)
    else
      var first := RecoverOps(d, before);
      var d1 := ApplyAll(d, first);
      var s := Install(d1, u);
      if s.outcome == Installed then
        Script(first + s.ops + UpTo(MarkOps(PendingFor(u, d1.live, tokenHash, expiresAt)), u.marked),
               if u.marked < 2 then Aborted else Installed)
      else Script(first + s.ops, s.outcome)
  }

  datatype Confirmation = Confirmed | NothingPending | TokenMismatch | Expired(rollback: Outcome) | Broken

  function KeepOps(d: Dir, p: PendingState): seq<FileOp> {
    [DropPending] + PruneOps(d.sets.Keys, p.setName, p.previous)
  }

  /** `done` operations of keeping the set succeed before one throws. */
  function Confirm(d: Dir, tokenHash: string, now: int, back: Back, done: nat): (seq<FileOp>, Confirmation) {
    if !d.pending.Held? then ([], NothingPending)
    else
      var p := d.pending.p;
      if now > p.expiresAt then (Expire(p, back).ops, Expired(Expire(p, back).outcome))
      else if tokenHash != p.tokenHash then ([], TokenMismatch)
      else (UpTo(KeepOps(d, p), done), if done < |KeepOps(d, p)| then Broken else Confirmed)
  }

  function ExpireIfDue(d: Dir, now: int, back: Back): Option<Script> {
    if d.pending.Held? && now > d.pending.p.expiresAt then Some(Expire(d.pending.p, back)) else None
  }

  // ---- sequencing ----

  lemma {:induction false} ApplyConcat(d: Dir, a: seq<FileOp>, b: seq<FileOp>)
    ensures ApplyAll(d, a + b) == ApplyAll(ApplyAll(d, a), b)
    decreases |a|
  {
    if a == [] {
      assert a + b == b;
    } else {
      assert (a + b)[0] == a[0] && (a + b)[1..] == a[1..] + b;
      ApplyConcat(Apply(d, a[0]), a[1..], b);
    }
  }

  // ---- never a broken live certificate ----

  predicate WholeSet(d: Dir, name: string) {
    name in d.sets && d.sets[name].cert.Whole? && d.sets[name].key.Whole?
  }

  /** What the proxy reads is complete, and what a rollback would restore is there. */
  predicate Safe(d: Dir) {
    && (d.live.Some? ==> WholeSet(d, d.live.value))
    && (d.pending.Held? ==> d.live == Some(d.pending.p.setName)
                            && (d.pending.p.previous.Some? ==> WholeSet(d, d.pending.p.previous.value)))
  }

  /** Safe before, between and after the operations: at every crash point. */
  predicate SafeThroughout(d: Dir, ops: seq<FileOp>)
    decreases |ops|
  {
    Safe(d) && (ops == [] || SafeThroughout(Apply(d, ops[0]), ops[1..]))
  }

  lemma {:induction false} SafeAtEveryPrefix(d: Dir, ops: seq<FileOp>, k: nat)
    requires SafeThroughout(d, ops) && k <= |ops|
    ensures Safe(ApplyAll(d, ops[..k]))
    decreases |ops|
  {
    if k > 0 {
      assert ops[..k][0] == ops[0] && ops[..k][1..] == ops[1..][..k - 1];
      SafeAtEveryPrefix(Apply(d, ops[0]), ops[1..], k - 1);
    }
  }

  lemma {:induction false} SafePrefix(d: Dir, ops: seq<FileOp>, k: nat)
    requires SafeThroughout(d, ops) && k <= |ops|
    ensures SafeThroughout(d, ops[..k])
    decreases |ops|
  {
    if k > 0 {
      assert ops[..k][0] == ops[0] && ops[..k][1..] == ops[1..][..k - 1];
      SafePrefix(Apply(d, ops[0]), ops[1..], k - 1);
    }
  }

  lemma {:induction false} SafeConcat(d: Dir, a: seq<FileOp>, b: seq<FileOp>)
    requires SafeThroughout(d, a) && SafeThroughout(ApplyAll(d, a), b)
    ensures SafeThroughout(d, a + b)
    decreases |a|
  {
    if a == [] {
      assert a + b == b;
    } else {
      assert (a + b)[0] == a[0] && (a + b)[1..] == a[1..] + b;
      SafeConcat(Apply(d, a[0]), a[1..], b);
    }
  }

  lemma SwapResult(d: Dir, target: string, steps: nat)
    ensures var r := ApplyAll(d, SwapOps(target, steps));
            && r.sets == d.sets && r.pending == d.pending
            && r.live == if steps < 3 then d.live else Some(target)
  {
    var ops := SwapOps(target, steps);
    var d1 := d.(staging := None);
    var d2 := d.(staging := Some(target));
    if steps == 0 {
    } else if steps == 1 {
      assert ops[1..] == [];
      assert ApplyAll(d1, []) == d1;
    } else if steps == 2 {
      assert ops[1..] == [LinkStaging(target)] && ops[1..][1..] == [];
      assert ApplyAll(d2, []) == d2;
      assert ApplyAll(d1, [LinkStaging(target)]) == d2;
    } else {
      assert ops == [ClearStaging, LinkStaging(target), RenameLive];
      assert ops[1..] == [LinkStaging(target), RenameLive] && ops[1..][1..] == [RenameLive] && ops[1..][1..][1..] == [];
      var d3 := d.(live := Some(target), staging := None);
      assert ApplyAll(d3, []) == d3;
      assert ApplyAll(d2, [RenameLive]) == d3;
      assert ApplyAll(d1, [LinkStaging(target), RenameLive]) == d3;
    }
  }

  lemma SwapSafe(d: Dir, target: string, steps: nat)
    requires Safe(d) && !d.pending.Held? && WholeSet(d, target)
    ensures SafeThroughout(d, SwapOps(target, steps))
  {
    var ops := SwapOps(target, steps);
    if steps >= 1 {
      assert ops[0] == ClearStaging;
      var rest := ops[1..];
      if steps >= 2 {
        assert rest[0] == LinkStaging(target);
        var last := rest[1..];
        if steps >= 3 {
          assert last[0] == RenameLive && last[1..] == [];
          assert SafeThroughout(d.(live := Some(target), staging := None), []);
        }
        assert SafeThroughout(d.(staging := Some(target)), last);
      }
      assert SafeThroughout(d.(staging := None), rest);
    }
  }

  /** An operation that changes nothing but what is in the set `n`. */
  predicate Within(op: FileOp, n: string) {
    (op.MakeSet? || op.OpenCert? || op.FillCert? || op.OpenKey? || op.FillKey?) && op.name == n
  }

  lemma {:induction false} WithinIsSafe(d: Dir, ops: seq<FileOp>, n: string)
    requires Safe(d) && !d.pending.Held? && d.live != Some(n)
    requires forall i | 0 <= i < |ops| :: Within(ops[i], n)
    ensures SafeThroughout(d, ops)
    ensures var r := ApplyAll(d, ops); r.live == d.live && r.pending == d.pending && Safe(r)
    ensures forall m | WholeSet(d, m) && m != n :: WholeSet(ApplyAll(d, ops), m)
    ensures ApplyAll(d, ops).sets.Keys + {n} == d.sets.Keys + {n}
    decreases |ops|
  {
    if ops != [] {
      assert Within(ops[0], n);
      assert forall i | 0 <= i < |ops[1..]| :: ops[1..][i] == ops[i + 1];
      WithinIsSafe(Apply(d, ops[0]), ops[1..], n);
    }
  }

  lemma WriteSetResult(d: Dir, u: Upload)
    ensures ApplyAll(d, WriteSetOps(u)) == d.(sets := d.sets[u.name := SetDir(Whole(u.cert), Whole(u.key))])
  {
    var ops := WriteSetOps(u);
    assert ops[1..][1..][1..][1..][1..] == [];
    var d1 := Apply(d, ops[0]);
    var d2 := Apply(d1, ops[1]);
    var d3 := Apply(d2, ops[2]);
    var d4 := Apply(d3, ops[3]);
    var d5 := Apply(d4, ops[4]);
    assert ApplyAll(d, ops) == ApplyAll(d1, ops[1..]) == ApplyAll(d2, ops[1..][1..]) == ApplyAll(d3, ops[1..][1..][1..])
        == ApplyAll(d4, ops[1..][1..][1..][1..]) == ApplyAll(d5, []);
    assert d5.sets == d.sets[u.name := SetDir(Whole(u.cert), Whole(u.key))];
  }

  /** Writing a set that is not live, over an old one of the same name or not, disturbs nothing. */
  lemma WriteSetSafe(d: Dir, u: Upload)
    requires Safe(d) && !d.pending.Held? && d.live != Some(u.name)
    ensures SafeThroughout(d, WriteSetOps(u))
    ensures var r := ApplyAll(d, WriteSetOps(u));
            r == d.(sets := d.sets[u.name := SetDir(Whole(u.cert), Whole(u.key))])
  {
    WithinIsSafe(d, WriteSetOps(u), u.name);
    WriteSetResult(d, u);
  }

  lemma RemovableSpares(names: set<string>, keep: string, previous: Option<string>)
    ensures keep !in Removable(names, keep, previous)
    ensures previous.Some? ==> previous.value !in Removable(names, keep, previous)
  {
    var others := SortedStrings(names - {keep} - if previous.Some? then {previous.value} else {});
    forall x | x in Removable(names, keep, previous) ensures x in others {
      var i :| 0 <= i < |Removable(names, keep, previous)| && Removable(names, keep, previous)[i] == x;
      assert others[|others| - 4 - i] in others;
    }
  }

  function DropOps(gone: seq<string>): seq<FileOp> {
    seq(|gone|, i requires 0 <= i < |gone| => DropSet(gone[i]))
  }

  lemma {:induction false} DropsSafe(d: Dir, gone: seq<string>, keep: string, previous: Option<string>)
    requires Safe(d) && !d.pending.Held? && d.live == Some(keep)
    requires keep !in gone && (previous.Some? ==> previous.value !in gone && WholeSet(d, previous.value))
    ensures SafeThroughout(d, DropOps(gone))
    ensures var r := ApplyAll(d, DropOps(gone));
            && r.live == d.live && r.pending == d.pending && Safe(r)
            && (previous.Some? ==> WholeSet(r, previous.value))
    decreases |gone|
  {
    var ops := DropOps(gone);
    if gone != [] {
      assert ops[0] == DropSet(gone[0]) && ops[1..] == DropOps(gone[1..]);
      assert gone[0] != keep && gone[0] in gone;
      DropsSafe(Apply(d, ops[0]), gone[1..], keep, previous);
    }
  }

  /** Pruning never removes the live set or the one a rollback would restore. */
  lemma PruneIsSafe(d: Dir, names: set<string>, keep: string, previous: Option<string>)
    requires Safe(d) && !d.pending.Held? && d.live == Some(keep)
    requires previous.Some? ==> WholeSet(d, previous.value)
    ensures SafeThroughout(d, PruneOps(names, keep, previous))
    ensures var r := ApplyAll(d, PruneOps(names, keep, previous));
            && r.live == d.live && r.pending == d.pending && Safe(r)
            && (previous.Some? ==> WholeSet(r, previous.value))
  {
    RemovableSpares(names, keep, previous);
    assert PruneOps(names, keep, previous) == DropOps(Removable(names, keep, previous));
    DropsSafe(d, Removable(names, keep, previous), keep, previous);
  }
}
