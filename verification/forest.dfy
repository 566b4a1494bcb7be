/**
 * The node-group hierarchy and the walk that guards it
 * (apps/api/src/classification/classification.service.ts, `assertNoCycle`).
 */
module Forest {
  import opened Options

  type Parents = map<string, Option<string>>

  function Up(p: Parents, c: Option<string>): Option<string> {
    if c.Some? && c.value in p then p[c.value] else None
  }

  /** The ancestor `n` steps above `c`; `None` above a root. */
  function Climb(p: Parents, c: Option<string>, n: nat): Option<string>
    decreases n
  {
    if n == 0 then c else Climb(p, Up(p, c), n - 1)
  }

  ghost predicate Acyclic(p: Parents) {
    forall id: string, n: nat | n >= 1 :: Climb(p, Some(id), n) != Some(id)
  }

  ghost predicate Closed(p: Parents) {
    forall id | id in p && p[id].Some? :: p[id].value in p
  }

  ghost predicate IsForest(p: Parents) {
    Acyclic(p) && Closed(p)
  }

  ghost predicate Meets(p: Parents, c: Option<string>, id: string) {
    exists n: nat :: Climb(p, c, n) == Some(id)
  }

  ghost predicate MeetsAny(p: Parents, c: Option<string>, ids: set<string>) {
    exists n: nat :: Climb(p, c, n).Some? && Climb(p, c, n).value in ids
  }

  ghost predicate ReachesRoot(p: Parents, c: Option<string>) {
    exists n: nat :: Climb(p, c, n) == None
  }

  /** The walk of the cycle check: refuse as soon as an id repeats. */
  predicate Walk(p: Parents, seen: set<string>, c: Option<string>)
    decreases p.Keys - seen
  {
    if c == None then true
    else if c.value in seen then false
    else if c.value !in p then true
    else Walk(p, seen + {c.value}, p[c.value])
  }

  // ---- climbing ----

  lemma {:induction false} ClimbAdd(p: Parents, c: Option<string>, m: nat, n: nat)
    ensures Climb(p, c, m + n) == Climb(p, Climb(p, c, m), n)
    decreases m
  {
    if m > 0 { ClimbAdd(p, Up(p, c), m - 1, n); }
  }

  lemma {:induction false} RootStays(p: Parents, n: nat)
    ensures Climb(p, None, n) == None
    decreases n
  {
    if n > 0 { RootStays(p, n - 1); }
  }

  lemma {:induction false} Rounds(p: Parents, id: string, k: nat, times: nat)
    requires k >= 1 && Climb(p, Some(id), k) == Some(id)
    ensures Climb(p, Some(id), times * k) == Some(id)
    decreases times
  {
    if times > 0 {
      Rounds(p, id, k, times - 1);
      ClimbAdd(p, Some(id), k, (times - 1) * k);
      assert times * k == k + (times - 1) * k;
    }
  }

  lemma CycleHasNoRoot(p: Parents, id: string, k: nat)
    requires k >= 1 && Climb(p, Some(id), k) == Some(id)
    ensures !ReachesRoot(p, Some(id))
  {
    forall n: nat ensures Climb(p, Some(id), n) != None {
      if Climb(p, Some(id), n) == None {
        Rounds(p, id, k, n);
        assert n * k >= n;
        ClimbAdd(p, Some(id), n, n * k - n);
        RootStays(p, n * k - n);
      }
    }
  }

  // ---- what the walk decides ----

  /** An accepted walk reached a root and met nothing it was told to avoid. */
  lemma {:induction false} AcceptedWalk(p: Parents, seen: set<string>, c: Option<string>)
    requires Walk(p, seen, c)
    ensures ReachesRoot(p, c)
    ensures forall n: nat, id | id in seen :: Climb(p, c, n) != Some(id)
    decreases p.Keys - seen
  {
    if c == None {
      assert Climb(p, c, 0) == None;
      forall n: nat ensures Climb(p, c, n) == None { RootStays(p, n); }
    } else {
      if c.value in p { AcceptedWalk(p, seen + {c.value}, p[c.value]); }
      var up := Up(p, c);
      assert Climb(p, None, 0) == None;
      assert ReachesRoot(p, up);
      var k: nat :| Climb(p, up, k) == None;
      assert Climb(p, c, k + 1) == None;
      forall n: nat, id | id in seen ensures Climb(p, c, n) != Some(id) {
        if n > 0 {
          assert Climb(p, c, n) == Climb(p, up, n - 1);
          if c.value !in p { RootStays(p, n - 1); }
        }
      }
    }
  }

  /** A refused walk met something it was told to avoid, or ran into a cycle already there. */
  lemma {:induction false} RefusedWalk(p: Parents, seen: set<string>, c: Option<string>)
    requires !Walk(p, seen, c)
    ensures MeetsAny(p, c, seen) || !ReachesRoot(p, c)
    ensures MeetsAny(p, c, seen) || !Acyclic(p)
    decreases p.Keys - seen
  {
    var x := c.value;
    if x in seen {
      assert Climb(p, c, 0) == Some(x);
    } else {
      var up := p[x];
      RefusedWalk(p, seen + {x}, up);
      if MeetsAny(p, up, seen + {x}) {
        var n: nat :| Climb(p, up, n).Some? && Climb(p, up, n).value in seen + {x};
        assert Climb(p, c, n + 1) == Climb(p, up, n);
        if Climb(p, up, n) == Some(x) { CycleHasNoRoot(p, x, n + 1); }
      } else {
        forall n: nat ensures Climb(p, c, n) != None {
          if n > 0 { assert Climb(p, c, n) == Climb(p, up, n - 1); }
        }
      }
    }
  }

  lemma WalkDecides(p: Parents, id: string, c: Option<string>)
    ensures Walk(p, {id}, c) <==> ReachesRoot(p, c) && !Meets(p, c, id)
    ensures Acyclic(p) ==> (Walk(p, {id}, c) <==> !Meets(p, c, id))
  {
    if Walk(p, {id}, c) {
      AcceptedWalk(p, {id}, c);
    } else {
      RefusedWalk(p, {id}, c);
    }
  }

  /** Refuse a parent that would close a cycle. The walk ends on any hierarchy, cyclic ones included. */
  method AssertNoCycle(p: Parents, groupId: string, proposed: string) returns (accepted: bool)
    ensures accepted <==> ReachesRoot(p, Some(proposed)) && !Meets(p, Some(proposed), groupId)
  {
    WalkDecides(p, groupId, Some(proposed));
    if groupId == proposed {
      return false;
    }
    var seen := {groupId};
    var cursor := Some(proposed);
    while cursor != None
      invariant Walk(p, {groupId}, Some(proposed)) <==> Walk(p, seen, cursor)
      decreases p.Keys - seen, cursor.Some?
    {
      var id := cursor.value;
      if id in seen {
        return false;
      }
      seen := seen + {id};
      cursor := if id in p then p[id] else None;
    }
    return true;
  }

  // ---- edits keep the forest ----

  lemma {:induction false} ClimbAgrees(p: Parents, g: string, q: Option<string>, c: Option<string>, n: nat)
    requires forall m: nat | m < n :: Climb(p, c, m) != Some(g)
    ensures Climb(p[g := q], c, n) == Climb(p, c, n)
    decreases n
  {
    if n > 0 {
      assert Climb(p, c, 0) == c;
      forall m: nat | m < n - 1 ensures Climb(p, Up(p, c), m) != Some(g) {
        assert Climb(p, c, m + 1) != Some(g);
      }
      ClimbAgrees(p, g, q, Up(p, c), n - 1);
    }
  }

  lemma {:induction false} FirstMeeting(p: Parents, c: Option<string>, g: string, n: nat) returns (k: nat)
    requires Climb(p, c, n) == Some(g)
    ensures k <= n && Climb(p, c, k) == Some(g) && forall m: nat | m < k :: Climb(p, c, m) != Some(g)
    decreases n
  {
    if m: nat :| m < n && Climb(p, c, m) == Some(g) {
      k := FirstMeeting(p, c, g, m);
    } else {
      k := n;
    }
  }

  lemma ReparentMakesCycle(p: Parents, g: string, q: string)
    requires Meets(p, Some(q), g)
    ensures !Acyclic(p[g := Some(q)])
  {
    var n: nat :| Climb(p, Some(q), n) == Some(g);
    var k := FirstMeeting(p, Some(q), g, n);
    ClimbAgrees(p, g, Some(q), Some(q), k);
    assert Climb(p[g := Some(q)], Some(g), k + 1) == Some(g);
  }

  /** Giving `g` a parent chain that never meets `g` keeps an acyclic hierarchy acyclic. */
  lemma ReparentKeepsAcyclic(p: Parents, g: string, q: Option<string>)
    requires Acyclic(p)
    requires q.Some? ==> !Meets(p, q, g)
    ensures Acyclic(p[g := q])
  {
    var p' := p[g := q];
    forall id: string, n: nat | n >= 1 ensures Climb(p', Some(id), n) != Some(id) {
      if Climb(p', Some(id), n) == Some(id) {
        if m: nat :| m < n && Climb(p, Some(id), m) == Some(g) {
          var k := FirstMeeting(p, Some(id), g, m);
          ClimbAgrees(p, g, q, Some(id), k);
          ClimbAdd(p', Some(id), k, n);
          ClimbAdd(p', Some(id), n, k);
          assert Climb(p', Some(g), n) == Some(g);
          assert Climb(p', q, n - 1) == Some(g);
          if q == None {
            RootStays(p', n - 1);
          } else {
            ClimbAgrees(p, g, q, q, n - 1);
          }
        } else {
          ClimbAgrees(p, g, q, Some(id), n);
        }
      }
    }
  }

  /** On an acyclic hierarchy the check accepts exactly the re-parentings that leave it acyclic. */
  lemma CheckIsExact(p: Parents, g: string, q: string)
    requires Acyclic(p)
    ensures Walk(p, {g}, Some(q)) <==> Acyclic(p[g := Some(q)])
  {
    WalkDecides(p, g, Some(q));
    if Meets(p, Some(q), g) { ReparentMakesCycle(p, g, q); } else { ReparentKeepsAcyclic(p, g, Some(q)); }
  }

  lemma {:induction false} ClimbWithout(p: Parents, g: string, c: Option<string>, n: nat)
    ensures Climb(p - {g}, c, n) == Climb(p, c, n) || Climb(p - {g}, c, n) == None
    decreases n
  {
    if n > 0 {
      if c == Some(g) { RootStays(p - {g}, n - 1); } else { ClimbWithout(p, g, Up(p, c), n - 1); }
    }
  }

  /** Removing a group no other group has as parent keeps the forest. */
  lemma RemoveKeepsForest(p: Parents, g: string)
    requires IsForest(p)
    requires forall id | id in p :: p[id] != Some(g)
    ensures IsForest(p - {g})
  {
    forall id: string, n: nat | n >= 1 ensures Climb(p - {g}, Some(id), n) != Some(id) {
      ClimbWithout(p, g, Some(id), n);
    }
  }

  lemma {:induction false} ClimbAvoids(p: Parents, g: string, c: Option<string>, n: nat)
    requires c != Some(g)
    requires forall id | id in p :: p[id] != Some(g)
    ensures Climb(p, c, n) != Some(g)
    decreases n
  {
    if n > 0 { ClimbAvoids(p, g, Up(p, c), n - 1); }
  }

  /** A new group under an existing parent, or none, keeps the forest. */
  lemma CreateKeepsForest(p: Parents, g: string, q: Option<string>)
    requires IsForest(p) && g !in p
    requires q.Some? ==> q.value in p
    ensures IsForest(p[g := q])
  {
    forall n: nat ensures Climb(p, q, n) != Some(g) {
      ClimbAvoids(p, g, q, n);
    }
    ReparentKeepsAcyclic(p, g, q);
  }
}
