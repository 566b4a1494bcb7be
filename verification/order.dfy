/** Strict total orders over finite sets, and the lexicographic order on strings. */
module Order {

  /** `lt` orders the elements of `s` strictly and totally. */
  ghost predicate StrictTotal<T(!new)>(lt: (T, T) -> bool, s: set<T>) {
    && (forall a | a in s :: !lt(a, a))
    && (forall a, b | a in s && b in s && a != b :: lt(a, b) || lt(b, a))
    && (forall a, b, c | a in s && b in s && c in s && lt(a, b) && lt(b, c) :: lt(a, c))
  }

  predicate IsLeast<T(==)>(lt: (T, T) -> bool, s: set<T>, m: T) {
    m in s && forall x | x in s :: x == m || lt(m, x)
  }

  lemma {:induction false} LeastExists<T(!new)>(lt: (T, T) -> bool, s: set<T>)
    requires StrictTotal(lt, s) && s != {}
    ensures exists m :: IsLeast(lt, s, m)
    decreases |s|
  {
    var x :| x in s;
    if s == {x} {
      assert IsLeast(lt, s, x);
    } else {
      var rest := s - {x};
      assert s == rest + {x};
      LeastExists(lt, rest);
      var m :| IsLeast(lt, rest, m);
      assert IsLeast(lt, s, if lt(x, m) then x else m);
    }
  }

  /** The elements of `s`, least first. */
  function Sorted<T(!new)>(lt: (T, T) -> bool, s: set<T>): (r: seq<T>)
    requires StrictTotal(lt, s)
    ensures |r| == |s|
    ensures forall x :: x in r <==> x in s
    ensures forall i, j | 0 <= i < j < |r| :: lt(r[i], r[j])
    decreases |s|
  {
    if s == {} then [] else
      LeastExists(lt, s);
      var m :| IsLeast(lt, s, m);
      var rest := Sorted(lt, s - {m});
      [m] + rest
  }

  /** Two orders that agree on a set list it the same way. */
  lemma {:induction false} SortedCongruent<T(!new)>(lt: (T, T) -> bool, lt': (T, T) -> bool, s: set<T>)
    requires StrictTotal(lt, s) && StrictTotal(lt', s)
    requires forall a, b | a in s && b in s :: lt(a, b) == lt'(a, b)
    ensures Sorted(lt, s) == Sorted(lt', s)
    decreases |s|
  {
    if s != {} {
      var p, q := Sorted(lt, s), Sorted(lt', s);
      var m, n := p[0], q[0];
      assert m in s && n in s;
      assert m == n by {
        var i :| 0 <= i < |p| && p[i] == n;
        var j :| 0 <= j < |q| && q[j] == m;
      }
      SortedCongruent(lt, lt', s - {m});
    }
  }

  /** Distinct members of a set number no more than the set. */
  lemma {:induction false} DistinctBound<T>(s: set<T>, r: seq<T>)
    requires forall x :: x in r ==> x in s
    requires forall i, j | 0 <= i < j < |r| :: r[i] != r[j]
    ensures |r| <= |s|
    decreases |r|
  {
    if r != [] {
      var m := r[0];
      assert m in s;
      forall x | x in r[1..] ensures x in s - {m} {
        var i :| 0 <= i < |r[1..]| && r[1..][i] == x;
        assert r[i + 1] == x;
      }
      DistinctBound(s - {m}, r[1..]);
    }
  }

  function Elems<T(==)>(s: seq<T>): set<T> {
    set x | x in s
  }

  lemma ElemsSnoc<T>(s: seq<T>, i: nat)
    requires i < |s|
    ensures Elems(s[..i + 1]) == Elems(s[..i]) + {s[i]}
  {
    assert s[..i + 1] == s[..i] + [s[i]];
  }

  /** Code-point order on strings, as the SQL `ORDER BY` and the sorts in the source use. */
  predicate Less(a: string, b: string) {
    if b == [] then false
    else if a == [] then true
    else if a[0] != b[0] then a[0] < b[0]
    else Less(a[1..], b[1..])
  }

  lemma {:induction false} LessTrans(a: string, b: string, c: string)
    requires Less(a, b) && Less(b, c)
    ensures Less(a, c)
    decreases |a|
  {
    if a != [] && a[0] == b[0] == c[0] { LessTrans(a[1..], b[1..], c[1..]); }
  }

  lemma {:induction false} LessTotal(a: string, b: string)
    ensures a == b || Less(a, b) || Less(b, a)
    decreases |a|
  {
    if a != [] && b != [] && a[0] == b[0] {
      LessTotal(a[1..], b[1..]);
      assert a == [a[0]] + a[1..] && b == [b[0]] + b[1..];
    }
  }

  lemma {:induction false} LessIrreflexive(a: string)
    ensures !Less(a, a)
    decreases |a|
  {
    if a != [] { LessIrreflexive(a[1..]); }
  }

  lemma LessOrders(s: set<string>)
    ensures StrictTotal(Less, s)
  {
    forall a | a in s ensures !Less(a, a) { LessIrreflexive(a); }
    forall a, b | a in s && b in s && a != b ensures Less(a, b) || Less(b, a) { LessTotal(a, b); }
    forall a, b, c | a in s && b in s && c in s && Less(a, b) && Less(b, c) ensures Less(a, c) { LessTrans(a, b, c); }
  }

  /** Only one increasing list has given elements. */
  lemma {:induction false} IncreasingUnique(a: seq<string>, b: seq<string>)
    requires forall i, j | 0 <= i < j < |a| :: Less(a[i], a[j])
    requires forall i, j | 0 <= i < j < |b| :: Less(b[i], b[j])
    requires forall x :: x in a <==> x in b
    ensures a == b
    decreases |a|
  {
    assert forall i | 0 <= i < |a| :: a[i] in b;
    assert forall i | 0 <= i < |b| :: b[i] in a;
    if a != [] {
      FirstIsLeast(a, b[0]);
      FirstIsLeast(b, a[0]);
      if a[0] != b[0] {
        LessTrans(a[0], b[0], a[0]);
        LessIrreflexive(a[0]);
      }
      forall x ensures x in a[1..] <==> x in b[1..] {
        TailElements(a, x);
        TailElements(b, x);
      }
      IncreasingUnique(a[1..], b[1..]);
    }
  }

  lemma TailIncreases(a: seq<string>, k: nat)
    requires forall i, j | 0 <= i < j < |a| :: Less(a[i], a[j])
    requires k <= |a|
    ensures forall i, j | 0 <= i < j < |a[k..]| :: Less(a[k..][i], a[k..][j])
  {
  }

  lemma FirstIsLeast(a: seq<string>, x: string)
    requires forall i, j | 0 <= i < j < |a| :: Less(a[i], a[j])
    requires x in a
    ensures x == a[0] || Less(a[0], x)
  {
  }

  lemma TailElements(a: seq<string>, x: string)
    requires forall i, j | 0 <= i < j < |a| :: Less(a[i], a[j])
    requires a != []
    ensures x in a[1..] <==> x in a && x != a[0]
  {
    LessIrreflexive(a[0]);
    assert forall i | 0 <= i < |a[1..]| :: a[1..][i] == a[i + 1];
    assert x in a ==> x == a[0] || x in a[1..] by { assert a == [a[0]] + a[1..]; }
  }

  /** In an increasing list, what is greater than an element comes after it. */
  lemma PastPosition(all: seq<string>, i: nat, n: string)
    requires forall i, j | 0 <= i < j < |all| :: Less(all[i], all[j])
    requires i < |all| && n in all && Less(all[i], n)
    ensures n in all[i + 1..]
  {
    var j :| 0 <= j < |all| && all[j] == n;
    LessIrreflexive(n);
    if j < i { LessTrans(all[j], all[i], n); }
    assert all[i + 1..][j - i - 1] == n;
  }

  lemma ListedAfter(all: seq<string>, i: nat, n: string)
    requires forall i, j | 0 <= i < j < |all| :: Less(all[i], all[j])
    requires i < |all|
    ensures n in all[i + 1..] <==> n in all && Less(all[i], n)
  {
    if n in all[i + 1..] {
      var j :| 0 <= j < |all[i + 1..]| && all[i + 1..][j] == n;
      assert all[i + 1 + j] == n;
    } else if n in all && Less(all[i], n) {
      PastPosition(all, i, n);
      assert false;
    }
  }

  /** The strings of `s` in increasing order. */
  function SortedStrings(s: set<string>): (r: seq<string>)
    ensures |r| == |s|
    ensures forall x :: x in r <==> x in s
    ensures forall i, j | 0 <= i < j < |r| :: Less(r[i], r[j])
  {
    LessOrders(s);
    Sorted(Less, s)
  }

  /** What follows an element in increasing order are the greater ones. */
  lemma SortedAfter(s: set<string>, i: nat, greater: set<string>)
    requires i < |s| && greater == set x | x in s && Less(SortedStrings(s)[i], x)
    ensures SortedStrings(s)[i + 1..] == SortedStrings(greater) && |greater| == |s| - 1 - i
  {
    var all := SortedStrings(s);
    forall n ensures n in all[i + 1..] <==> n in greater { ListedAfter(all, i, n); }
    TailIncreases(all, i + 1);
    IncreasingUnique(all[i + 1..], SortedStrings(greater));
  }
}
