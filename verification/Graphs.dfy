/**
 Finite directed graphs given by their set of arcs.

 A walk is a non-empty sequence of vertices whose neighbours are joined by arcs; a graph is cyclic
 when some walk of at least one arc returns to its start.  The cycle checks of the workflow kernel,
 of the plan reducer and of the cancellation tree are all proved against this one definition.
*/
module Graphs {

  ghost predicate IsWalk<V>(arcs: set<(V, V)>, p: seq<V>) {
    |p| > 0 && forall i {:trigger p[i]} :: 0 <= i < |p| - 1 ==> (p[i], p[i + 1]) in arcs
  }

  ghost predicate IsCycle<V>(arcs: set<(V, V)>, p: seq<V>) {
    |p| > 1 && IsWalk(arcs, p) && p[0] == p[|p| - 1]
  }

  ghost predicate Acyclic<V(!new)>(arcs: set<(V, V)>) {
    forall p: seq<V> :: !IsCycle(arcs, p)
  }

  ghost predicate Joins<V>(arcs: set<(V, V)>, p: seq<V>, u: V, v: V) {
    IsWalk(arcs, p) && p[0] == u && p[|p| - 1] == v
  }

  ghost predicate Reaches<V(!new)>(arcs: set<(V, V)>, u: V, v: V) {
    exists p :: Joins(arcs, p, u, v)
  }

  predicate Distinct<V(==)>(s: seq<V>) {
    forall i, j :: 0 <= i < j < |s| ==> s[i] != s[j]
  }

  function Elements<V>(s: seq<V>): set<V> {
    set x | x in s
  }

  lemma {:induction false} DistinctSize<V>(s: seq<V>)
    requires Distinct(s)
    ensures |Elements(s)| == |s|
  {
    if s == [] {
      assert Elements(s) == {};
    } else {
      DistinctSize(s[1..]);
      assert Elements(s) == {s[0]} + Elements(s[1..]);
    }
  }

  lemma SomeMember<V>(s: set<V>) returns (v: V)
    requires s != {}
    ensures v in s
  {
    v :| v in s;
  }

  lemma SubsetSize<V>(a: set<V>, b: set<V>)
    requires a <= b
    ensures |a| <= |b|
    ensures |a| == |b| ==> a == b
  {
    assert b == a + (b - a);
  }

  /** A sequence longer than the set it draws from repeats an element. */
  lemma Pigeonhole<V>(s: seq<V>, pool: set<V>) returns (i: nat, j: nat)
    requires Elements(s) <= pool
    requires |s| > |pool|
    ensures i < j < |s| && s[i] == s[j]
  {
    if Distinct(s) {
      DistinctSize(s);
      SubsetSize(Elements(s), pool);
      assert false;
    }
    i, j :| 0 <= i < j < |s| && s[i] == s[j];
  }

  lemma SubWalk<V>(arcs: set<(V, V)>, p: seq<V>, i: nat, j: nat)
    requires IsWalk(arcs, p) && i < j <= |p|
    ensures IsWalk(arcs, p[i..j])
  {
    forall k {:trigger p[i..j][k]} | 0 <= k < |p[i..j]| - 1
      ensures (p[i..j][k], p[i..j][k + 1]) in arcs
    {
      assert p[i..j][k] == p[i + k] && p[i..j][k + 1] == p[i + k + 1];
    }
  }

  lemma RepeatIsCycle<V(!new)>(arcs: set<(V, V)>, p: seq<V>, i: nat, j: nat)
    requires IsWalk(arcs, p) && i < j < |p| && p[i] == p[j]
    ensures !Acyclic(arcs)
  {
    SubWalk(arcs, p, i, j + 1);
    assert IsCycle(arcs, p[i..j + 1]);
  }

  lemma {:induction false} WalkRises<V>(arcs: set<(V, V)>, rank: map<V, int>, p: seq<V>)
    requires forall a :: a in arcs ==> a.0 in rank && a.1 in rank && rank[a.0] < rank[a.1]
    requires IsWalk(arcs, p) && |p| > 1
    ensures p[0] in rank && p[|p| - 1] in rank && rank[p[0]] < rank[p[|p| - 1]]
  {
    assert (p[0], p[1]) in arcs;
    if |p| > 2 {
      SubWalk(arcs, p, 1, |p|);
      WalkRises(arcs, rank, p[1..]);
    }
  }

  /** A ranking that rises along every arc rules out every cycle. */
  lemma RankedIsAcyclic<V(!new)>(arcs: set<(V, V)>, rank: map<V, int>)
    requires forall a :: a in arcs ==> a.0 in rank && a.1 in rank && rank[a.0] < rank[a.1]
    ensures Acyclic(arcs)
  {
    forall p: seq<V> ensures !IsCycle(arcs, p) {
      if IsCycle(arcs, p) {
        WalkRises(arcs, rank, p);
      }
    }
  }

  ghost predicate HasEntry<V(!new)>(arcs: set<(V, V)>, s: set<V>, v: V) {
    exists u :: u in s && (u, v) in arcs
  }

  lemma {:induction false} BackwardWalk<V(!new)>(arcs: set<(V, V)>, s: set<V>, start: V, n: nat) returns (p: seq<V>)
    requires start in s
    requires forall v :: v in s ==> HasEntry(arcs, s, v)
    ensures |p| == n + 1 && IsWalk(arcs, p) && Elements(p) <= s
  {
    p := [start];
    if n > 0 {
      var q := BackwardWalk(arcs, s, start, n - 1);
      assert q[0] in s;
      var u :| u in s && (u, q[0]) in arcs;
      p := [u] + q;
      forall i {:trigger p[i]} | 0 <= i < |p| - 1
        ensures (p[i], p[i + 1]) in arcs
      {
        if i > 0 {
          assert p[i] == q[i - 1] && p[i + 1] == q[i];
        }
      }
    }
  }

  /** A non-empty finite set whose every member is entered from within the set contains a cycle. */
  lemma AllEnteredIsCyclic<V(!new)>(arcs: set<(V, V)>, s: set<V>)
    requires s != {} && forall v :: v in s ==> HasEntry(arcs, s, v)
    ensures !Acyclic(arcs)
  {
    var start :| start in s;
    var p := BackwardWalk(arcs, s, start, |s|);
    var i, j := Pigeonhole(p, s);
    RepeatIsCycle(arcs, p, i, j);
  }

  /** In an acyclic graph every non-empty vertex set has a member that no other member points to. */
  lemma MinimalVertex<V(!new)>(arcs: set<(V, V)>, s: set<V>) returns (v: V)
    requires Acyclic(arcs) && s != {}
    ensures v in s && !HasEntry(arcs, s, v)
  {
    if forall w :: w in s ==> HasEntry(arcs, s, w) {
      AllEnteredIsCyclic(arcs, s);
    }
    v :| v in s && !HasEntry(arcs, s, v);
  }

  lemma JoinWalks<V>(arcs: set<(V, V)>, p: seq<V>, q: seq<V>)
    requires IsWalk(arcs, p) && IsWalk(arcs, q) && (p[|p| - 1], q[0]) in arcs
    ensures IsWalk(arcs, p + q)
  {
    var w := p + q;
    forall i {:trigger w[i]} | 0 <= i < |w| - 1
      ensures (w[i], w[i + 1]) in arcs
    {
      if i < |p| - 1 {
        assert w[i] == p[i] && w[i + 1] == p[i + 1];
      } else if i >= |p| {
        assert w[i] == q[i - |p|] && w[i + 1] == q[i - |p| + 1];
      }
    }
  }

  lemma ReachesSelf<V(!new)>(arcs: set<(V, V)>, u: V)
    ensures Reaches(arcs, u, u)
  {
    assert Joins(arcs, [u], u, u);
  }

  /** Whatever holds at the start of a walk and is passed on along arcs holds at its end. */
  lemma {:induction false} ReachesStaysIn<V(!new)>(arcs: set<(V, V)>, closed: set<V>, p: seq<V>)
    requires IsWalk(arcs, p) && p[0] in closed
    requires forall a :: a in arcs && a.0 in closed ==> a.1 in closed
    ensures p[|p| - 1] in closed
  {
    if |p| > 1 {
      assert (p[0], p[1]) in arcs;
      SubWalk(arcs, p, 1, |p|);
      ReachesStaysIn(arcs, closed, p[1..]);
    }
  }

  lemma {:induction false} FirstUse<V>(arcs: set<(V, V)>, p: seq<V>, a: V, b: V, k: nat) returns (j: nat)
    requires IsWalk(arcs + {(a, b)}, p)
    requires k < |p| - 1 && p[k] == a && p[k + 1] == b
    ensures j <= k && p[j] == a && p[j + 1] == b
    ensures IsWalk(arcs, p[..j + 1])
    decreases k
  {
    if i :| 0 <= i < k && p[i] == a && p[i + 1] == b {
      j := FirstUse(arcs, p, a, b, i);
    } else {
      j := k;
      forall i {:trigger p[..j + 1][i]} | 0 <= i < |p[..j + 1]| - 1
        ensures (p[..j + 1][i], p[..j + 1][i + 1]) in arcs
      {
        assert p[..j + 1][i] == p[i] && p[..j + 1][i + 1] == p[i + 1];
      }
    }
  }

  lemma UnusedArc<V>(arcs: set<(V, V)>, p: seq<V>, a: V, b: V)
    requires IsCycle(arcs + {(a, b)}, p)
    requires forall k :: 0 <= k < |p| - 1 && p[k] == a ==> p[k + 1] != b
    ensures IsCycle(arcs, p)
  {
    forall i {:trigger p[i]} | 0 <= i < |p| - 1
      ensures (p[i], p[i + 1]) in arcs
    {
    }
  }

  /** A cycle through `(a, b)`, walked once more from just behind that arc. */
  lemma Rotate<V>(arcs: set<(V, V)>, p: seq<V>, k: nat) returns (round: seq<V>)
    requires IsCycle(arcs, p) && k < |p| - 1
    ensures IsWalk(arcs, round) && |round| > 1
    ensures round[0] == p[k + 1] && round[|round| - 2] == p[k] && round[|round| - 1] == p[k + 1]
  {
    SubWalk(arcs, p, k + 1, |p|);
    SubWalk(arcs, p, 0, k + 2);
    var tail, head := p[k + 1..], p[0..k + 2];
    SubWalk(arcs, head, 1, |head|);
    assert (head[0], head[1]) in arcs;
    JoinWalks(arcs, tail, head[1..]);
    round := tail + head[1..];
    if k > 0 {
      assert round[|round| - 2] == head[k];
    }
  }

  /** A cycle that appears with a new arc runs through it, so its head reached its tail before. */
  lemma NewCycleUsesArc<V(!new)>(arcs: set<(V, V)>, a: V, b: V, p: seq<V>)
    requires IsCycle(arcs + {(a, b)}, p)
    ensures IsCycle(arcs, p) || Reaches(arcs, b, a)
  {
    if k :| 0 <= k < |p| - 1 && p[k] == a && p[k + 1] == b {
      var round := Rotate(arcs + {(a, b)}, p, k);
      var j := FirstUse(arcs, round, a, b, |round| - 2);
      assert Joins(arcs, round[..j + 1], b, a);
    } else {
      UnusedArc(arcs, p, a, b);
    }
  }

  /** Adding an arc closes a cycle only if its head already reached its tail. */
  lemma AddArc<V(!new)>(arcs: set<(V, V)>, a: V, b: V)
    requires Acyclic(arcs) && !Reaches(arcs, b, a)
    ensures Acyclic(arcs + {(a, b)})
  {
    forall p: seq<V> ensures !IsCycle(arcs + {(a, b)}, p) {
      if IsCycle(arcs + {(a, b)}, p) {
        NewCycleUsesArc(arcs, a, b, p);
      }
    }
  }

  lemma FewerArcs<V(!new)>(arcs: set<(V, V)>, fewer: set<(V, V)>)
    requires Acyclic(arcs) && fewer <= arcs
    ensures Acyclic(fewer)
  {
    forall p: seq<V> ensures !IsCycle(fewer, p) {
      if IsCycle(fewer, p) {
        assert IsCycle(arcs, p);
      }
    }
  }
}
