/** Distance and reachability in a finite graph given by its successor sets. */
module Reach {
  type Adjacency<!T(==)> = map<T, set<T>>

  function Next<T>(adj: Adjacency<T>, n: T): set<T> {
    if n in adj then adj[n] else {}
  }

  function NextAll<T>(adj: Adjacency<T>, ns: set<T>): set<T> {
    set n, m | n in ns && m in Next(adj, n) :: m
  }

  /** The nodes within `k` hops of `s`. */
  function Ball<T>(adj: Adjacency<T>, s: T, k: nat): set<T> {
    if k == 0 then {s} else Ball(adj, s, k - 1) + NextAll(adj, Ball(adj, s, k - 1))
  }

  lemma {:induction false} BallGrows<T>(adj: Adjacency<T>, s: T, j: nat, k: nat)
    requires j <= k
    ensures Ball(adj, s, j) <= Ball(adj, s, k)
    decreases k
  {
    if j < k {
      BallGrows(adj, s, j, k - 1);
    }
  }

  /** Once a ball stops growing it never grows again. */
  lemma {:induction false} BallStable<T>(adj: Adjacency<T>, s: T, j: nat, k: nat)
    requires j <= k && Ball(adj, s, j + 1) == Ball(adj, s, j)
    ensures Ball(adj, s, k) == Ball(adj, s, j)
    decreases k
  {
    if j < k {
      BallStable(adj, s, j, k - 1);
    }
  }

  /** The node from which a ball node was reached: itself if it was there a hop earlier. */
  lemma LastHop<T>(adj: Adjacency<T>, s: T, x: T, k: nat) returns (y: T)
    requires k > 0 && x in Ball(adj, s, k)
    ensures y in Ball(adj, s, k - 1) && (y == x || x in Next(adj, y))
  {
    if x in Ball(adj, s, k - 1) {
      y := x;
    } else {
      y :| y in Ball(adj, s, k - 1) && x in Next(adj, y);
    }
  }

  // ----- Walks ---------------------------------------------------------------------------------

  predicate IsWalk<T>(adj: Adjacency<T>, p: seq<T>, s: T, t: T) {
    && p != [] && p[0] == s && p[|p| - 1] == t
    && forall i | 0 <= i < |p| - 1 :: p[i + 1] in Next(adj, p[i])
  }

  predicate Simple<T(==)>(p: seq<T>) {
    forall i, j | 0 <= i < j < |p| :: p[i] != p[j]
  }

  lemma {:induction false} WalkStaysInBall<T>(adj: Adjacency<T>, p: seq<T>, s: T, t: T, k: nat)
    requires IsWalk(adj, p, s, t) && |p| - 1 <= k
    ensures t in Ball(adj, s, k)
    decreases |p|
  {
    if |p| == 1 {
      BallGrows(adj, s, 0, k);
    } else {
      var init := p[..|p| - 1];
      WalkStaysInBall(adj, init, s, init[|init| - 1], |init| - 1);
      assert t in Next(adj, init[|init| - 1]);
      assert t in Ball(adj, s, |init|);
      BallGrows(adj, s, |init|, k);
    }
  }

  /** At distance exactly `k`. */
  predicate AtDistance<T>(adj: Adjacency<T>, s: T, t: T, k: nat) {
    t in Ball(adj, s, k) && (k > 0 ==> t !in Ball(adj, s, k - 1))
  }

  lemma {:induction false} HasDistance<T>(adj: Adjacency<T>, s: T, t: T, k: nat)
    requires t in Ball(adj, s, k)
    ensures exists d :: 0 <= d <= k && AtDistance(adj, s, t, d)
  {
    if k == 0 || t !in Ball(adj, s, k - 1) {
      assert AtDistance(adj, s, t, k);
    } else {
      HasDistance(adj, s, t, k - 1);
    }
  }

  /** A walk that is one node farther out at each hop. */
  lemma {:induction false} OutwardWalk<T>(adj: Adjacency<T>, s: T, t: T, k: nat) returns (p: seq<T>)
    requires AtDistance(adj, s, t, k)
    ensures IsWalk(adj, p, s, t) && |p| == k + 1 && forall i | 0 <= i <= k :: AtDistance(adj, s, p[i], i)
    decreases k
  {
    if k == 0 {
      p := [s];
    } else {
      var m :| m in Ball(adj, s, k - 1) && t in Next(adj, m);
      if k > 1 {
        assert t !in NextAll(adj, Ball(adj, s, k - 2));
      }
      var q := OutwardWalk(adj, s, m, k - 1);
      p := q + [t];
      assert AtDistance(adj, s, p[k], k);
    }
  }

  lemma OutwardIsSimple<T>(adj: Adjacency<T>, s: T, p: seq<T>)
    requires forall i | 0 <= i < |p| :: AtDistance(adj, s, p[i], i)
    ensures Simple(p)
  {
    forall i, j | 0 <= i < j < |p| ensures p[i] != p[j] {
      assert AtDistance(adj, s, p[i], i) && AtDistance(adj, s, p[j], j);
      BallGrows(adj, s, i, j - 1);
    }
  }

  /** Being within `k` hops is having a walk of at most `k` hops, and then a simple one. */
  lemma BallIsWalks<T>(adj: Adjacency<T>, s: T, t: T, k: nat)
    ensures t in Ball(adj, s, k) <==> exists p :: IsWalk(adj, p, s, t) && |p| - 1 <= k
    ensures t in Ball(adj, s, k) <==> exists p :: IsWalk(adj, p, s, t) && Simple(p) && |p| - 1 <= k
  {
    if t in Ball(adj, s, k) {
      HasDistance(adj, s, t, k);
      var d :| 0 <= d <= k && AtDistance(adj, s, t, d);
      var p := OutwardWalk(adj, s, t, d);
      OutwardIsSimple(adj, s, p);
    }
    if p :| IsWalk(adj, p, s, t) && |p| - 1 <= k {
      WalkStaysInBall(adj, p, s, t, k);
    }
  }

  // ----- Reachability --------------------------------------------------------------------------

  ghost predicate Reaches<T(!new)>(adj: Adjacency<T>, s: T, t: T) {
    exists k: nat :: t in Ball(adj, s, k)
  }

  lemma ReachesSelf<T(!new)>(adj: Adjacency<T>, s: T)
    ensures Reaches(adj, s, s)
  {
    assert s in Ball(adj, s, 0);
  }

  lemma ReachesNext<T(!new)>(adj: Adjacency<T>, s: T, m: T, t: T)
    requires Reaches(adj, s, m) && t in Next(adj, m)
    ensures Reaches(adj, s, t)
  {
    var k: nat :| m in Ball(adj, s, k);
    assert t in Ball(adj, s, k + 1);
  }

  /** A set that is closed under successors holds whatever its members reach. */
  lemma {:induction false} ClosedHoldsBall<T>(adj: Adjacency<T>, ns: set<T>, s: T, k: nat)
    requires s in ns && forall n | n in ns :: Next(adj, n) <= ns
    ensures Ball(adj, s, k) <= ns
  {
    if k > 0 {
      ClosedHoldsBall(adj, ns, s, k - 1);
    }
  }
}
