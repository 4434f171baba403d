/**
 * The stack loop that the workflow validator runs twice: once over the outgoing edges of the
 * trigger, once over the incoming edges of a node.
 */
module Reachability {

  function Next<T(==)>(adj: map<T, seq<T>>, x: T): seq<T> {
    if x in adj then adj[x] else []
  }

  ghost predicate Walk<T>(adj: map<T, seq<T>>, p: seq<T>) {
    p != [] && forall i | 0 <= i < |p| - 1 :: p[i + 1] in Next(adj, p[i])
  }

  /** b is reached from a over zero or more steps. */
  ghost predicate Reaches<T(!new)>(adj: map<T, seq<T>>, a: T, b: T) {
    exists p :: Walk(adj, p) && p[0] == a && p[|p| - 1] == b
  }

  /** b is reached from some element of starts. */
  ghost predicate ReachedFrom<T(!new)>(adj: map<T, seq<T>>, starts: seq<T>, b: T) {
    exists a :: a in starts && Reaches(adj, a, b)
  }

  lemma ReachesSelf<T(!new)>(adj: map<T, seq<T>>, a: T)
    ensures Reaches(adj, a, a)
  {
    assert Walk(adj, [a]);
  }

  lemma ReachesStep<T(!new)>(adj: map<T, seq<T>>, a: T, b: T, c: T)
    requires Reaches(adj, a, b) && c in Next(adj, b)
    ensures Reaches(adj, a, c)
  {
    var p :| Walk(adj, p) && p[0] == a && p[|p| - 1] == b;
    var q := p + [c];
    forall i | 0 <= i < |q| - 1 ensures q[i + 1] in Next(adj, q[i]) {
      if i < |p| - 1 { assert q[i + 1] == p[i + 1]; }
    }
    assert Walk(adj, q);
  }

  ghost predicate Closed<T(!new)>(adj: map<T, seq<T>>, s: set<T>) {
    forall x, y | x in s && y in Next(adj, x) :: y in s
  }

  lemma {:induction false} ClosedHoldsWalk<T(!new)>(adj: map<T, seq<T>>, s: set<T>, p: seq<T>)
    requires Closed(adj, s) && Walk(adj, p) && p[0] in s
    ensures p[|p| - 1] in s
    decreases |p|
  {
    if |p| > 1 {
      assert p[1] in Next(adj, p[0]);
      forall i | 0 <= i < |p[1..]| - 1 ensures p[1..][i + 1] in Next(adj, p[1..][i]) {
        assert p[i + 2] in Next(adj, p[i + 1]);
      }
      ClosedHoldsWalk(adj, s, p[1..]);
    }
  }

  lemma ClosedHoldsReached<T(!new)>(adj: map<T, seq<T>>, s: set<T>, a: T, b: T)
    requires Closed(adj, s) && a in s && Reaches(adj, a, b)
    ensures b in s
  {
    var p :| Walk(adj, p) && p[0] == a && p[|p| - 1] == b;
    ClosedHoldsWalk(adj, s, p);
  }

  /** Everything pending or seen is reached, and nothing reached can hide outside the two. */
  ghost predicate Frontier<T(!new)>(adj: map<T, seq<T>>, starts: seq<T>, seen: set<T>, stack: seq<T>) {
    && (forall x | x in stack :: ReachedFrom(adj, starts, x))
    && (forall x | x in seen :: ReachedFrom(adj, starts, x))
    && (forall x | x in starts :: x in seen || x in stack)
    && (forall x, y | x in seen && y in Next(adj, x) :: y in seen || y in stack)
  }

  lemma FrontierStart<T(!new)>(adj: map<T, seq<T>>, starts: seq<T>)
    ensures Frontier(adj, starts, {}, starts)
  {
    forall x | x in starts ensures ReachedFrom(adj, starts, x) {
      ReachesSelf(adj, x);
    }
  }

  lemma FrontierVisit<T(!new)>(adj: map<T, seq<T>>, starts: seq<T>, seen: set<T>, rest: seq<T>, cur: T)
    requires Frontier(adj, starts, seen, rest + [cur])
    ensures Frontier(adj, starts, seen + {cur}, rest + Next(adj, cur))
  {
    assert cur in rest + [cur];
    var a :| a in starts && Reaches(adj, a, cur);
    forall y | y in Next(adj, cur) ensures ReachedFrom(adj, starts, y) {
      ReachesStep(adj, a, cur, y);
    }
    forall x | x in rest ensures ReachedFrom(adj, starts, x) {
      assert x in rest + [cur];
    }
    forall x, y | x in seen + {cur} && y in Next(adj, x)
      ensures y in seen + {cur} || y in rest + Next(adj, cur)
    {
      if x in seen { assert y in seen || y in rest + [cur]; }
    }
  }

  lemma FrontierSkip<T(!new)>(adj: map<T, seq<T>>, starts: seq<T>, seen: set<T>, rest: seq<T>, cur: T)
    requires Frontier(adj, starts, seen, rest + [cur]) && cur in seen
    ensures Frontier(adj, starts, seen, rest)
  {
    forall x | x in rest ensures ReachedFrom(adj, starts, x) {
      assert x in rest + [cur];
    }
    forall x, y | x in seen && y in Next(adj, x) ensures y in seen || y in rest {
      assert y in seen || y in rest + [cur];
    }
    forall x | x in starts ensures x in seen || x in rest {
      assert x in seen || x in rest + [cur];
    }
  }

  lemma FrontierDone<T(!new)>(adj: map<T, seq<T>>, starts: seq<T>, seen: set<T>)
    requires Frontier(adj, starts, seen, [])
    ensures forall x :: x in seen <==> ReachedFrom(adj, starts, x)
  {
    hide Reaches, Next;
    assert Closed(adj, seen);
    forall x | ReachedFrom(adj, starts, x) ensures x in seen {
      var a :| a in starts && Reaches(adj, a, x);
      ClosedHoldsReached(adj, seen, a, x);
    }
  }

  ghost function Universe<T(!new)>(adj: map<T, seq<T>>, starts: seq<T>): (all: set<T>)
    ensures Within(starts, all)
    ensures forall x :: Within(Next(adj, x), all)
  {
    var all := (set x | x in starts) + (set k, x | k in adj && x in adj[k] :: x);
    assert forall k, x | k in adj && x in adj[k] :: x in all;
    all
  }

  ghost predicate Within<T>(s: seq<T>, all: set<T>) {
    forall i | 0 <= i < |s| :: s[i] in all
  }

  /** Depth-first search with an explicit stack; cycles are harmless because a seen node is skipped. */
  method Search<T(==, !new)>(adj: map<T, seq<T>>, starts: seq<T>) returns (seen: set<T>)
    ensures forall x :: x in seen <==> ReachedFrom(adj, starts, x)
  {
    hide Frontier, Next, Reaches, ReachedFrom, Walk;
    ghost var all := Universe(adj, starts);
    seen := {};
    var stack := starts;
    FrontierStart(adj, starts);
    while stack != []
      invariant Frontier(adj, starts, seen, stack)
      invariant Within(stack, all)
      decreases all - seen, |stack|
    {
      var cur := stack[|stack| - 1];
      var rest := stack[..|stack| - 1];
      assert stack == rest + [cur];
      assert cur in all && Within(rest, all);
      if cur !in seen {
        FrontierVisit(adj, starts, seen, rest, cur);
        assert cur in all - seen && cur !in all - (seen + {cur});
        seen := seen + {cur};
        stack := rest + Next(adj, cur);
      } else {
        FrontierSkip(adj, starts, seen, rest, cur);
        stack := rest;
      }
    }
    FrontierDone(adj, starts, seen);
  }
}
