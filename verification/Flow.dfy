/**
 * Which nodes lie upstream of a node. The validator and the builder each compute this with a
 * stack loop of their own; both are proved against one definition over forward paths.
 */
module Flow {
  import opened Json
  import opened Workflow
  import opened Reachability

  ghost predicate Linked(edges: seq<Edge>, a: Json, b: Json) {
    exists e :: e in edges && e.source == a && e.target == b
  }

  /** A path of at least one edge over known nodes. */
  ghost predicate FlowPath(ids: set<Json>, edges: seq<Edge>, p: seq<Json>) {
    && |p| >= 2
    && (forall i | 0 <= i < |p| :: p[i] in ids)
    && (forall i | 0 <= i < |p| - 1 :: Linked(edges, p[i], p[i + 1]))
  }

  ghost predicate Upstream(ids: set<Json>, edges: seq<Edge>, a: Json, n: Json) {
    exists p :: FlowPath(ids, edges, p) && p[0] == a && p[|p| - 1] == n
  }

  function IdsOf(nodes: seq<Node>): (ids: set<Json>)
    ensures forall id :: id in ids <==> HasNode(nodes, id)
  {
    if nodes == [] then {} else {nodes[0].id} + IdsOf(nodes[1..])
  }

  // ----- the incoming edges as an adjacency map

  function SourcesOf(edges: seq<Edge>, ids: set<Json>, t: Json): seq<Json> {
    if edges == [] then []
    else
      var e := edges[|edges| - 1];
      SourcesOf(edges[..|edges| - 1], ids, t) + if e.target == t && e.source in ids then [e.source] else []
  }

  lemma {:induction false} SourcesLinked(edges: seq<Edge>, ids: set<Json>, t: Json, a: Json)
    ensures a in SourcesOf(edges, ids, t) <==> a in ids && Linked(edges, a, t)
  {
    if edges != [] {
      var init, e := edges[..|edges| - 1], edges[|edges| - 1];
      assert edges == init + [e];
      SourcesLinked(init, ids, t, a);
      if Linked(edges, a, t) {
        var d :| d in edges && d.source == a && d.target == t;
        assert d in init || d == e;
      }
      if Linked(init, a, t) {
        var d :| d in init && d.source == a && d.target == t;
        assert d in edges;
      }
      assert e in edges;
    }
  }

  function PredMap(edges: seq<Edge>, ids: set<Json>): map<Json, seq<Json>> {
    map t | t in ids :: SourcesOf(edges, ids, t)
  }

  lemma PredMapSnoc(edges: seq<Edge>, ids: set<Json>, e: Edge)
    ensures PredMap(edges, ids).Keys == ids
    ensures var preds := PredMap(edges, ids);
      PredMap(edges + [e], ids) ==
        if e.target in ids && e.source in ids then preds[e.target := preds[e.target] + [e.source]] else preds
  {
    var preds, more := PredMap(edges, ids), PredMap(edges + [e], ids);
    assert (edges + [e])[..|edges|] == edges;
    forall t | t in ids
      ensures more[t] == if e.target == t && e.source in ids then preds[t] + [e.source] else preds[t]
    {
      assert preds[t] + [] == preds[t];
    }
  }

  function Reversed(p: seq<Json>): (r: seq<Json>)
    ensures |r| == |p|
    ensures forall i | 0 <= i < |p| :: r[i] == p[|p| - 1 - i]
  {
    seq(|p|, i requires 0 <= i < |p| => p[|p| - 1 - i])
  }

  /** Searching backwards from n's predecessors meets exactly the nodes upstream of n. */
  lemma UpstreamIsReached(ids: set<Json>, edges: seq<Edge>, a: Json, n: Json)
    requires n in ids
    ensures ReachedFrom(PredMap(edges, ids), SourcesOf(edges, ids, n), a) <==> Upstream(ids, edges, a, n)
  {
    var preds := PredMap(edges, ids);
    var starts := SourcesOf(edges, ids, n);
    if ReachedFrom(preds, starts, a) {
      var s :| s in starts && Reaches(preds, s, a);
      var q :| Walk(preds, q) && q[0] == s && q[|q| - 1] == a;
      ReversedWalkIsPath(ids, edges, q, n);
    }
    if Upstream(ids, edges, a, n) {
      var p :| FlowPath(ids, edges, p) && p[0] == a && p[|p| - 1] == n;
      ReversedPathIsWalk(ids, edges, p);
      var q := Reversed(p[..|p| - 1]);
      assert Linked(edges, p[|p| - 2], p[|p| - 1]);
      SourcesLinked(edges, ids, n, p[|p| - 2]);
      assert q[0] == p[|p| - 2] && q[|q| - 1] == a;
      assert Reaches(preds, q[0], a);
    }
  }

  lemma ReversedWalkIsPath(ids: set<Json>, edges: seq<Edge>, q: seq<Json>, n: Json)
    requires n in ids && Walk(PredMap(edges, ids), q) && q[0] in SourcesOf(edges, ids, n)
    ensures FlowPath(ids, edges, Reversed(q) + [n])
  {
    var p := Reversed(q) + [n];
    SourcesLinked(edges, ids, n, q[0]);
    hide PredMap, SourcesOf, Linked, Walk;
    forall i | 0 <= i < |q| ensures q[i] in ids {
      if i > 0 { WalkStep(ids, edges, q, i - 1); }
    }
    forall i | 0 <= i < |p| - 1 ensures Linked(edges, p[i], p[i + 1]) {
      if i < |p| - 2 {
        var k := |q| - 2 - i;
        WalkStep(ids, edges, q, k);
        assert p[i] == q[k + 1] && p[i + 1] == q[k];
      }
    }
  }

  /** A step of a backward walk is an edge between known nodes. */
  lemma WalkStep(ids: set<Json>, edges: seq<Edge>, q: seq<Json>, k: nat)
    requires Walk(PredMap(edges, ids), q) && k + 1 < |q|
    ensures q[k + 1] in ids && Linked(edges, q[k + 1], q[k])
  {
    assert q[k + 1] in Next(PredMap(edges, ids), q[k]);
    SourcesLinked(edges, ids, q[k], q[k + 1]);
  }

  lemma ReversedPathIsWalk(ids: set<Json>, edges: seq<Edge>, p: seq<Json>)
    requires FlowPath(ids, edges, p)
    ensures Walk(PredMap(edges, ids), Reversed(p[..|p| - 1]))
  {
    var q := Reversed(p[..|p| - 1]);
    forall i | 0 <= i < |q| - 1 ensures q[i + 1] in Next(PredMap(edges, ids), q[i]) {
      var k := |p| - 3 - i;
      assert q[i + 1] == p[k] && q[i] == p[k + 1];
      SourcesLinked(edges, ids, p[k + 1], p[k]);
      assert Linked(edges, p[k], p[k + 1]);
    }
  }

  // ----- the validator's loops

  /** `_predecessors`: one pass over the edges, an edge between known nodes is filed under its target. */
  method Predecessors(edges: seq<Edge>, ids: set<Json>) returns (preds: map<Json, seq<Json>>)
    ensures preds == PredMap(edges, ids)
  {
    preds := map t | t in ids :: [];
    assert preds == PredMap(edges[..0], ids);
    hide PredMap, SourcesOf;
    for i := 0 to |edges|
      invariant preds == PredMap(edges[..i], ids)
    {
      var e := edges[i];
      assert edges[..i + 1] == edges[..i] + [e];
      PredMapSnoc(edges[..i], ids, e);
      if e.target in preds && e.source in ids {
        preds := preds[e.target := preds[e.target] + [e.source]];
      }
    }
    assert edges[..|edges|] == edges;
  }

  /** `_ancestors` of the validator. */
  method Ancestors(edges: seq<Edge>, ids: set<Json>, n: Json) returns (found: set<Json>)
    requires n in ids
    ensures forall a :: a in found <==> Upstream(ids, edges, a, n)
  {
    var preds := Predecessors(edges, ids);
    found := Search(preds, preds[n]);
    forall a ensures a in found <==> Upstream(ids, edges, a, n) {
      UpstreamIsReached(ids, edges, a, n);
    }
  }

  // ----- the validator's forward search

  function TargetsOf(edges: seq<Edge>, ids: set<Json>, s: Json): seq<Json> {
    if edges == [] then []
    else
      var e := edges[|edges| - 1];
      TargetsOf(edges[..|edges| - 1], ids, s) + if e.source == s && e.target in ids then [e.target] else []
  }

  lemma {:induction false} TargetsLinked(edges: seq<Edge>, ids: set<Json>, s: Json, b: Json)
    ensures b in TargetsOf(edges, ids, s) <==> b in ids && Linked(edges, s, b)
  {
    if edges != [] {
      var init, e := edges[..|edges| - 1], edges[|edges| - 1];
      assert edges == init + [e];
      TargetsLinked(init, ids, s, b);
      if Linked(edges, s, b) {
        var d :| d in edges && d.source == s && d.target == b;
        assert d in init || d == e;
      }
      if Linked(init, s, b) {
        var d :| d in init && d.source == s && d.target == b;
        assert d in edges;
      }
      assert e in edges;
    }
  }

  /** adj files every edge between known nodes under its source. */
  ghost predicate Forward(adj: map<Json, seq<Json>>, edges: seq<Edge>, ids: set<Json>) {
    forall s :: Next(adj, s) == if s in ids then TargetsOf(edges, ids, s) else []
  }

  lemma TargetsSnoc(edges: seq<Edge>, ids: set<Json>, s: Json, e: Edge)
    ensures TargetsOf(edges + [e], ids, s) ==
      TargetsOf(edges, ids, s) + if e.source == s && e.target in ids then [e.target] else []
  {
    assert (edges + [e])[..|edges|] == edges;
  }

  lemma ForwardMore(adj: map<Json, seq<Json>>, edges: seq<Edge>, ids: set<Json>, e: Edge)
    requires Forward(adj, edges, ids) && e.source in ids && e.target in ids
    ensures Forward(adj[e.source := Next(adj, e.source) + [e.target]], edges + [e], ids)
  {
    hide TargetsOf;
    forall s { TargetsSnoc(edges, ids, s, e); }
  }

  lemma ForwardSame(adj: map<Json, seq<Json>>, edges: seq<Edge>, ids: set<Json>, e: Edge)
    requires Forward(adj, edges, ids) && !(e.source in ids && e.target in ids)
    ensures Forward(adj, edges + [e], ids)
  {
    hide TargetsOf;
    forall s { TargetsSnoc(edges, ids, s, e); }
  }

  lemma ForwardNone(ids: set<Json>)
    ensures Forward(map[], [], ids)
  {
  }

  method Adjacency(edges: seq<Edge>, ids: set<Json>) returns (adj: map<Json, seq<Json>>)
    ensures Forward(adj, edges, ids)
  {
    adj := map[];
    ForwardNone(ids);
    assert edges[..0] == [];
    hide Forward, TargetsOf;
    for i := 0 to |edges|
      invariant Forward(adj, edges[..i], ids)
    {
      var e := edges[i];
      if e.source in ids && e.target in ids {
        ForwardMore(adj, edges[..i], ids, e);
        adj := adj[e.source := Next(adj, e.source) + [e.target]];
      } else {
        ForwardSame(adj, edges[..i], ids, e);
      }
      assert edges[..i] + [e] == edges[..i + 1];
    }
    assert edges[..|edges|] == edges;
  }

  /** Searching forward from t meets t and exactly the nodes it is upstream of. */
  lemma ForwardReached(adj: map<Json, seq<Json>>, edges: seq<Edge>, ids: set<Json>, t: Json, x: Json)
    requires Forward(adj, edges, ids) && t in ids
    ensures ReachedFrom(adj, [t], x) <==> x == t || Upstream(ids, edges, t, x)
  {
    if ReachedFrom(adj, [t], x) && x != t {
      var q :| Walk(adj, q) && q[0] == t && q[|q| - 1] == x;
      forall i | 0 < i < |q| ensures q[i] in ids && Linked(edges, q[i - 1], q[i]) {
        assert q[i - 1 + 1] in Next(adj, q[i - 1]);
        TargetsLinked(edges, ids, q[i - 1], q[i]);
      }
      assert q[1] in ids;
      assert FlowPath(ids, edges, q);
    }
    if x == t { ReachesSelf(adj, t); assert t in [t]; }
    if Upstream(ids, edges, t, x) {
      var p :| FlowPath(ids, edges, p) && p[0] == t && p[|p| - 1] == x;
      forall i | 0 <= i < |p| - 1 ensures p[i + 1] in Next(adj, p[i]) {
        TargetsLinked(edges, ids, p[i], p[i + 1]);
      }
      assert Walk(adj, p);
      assert t in [t] && Reaches(adj, t, x);
    }
  }

  // ----- the builder's loop

  /** The sources of the edges into t, known or not. */
  function EdgesInto(edges: seq<Edge>, t: Json): seq<Json> {
    if edges == [] then []
    else
      var e := edges[|edges| - 1];
      EdgesInto(edges[..|edges| - 1], t) + if e.target == t then [e.source] else []
  }

  lemma {:induction false} KnownSources(edges: seq<Edge>, ids: set<Json>, t: Json, a: Json)
    ensures a in SourcesOf(edges, ids, t) <==> a in EdgesInto(edges, t) && a in ids
  {
    if edges != [] {
      KnownSources(edges[..|edges| - 1], ids, t, a);
    }
  }

  /** The builder's search also pops unknown sources; they lead nowhere and are left out of the result. */
  function IntoMap(edges: seq<Edge>, ids: set<Json>): map<Json, seq<Json>> {
    map t | t in ids :: EdgesInto(edges, t)
  }

  lemma SameReached(edges: seq<Edge>, ids: set<Json>, n: Json, a: Json)
    requires n in ids && a in ids
    ensures ReachedFrom(IntoMap(edges, ids), EdgesInto(edges, n), a) <==>
      ReachedFrom(PredMap(edges, ids), SourcesOf(edges, ids, n), a)
  {
    var into, preds := IntoMap(edges, ids), PredMap(edges, ids);
    if ReachedFrom(into, EdgesInto(edges, n), a) {
      var s :| s in EdgesInto(edges, n) && Reaches(into, s, a);
      var q :| Walk(into, q) && q[0] == s && q[|q| - 1] == a;
      forall i | 0 <= i < |q| ensures q[i] in ids {
        if i < |q| - 1 { assert q[i + 1] in Next(into, q[i]); }
      }
      forall i | 0 <= i < |q| - 1 ensures q[i + 1] in Next(preds, q[i]) {
        assert q[i + 1] in Next(into, q[i]);
        KnownSources(edges, ids, q[i], q[i + 1]);
      }
      assert Walk(preds, q);
      KnownSources(edges, ids, n, s);
      assert s in SourcesOf(edges, ids, n) && Reaches(preds, s, a);
    }
    if ReachedFrom(preds, SourcesOf(edges, ids, n), a) {
      var s :| s in SourcesOf(edges, ids, n) && Reaches(preds, s, a);
      var q :| Walk(preds, q) && q[0] == s && q[|q| - 1] == a;
      forall i | 0 <= i < |q| - 1 ensures q[i + 1] in Next(into, q[i]) {
        assert q[i + 1] in Next(preds, q[i]);
        KnownSources(edges, ids, q[i], q[i + 1]);
      }
      assert Walk(into, q);
      KnownSources(edges, ids, n, s);
      assert s in EdgesInto(edges, n) && Reaches(into, s, a);
    }
  }

  /** `_ancestors` of the builder: a list without repeats, in the order of discovery. */
  method BuilderAncestors(nodes: seq<Node>, edges: seq<Edge>, n: Json) returns (seen: seq<Json>)
    requires HasNode(nodes, n)
    ensures forall a :: a in seen <==> Upstream(IdsOf(nodes), edges, a, n)
    ensures forall i, j | 0 <= i < j < |seen| :: seen[i] != seen[j]
  {
    hide Frontier, Next, Reaches, ReachedFrom, Walk, IdsOf, EdgesInto, PredMap;
    ghost var ids := IdsOf(nodes);
    ghost var into := IntoMap(edges, ids);
    ghost var all := Universe(into, EdgesInto(edges, n));
    ghost var visited: set<Json> := {};
    seen := [];
    var stack := EdgesInto(edges, n);
    FrontierStart(into, stack);
    while stack != []
      invariant Frontier(into, EdgesInto(edges, n), visited, stack)
      invariant Within(stack, all)
      invariant forall a :: a in seen <==> a in visited && a in ids
      invariant forall i, j | 0 <= i < j < |seen| :: seen[i] != seen[j]
      decreases all - visited, |stack|
    {
      var cur := stack[|stack| - 1];
      var rest := stack[..|stack| - 1];
      assert stack == rest + [cur];
      assert cur in all && Within(rest, all);
      NextInto(edges, ids, cur);
      if cur !in seen && HasNode(nodes, cur) {
        FrontierVisit(into, EdgesInto(edges, n), visited, rest, cur);
        assert cur in all - visited && cur !in all - (visited + {cur});
        assert Within(Next(into, cur), all);
        visited := visited + {cur};
        seen := seen + [cur];
        stack := rest + EdgesInto(edges, cur);
      } else {
        if cur in visited {
          FrontierSkip(into, EdgesInto(edges, n), visited, rest, cur);
        } else {
          FrontierVisit(into, EdgesInto(edges, n), visited, rest, cur);
          assert rest + [] == rest;
          assert cur in all - visited && cur !in all - (visited + {cur});
          visited := visited + {cur};
        }
        stack := rest;
      }
    }
    FrontierDone(into, EdgesInto(edges, n), visited);
    forall a ensures a in seen <==> Upstream(ids, edges, a, n) {
      if a in ids {
        SameReached(edges, ids, n, a);
        UpstreamIsReached(ids, edges, a, n);
      }
    }
  }

  lemma NextInto(edges: seq<Edge>, ids: set<Json>, cur: Json)
    ensures Next(IntoMap(edges, ids), cur) == if cur in ids then EdgesInto(edges, cur) else []
  {
  }
}
