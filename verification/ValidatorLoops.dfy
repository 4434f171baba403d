/**
 * The validator as the program runs it: loops over nodes, edges and strings, proved against the
 * streams of findings.
 */
module ValidatorLoops {
  import opened Wrappers
  import opened Text
  import opened Json
  import opened Workflow
  import opened Reachability
  import opened Flow
  import opened ConfigStrings
  import opened Collector
  import opened Validator

  lemma {:induction false} NodeAtSnoc(nodes: seq<Node>, n: Node, id: Json)
    ensures NodeAt(nodes + [n], id) ==
      if HasNode(nodes, id) then NodeAt(nodes, id) else if n.id == id then Some(n) else None
  {
    if nodes == [] {
      assert nodes + [n] == [n];
    } else {
      assert (nodes + [n])[1..] == nodes[1..] + [n];
      NodeAtSnoc(nodes[1..], n, id);
    }
  }

  lemma SidsSnoc(nodes: seq<Node>, n: Node)
    ensures SidsOf(nodes + [n]) == SidsOf(nodes) + if IsSid(n.id) then {n.id} else {}
  {
    forall id ensures id in SidsOf(nodes + [n]) <==> id in SidsOf(nodes) || (IsSid(n.id) && id == n.id) {
      NodeAtSnoc(nodes, n, id);
    }
  }

  /** What the pass says about one node. */
  method CheckNode(cat: Catalog, ghost before: seq<Node>, seen: set<Json>, idx: nat, n: Node) returns (own: seq<Error>)
    requires seen == SidsOf(before) && idx == |before|
    ensures own == NodeFindings(cat, before, n)
  {
    if !IsSid(n.id) {
      return [Finding(EDGE_INVALID, [Str("no id"), Int(idx + 1)], Null, None)];
    }
    own := [];
    if n.id in seen {
      own := [Finding(EDGE_INVALID, [Str("id repeated"), Shown(n.id)], n.id, None)];
    }
    if !IsSid(n.typ) {
      return own + [Finding(EDGE_INVALID, [Str("no type"), Shown(n.id)], n.id, None)];
    }
    if Upper(n.typ.s) == "TRIGGER" {
      return own + cat.cronErrors(n);
    }
    assert own + [] == own;
  }

  /** first: the first node with each usable id. */
  predicate FirstOf(nodes: seq<Node>, first: map<Json, Node>) {
    first.Keys == SidsOf(nodes) && forall id | id in first :: NodeAt(nodes, id) == Some(first[id])
  }

  lemma FirstOfMore(nodes: seq<Node>, n: Node, first: map<Json, Node>)
    requires FirstOf(nodes, first)
    ensures FirstOf(nodes + [n], if IsSid(n.id) && n.id !in first then first[n.id := n] else first)
  {
    SidsSnoc(nodes, n);
    hide NodeAt;
    forall id { NodeAtSnoc(nodes, n, id); }
  }

  /** The pass over the nodes of `_graph_errors`. */
  method CheckNodes(cat: Catalog, nodes: seq<Node>)
    returns (errors: seq<Error>, seen: set<Json>, triggers: seq<Node>, first: map<Json, Node>)
    ensures errors == NodesFindings(cat, nodes) && seen == SidsOf(nodes) && triggers == TriggersOf(nodes)
    ensures FirstOf(nodes, first)
  {
    hide SidsOf, NodeAt, NodeFindings, Upper, IsTrigger;
    errors, seen, triggers, first := [], {}, [], map[];
    assert SidsOf([]) == {};
    assert FirstOf([], first);
    hide FirstOf;
    for i := 0 to |nodes|
      invariant errors == NodesFindings(cat, nodes[..i])
      invariant seen == SidsOf(nodes[..i])
      invariant triggers == TriggersOf(nodes[..i])
      invariant FirstOf(nodes[..i], first)
    {
      var n := nodes[i];
      assert nodes[..i + 1] == nodes[..i] + [n];
      assert nodes[..i + 1][..i] == nodes[..i];
      SidsSnoc(nodes[..i], n);
      FirstOfMore(nodes[..i], n, first);
      var own := CheckNode(cat, nodes[..i], seen, i, n);
      errors := errors + own;
      if IsSid(n.id) {
        seen := seen + {n.id};
        if n.id !in first {
          first := first[n.id := n];
        }
      }
      assert FirstOf(nodes[..i + 1], first);
      assert triggers + [] == triggers;
      if IsTrigger(n) {
        triggers := triggers + [n];
      }
    }
    assert nodes[..|nodes|] == nodes;
  }

  /** `_graph_errors` */
  method GraphErrors(cat: Catalog, nodes: seq<Node>, edges: seq<Edge>) returns (errors: seq<Error>)
    ensures errors == GraphFindings(cat, nodes, edges)
  {
    hide NodesFindings, EdgesFindings, OrphanFindings, SidsOf, TriggersOf, NodeAt, Finding;
    if nodes == [] {
      return [Finding(TRIGGER_COUNT, [], Null, None)];
    }
    var nodeErrors, seen, triggers, first := CheckNodes(cat, nodes);
    errors := nodeErrors;
    assert errors + [] == errors;
    if |triggers| != 1 {
      errors := errors + [Finding(TRIGGER_COUNT, [Int(|triggers|)], Null, None)];
    }
    var trigger := if |triggers| == 1 then Some(triggers[0].id) else None;
    assert trigger == TheTrigger(nodes);
    var edgeErrors := CheckEdges(cat, nodes, seen, first, trigger, edges);
    errors := errors + edgeErrors;
    assert errors + [] == errors;
    if trigger.Some? {
      TriggerIsKnown(nodes);
      var orphans := CheckOrphans(nodes, edges, seen, trigger.value);
      errors := errors + orphans;
    }
  }

  lemma TriggerIsKnown(nodes: seq<Node>)
    requires |TriggersOf(nodes)| == 1
    ensures TriggersOf(nodes)[0].id in SidsOf(nodes)
  {
    TriggersCounted(nodes);
    var k: nat :| OnlyTrigger(nodes, k);
    assert nodes[k] in nodes;
  }

  /** The pass over the edges. */
  method CheckEdges(
    cat: Catalog, nodes: seq<Node>, seen: set<Json>, first: map<Json, Node>, trigger: Option<Json>, edges: seq<Edge>)
    returns (errors: seq<Error>)
    requires seen == SidsOf(nodes) && FirstOf(nodes, first)
    ensures errors == EdgesFindings(cat, nodes, trigger, edges)
  {
    hide SidsOf, NodeAt, BranchFindings;
    errors := [];
    for i := 0 to |edges|
      invariant errors == EdgesFindings(cat, nodes, trigger, edges[..i])
    {
      var e := edges[i];
      assert edges[..i + 1][..i] == edges[..i];
      var own := [];
      if !IsSid(e.source) || !IsSid(e.target) {
        own := [Finding(EDGE_INVALID, [Str("no end"), Int(i + 1)], Null, None)];
      } else if e.source !in seen || e.target !in seen {
        var missing := if e.source !in seen then e.source else e.target;
        own := [Finding(EDGE_INVALID, [Str("unknown end"), Shown(e.source), Shown(e.target), Shown(missing)],
          Null, None)];
      } else if Some(e.target) == trigger {
        own := [Finding(EDGE_INVALID, [Str("into trigger")], e.target, None)];
      }
      assert own + [] == own;
      if e.source in seen && e.target in seen {
        own := own + BranchFindings(cat, first[e.source], e);
      }
      errors := errors + own;
    }
    assert edges[..|edges|] == edges;
  }

  /** The search from the trigger and the pass that reports who was not met. */
  method CheckOrphans(nodes: seq<Node>, edges: seq<Edge>, seen: set<Json>, trigger: Json) returns (errors: seq<Error>)
    requires seen == SidsOf(nodes) && trigger in seen
    ensures errors == OrphanFindings(seen, edges, trigger, nodes)
  {
    hide SidsOf, Upstream, ReachedFrom;
    var adj := Adjacency(edges, seen);
    var reached := Search(adj, [trigger]);
    errors := [];
    for i := 0 to |nodes|
      invariant errors == OrphanFindings(seen, edges, trigger, nodes[..i])
    {
      var n := nodes[i];
      assert nodes[..i + 1][..i] == nodes[..i];
      ForwardReached(adj, edges, seen, trigger, n.id);
      assert errors + [] == errors;
      if IsSid(n.id) && n.id !in reached {
        errors := errors + [Finding(ORPHAN_NODE, [], n.id, None)];
      }
    }
    assert nodes[..|nodes|] == nodes;
  }

  /** `_ref_errors`: the ancestors are searched once, when the first reference asks for them. */
  method RefErrors(cat: Catalog, nodes: seq<Node>, edges: seq<Edge>, ids: set<Json>, byId: map<Json, Node>, n: Node)
    returns (errors: seq<Error>)
    requires Indexed(nodes, ids, byId) && (IsSid(n.id) ==> n.id in ids)
    ensures errors == RefFindings(cat, nodes, edges, n)
  {
    hide Leaves, LeafFindings, SidsOf, LastWith, Upstream;
    errors := [];
    if !IsSid(n.id) || !n.config.Obj? {
      return;
    }
    assert Clipped("config", MAX_LOC) == "config";
    var leaves := IterStrings(n.config, "config");
    var anc: Option<set<Json>> := None;
    for i := 0 to |leaves|
      invariant errors == LeavesFindings(cat, nodes, edges, n, leaves[..i])
      invariant Searched(ids, edges, n, anc)
    {
      assert leaves[..i + 1][..i] == leaves[..i];
      var more;
      more, anc := LeafErrors(cat, nodes, edges, ids, byId, n, leaves[i], anc);
      errors := errors + more;
    }
    assert leaves[..|leaves|] == leaves;
  }

  /** What `byId` and `ids` are to the reference checks. */
  predicate Indexed(nodes: seq<Node>, ids: set<Json>, byId: map<Json, Node>) {
    ids == SidsOf(nodes) && byId.Keys == ids && forall id | id in ids :: byId[id] == LastWith(nodes, id)
  }

  /** The ancestors, if they have been searched for. */
  ghost predicate Searched(ids: set<Json>, edges: seq<Edge>, n: Node, anc: Option<set<Json>>) {
    anc.Some? ==> forall a :: a in anc.value <==> Upstream(ids, edges, a, n.id)
  }

  method LeafErrors(
    cat: Catalog, nodes: seq<Node>, edges: seq<Edge>, ids: set<Json>, byId: map<Json, Node>, n: Node, leaf: Leaf,
    known: Option<set<Json>>)
    returns (errors: seq<Error>, anc: Option<set<Json>>)
    requires Indexed(nodes, ids, byId) && n.id in ids && Searched(ids, edges, n, known)
    ensures errors == LeafFindings(cat, nodes, edges, n, leaf) && Searched(ids, edges, n, anc)
  {
    hide Indexed, Searched, Bodies, BodyFindings, Unclosed, Contains, InUnused, FieldNamed;
    errors, anc := [], known;
    if !Contains(leaf.text, "{{") || InUnused(cat, n, leaf.loc) {
      return;
    }
    var field := FieldNamed(cat, n, leaf.loc);
    if Unclosed(leaf.text) {
      errors := [Finding(REF_FORMAT, [], n.id, field)];
    }
    ghost var head := errors;
    var bodies := Bodies(leaf.text, 0);
    for i := 0 to |bodies|
      invariant errors == head + BodiesFindings(cat, nodes, edges, n, field, bodies[..i])
      invariant Searched(ids, edges, n, anc)
    {
      assert bodies[..i + 1][..i] == bodies[..i];
      var more;
      more, anc := BodyErrors(cat, nodes, edges, ids, byId, n, field, bodies[i], anc);
      errors := errors + more;
    }
    assert bodies[..|bodies|] == bodies;
  }

  /** The chain of checks on one reference. */
  method BodyErrors(
    cat: Catalog, nodes: seq<Node>, edges: seq<Edge>, ids: set<Json>, byId: map<Json, Node>,
    n: Node, field: Option<string>,
    body: string, known: Option<set<Json>>)
    returns (errors: seq<Error>, anc: Option<set<Json>>)
    requires Indexed(nodes, ids, byId) && n.id in ids && Searched(ids, edges, n, known)
    ensures errors == BodyFindings(cat, nodes, edges, n, field, body) && Searched(ids, edges, n, anc)
  {
    hide SidsOf, LastWith, Upstream, ParseRef, DeclaredOutputs, UpToDot, Clip;
    anc := known;
    var r := ParseRef(body);
    if r.None? {
      return [Finding(REF_FORMAT, [Str(Clip(body))], n.id, field)], anc;
    }
    var target, path := Str(r.value.target), r.value.path;
    if target !in ids {
      return [Finding(REF_UNKNOWN_NODE, [Str(Clip(r.value.target))], n.id, field)], anc;
    }
    if target == n.id {
      return [Finding(REF_SELF, [], n.id, field)], anc;
    }
    if anc.None? {
      var found := Ancestors(edges, ids, n.id);
      anc := Some(found);
    }
    if target !in anc.value {
      return [Finding(REF_NOT_UPSTREAM, [Str(Clip(r.value.target))], n.id, field)], anc;
    }
    if !OutputKnown(cat, byId[target], path) {
      return [Finding(REF_UNKNOWN_FIELD, [Str(Clip(r.value.target)), Str(Clip(path[..UpToDot(path)]))],
        n.id, field)], anc;
    }
    return [], anc;
  }

  /** {id: node}, a later node replacing an earlier one. */
  method ById(nodes: seq<Node>) returns (byId: map<Json, Node>)
    ensures Indexed(nodes, byId.Keys, byId)
  {
    hide SidsOf;
    byId := map[];
    assert SidsOf([]) == {};
    for i := 0 to |nodes|
      invariant byId.Keys == SidsOf(nodes[..i])
      invariant forall id | id in byId :: byId[id] == LastWith(nodes[..i], id)
    {
      var n := nodes[i];
      assert nodes[..i + 1] == nodes[..i] + [n] && nodes[..i + 1][..i] == nodes[..i];
      SidsSnoc(nodes[..i], n);
      if IsSid(n.id) {
        byId := byId[n.id := n];
      }
    }
    assert nodes[..|nodes|] == nodes;
  }

  /** `validate_workflow` */
  method ValidateWorkflow(cat: Catalog, rawNodes: seq<Option<Node>>, rawEdges: seq<Option<Edge>>)
    returns (errors: seq<Error>)
    ensures errors == Validate(cat, rawNodes, rawEdges)
  {
    hide SidsOf, LastWith, GraphFindings, RefFindings, Kept, Collected;
    if |rawNodes| > MAX_NODES || |rawEdges| > MAX_EDGES {
      return [Finding(TOO_LARGE, [Int(|rawNodes|), Int(|rawEdges|)], Null, None)];
    }
    var nodes, edges := Objects(rawNodes), Objects(rawEdges);
    var found := GraphErrors(cat, nodes, edges);
    var byId := ById(nodes);
    ghost var graph := found;
    for i := 0 to |nodes|
      invariant found == graph + Later(cat, nodes, edges, i)
    {
      assert nodes[i] in nodes;
      var refs := RefErrors(cat, nodes, edges, byId.Keys, byId, nodes[i]);
      found := found + cat.fieldErrors(nodes[i]) + refs;
    }
    errors := Collect(cat.size, found);
  }
}
