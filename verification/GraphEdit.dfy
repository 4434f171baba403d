/**
 * The tools that edit the graph of the working copy. Called one after another they keep a graph
 * in which the validator finds nothing wrong with any edge.
 */
module GraphEdit {
  import opened Wrappers
  import opened Text
  import opened Json
  import opened Workflow
  import opened BuilderSpec
  import Validator
  import ValidatorLoops
  import ValidatorLaws

  datatype Graph = Graph(nodes: seq<Node>, edges: seq<Edge>)

  /** An event the menu offers, with the config a new node starts from. */
  datatype MenuItem = MenuItem(event: string, nodeType: string, title: string, config: Json)

  datatype EditReply = Edited | Declined

  predicate Offered(rules: Rules, item: MenuItem) {
    rules.entry(item.event).Some? && rules.entry(item.event).value.nodeType == item.nodeType
  }

  /** By the catalog; an unknown event counts by the node's own type. */
  predicate ActsAsTrigger(rules: Rules, n: Node) {
    if n.event.Str? && rules.entry(n.event.s).Some? then rules.entry(n.event.s).value.nodeType == "TRIGGER"
    else n.typ.Str? && Upper(n.typ.s) == "TRIGGER"
  }

  /** `_branch_error`: out of a branch node one of its values, elsewhere none. */
  predicate BranchRefused(source: Node, branch: string) {
    if source.event == BRANCH_IF then branch !in AllowedBranches(source) else branch != ""
  }

  function NewEdge(source: Json, target: Json, branch: string): Edge {
    Edge(source, target, if branch == "" then Null else Str(branch))
  }

  function LabelOf(e: Edge): string {
    if e.branch.Str? then e.branch.s else ""
  }

  /** id: a name never used before. admitted: the app is connected and an AI node has a key. */
  function AddNode(
    rules: Rules, g: Graph, item: Option<MenuItem>, id: string, title: string,
    after: string, branch: string, admitted: bool)
    : (Graph, EditReply)
  {
    if item.None? || !Offered(rules, item.value) then (g, Declined)
    else if after != "" &&
      (!HasNode(g.nodes, Str(after)) || item.value.nodeType == "TRIGGER"
       || BranchRefused(NodeAt(g.nodes, Str(after)).value, branch))
    then (g, Declined)
    else if after == "" && branch != "" then (g, Declined)
    else if !admitted then (g, Declined)
    else
      var n := Node(Str(id), Str(item.value.nodeType), Str(item.value.event),
                    Str(if title != "" then title else item.value.title), item.value.config);
      (Graph(g.nodes + [n], if after == "" then g.edges else g.edges + [NewEdge(Str(after), Str(id), branch)]), Edited)
  }

  predicate HasEdge(edges: seq<Edge>, source: Json, target: Json, branch: string) {
    exists e :: e in edges && e.source == source && e.target == target && LabelOf(e) == branch
  }

  function Connect(rules: Rules, g: Graph, source: string, target: string, branch: string): (Graph, EditReply) {
    var src, dst := NodeAt(g.nodes, Str(source)), NodeAt(g.nodes, Str(target));
    if src.None? || dst.None? || source == target ||
      ActsAsTrigger(rules, dst.value) || BranchRefused(src.value, branch) then
      (g, Declined)
    else if HasEdge(g.edges, Str(source), Str(target), branch) then (g, Edited)
    else (g.(edges := g.edges + [NewEdge(Str(source), Str(target), branch)]), Edited)
  }

  function Without(nodes: seq<Node>, id: Json): (r: seq<Node>)
    ensures forall n :: n in r <==> n in nodes && n.id != id
  {
    if nodes == [] then []
    else (if nodes[0].id == id then [] else [nodes[0]]) + Without(nodes[1..], id)
  }

  function Detached(edges: seq<Edge>, id: Json): (r: seq<Edge>)
    ensures forall e :: e in r <==> e in edges && e.source != id && e.target != id
  {
    if edges == [] then []
    else (if edges[0].source == id || edges[0].target == id then [] else [edges[0]]) + Detached(edges[1..], id)
  }

  function RemoveNode(g: Graph, id: string): (Graph, EditReply) {
    if !HasNode(g.nodes, Str(id)) || |g.nodes| == 1 then (g, Declined)
    else (Graph(Without(g.nodes, Str(id)), Detached(g.edges, Str(id))), Edited)
  }

  /** The first node with the id is put in another shape. */
  function Replaced(nodes: seq<Node>, id: Json, n: Node): (r: seq<Node>)
    ensures |r| == |nodes|
  {
    if nodes == [] then []
    else if nodes[0].id == id then [n] + nodes[1..]
    else [nodes[0]] + Replaced(nodes[1..], id, n)
  }

  function Rename(g: Graph, id: string, title: string): (Graph, EditReply) {
    var n := NodeAt(g.nodes, Str(id));
    if n.None? || title == "" then (g, Declined)
    else (g.(nodes := Replaced(g.nodes, Str(id), n.value.(title := Str(title)))), Edited)
  }

  predicate StillAllowed(n: Node, e: Edge) {
    e.source != n.id || (e.branch.Str? && e.branch.s in AllowedBranches(n))
  }

  /** `_prune_branch_edges` */
  function Pruned(edges: seq<Edge>, n: Node): (r: seq<Edge>)
    ensures forall e :: e in r <==> e in edges && StillAllowed(n, e)
  {
    if edges == [] then []
    else (if StillAllowed(n, edges[0]) then [edges[0]] else []) + Pruned(edges[1..], n)
  }

  lemma PrunedNone(n: Node)
    ensures Pruned([], n) == []
  {
  }

  lemma {:induction false} PrunedSnoc(edges: seq<Edge>, e: Edge, n: Node)
    ensures Pruned(edges + [e], n) == Pruned(edges, n) + if StillAllowed(n, e) then [e] else []
  {
    hide StillAllowed;
    if edges == [] {
      assert edges + [e] == [e];
      PrunedNone(n);
    } else {
      assert (edges + [e])[1..] == edges[1..] + [e];
      PrunedSnoc(edges[1..], e, n);
    }
  }

  /** `set_fields`: whatever config the writes leave behind, edges it does not offer any more go. */
  function SetConfig(g: Graph, id: string, config: Json): (Graph, EditReply) {
    var n := NodeAt(g.nodes, Str(id));
    if n.None? then (g, Declined)
    else
      var m := n.value.(config := config);
      (Graph(Replaced(g.nodes, Str(id), m), if m.event == BRANCH_IF then Pruned(g.edges, m) else g.edges), Edited)
  }

  // ----- what each edit does

  /** A connection out of the node may carry the value: one it offers, or none where it is no branch node. */
  predicate Carries(source: Node, branch: string) {
    if source.event == Str("branch.if") then ValidatorLaws.Offers(source, branch) else branch == ""
  }

  lemma RefusedUnlessCarried(source: Node, branch: string)
    ensures BranchRefused(source, branch) <==> !Carries(source, branch)
  {
    ValidatorLaws.OffersAre(source, branch);
    hide AllowedBranches, ValidatorLaws.Offers;
  }

  /** A node counts as a trigger by its event if the catalog knows it, else by its own type in any case. */
  lemma TriggerIs(rules: Rules, n: Node)
    ensures ActsAsTrigger(rules, n) <==> match EntryOf(rules, n)
      case Some(entry) => entry.nodeType == "TRIGGER"
      case None => n.typ.Str? && Upper(n.typ.s) == "TRIGGER"
  {
  }

  function Link(source: string, target: string, branch: string): Edge {
    Edge(Str(source), Str(target), if branch == "" then Null else Str(branch))
  }

  /** What a new node behind another one needs: that node, no trigger, and a branch value it carries. */
  predicate Placed(g: Graph, item: MenuItem, after: string, branch: string) {
    if after == "" then branch == ""
    else item.nodeType != "TRIGGER" && match NodeAt(g.nodes, Str(after))
      case Some(source) => Carries(source, branch)
      case None => false
  }

  /** A node is added at the end as the menu has it, with its connection; or nothing happens. */
  lemma AddNodeDoes(
    rules: Rules, g: Graph, item: Option<MenuItem>, id: string, title: string,
    after: string, branch: string, admitted: bool)
    ensures var (g', reply) := AddNode(rules, g, item, id, title, after, branch, admitted);
      if item.Some? && Offered(rules, item.value) && admitted && Placed(g, item.value, after, branch) then
        var shown := if title == "" then item.value.title else title;
        && reply == Edited
        && g'.nodes ==
           g.nodes + [Node(Str(id), Str(item.value.nodeType), Str(item.value.event), Str(shown), item.value.config)]
        && g'.edges == (if after == "" then g.edges else g.edges + [Link(after, id, branch)])
      else reply == Declined && g' == g
  {
    var source := NodeAt(g.nodes, Str(after));
    if source.Some? { RefusedUnlessCarried(source.value, branch); }
    hide Carries, BranchRefused, Offered;
  }

  /**
   * Two nodes that are there are connected, once, unless they are one, the second is a trigger, or the
   * value does not fit.
   */
  lemma ConnectDoes(rules: Rules, g: Graph, source: string, target: string, branch: string)
    ensures var (g', reply) := Connect(rules, g, source, target, branch);
      var a, b := NodeAt(g.nodes, Str(source)), NodeAt(g.nodes, Str(target));
      if a.Some? && b.Some? && source != target && !ActsAsTrigger(rules, b.value) && Carries(a.value, branch) then
        && reply == Edited && g'.nodes == g.nodes
        && g'.edges ==
           (if Linked(g.edges, source, target, branch) then g.edges else g.edges + [Link(source, target, branch)])
      else reply == Declined && g' == g
  {
    var a := NodeAt(g.nodes, Str(source));
    if a.Some? { RefusedUnlessCarried(a.value, branch); }
    hide Carries, BranchRefused, ActsAsTrigger;
  }

  /** An edge between the two with this value; no value and an empty one are the same. */
  predicate Linked(edges: seq<Edge>, source: string, target: string, branch: string) {
    exists e :: e in edges && e.source == Str(source) && e.target == Str(target)
      && (e.branch == Str(branch) || (branch == "" && !e.branch.Str?))
  }

  /** The node goes with every edge at it, everything else stays in order; the last node stays. */
  lemma RemoveNodeDoes(g: Graph, id: string, n: Node, e: Edge)
    ensures var (g', reply) := RemoveNode(g, id);
      && (reply == Edited <==> |g.nodes| != 1 && exists m :: m in g.nodes && m.id == Str(id))
      && (reply == Declined ==> g' == g)
      && (reply == Edited ==>
          && (n in g'.nodes <==> n in g.nodes && n.id != Str(id))
          && (e in g'.edges <==> e in g.edges && e.source != Str(id) && e.target != Str(id)))
  {
    if HasNode(g.nodes, Str(id)) { assert NodeAt(g.nodes, Str(id)).value in g.nodes; }
    hide NodeAt;
  }

  lemma Joined<T>(x: seq<T>, y: seq<T>, z: seq<T>)
    ensures x + (y + z) == x + y + z
  {
  }

  lemma WithoutFirst(x: Node, rest: seq<Node>, id: Json)
    ensures Without([x] + rest, id) == (if x.id == id then [] else [x]) + Without(rest, id)
  {
    assert ([x] + rest)[1..] == rest;
  }

  /** Dropping nodes and edges keeps the order of the others: it can be done piece by piece. */
  lemma {:induction false} DroppingKeepsOrder(a: seq<Node>, b: seq<Node>, id: Json)
    ensures Without(a + b, id) == Without(a, id) + Without(b, id)
  {
    if a == [] {
      assert a + b == b && Without([], id) == [];
      hide Without;
    } else {
      hide Without;
      var rest, first := a[1..], if a[0].id == id then [] else [a[0]];
      assert a == [a[0]] + rest && a + b == [a[0]] + (rest + b);
      WithoutFirst(a[0], rest, id);
      WithoutFirst(a[0], rest + b, id);
      DroppingKeepsOrder(rest, b, id);
      Joined(first, Without(rest, id), Without(b, id));
    }
  }

  lemma DetachedFirst(x: Edge, rest: seq<Edge>, id: Json)
    ensures Detached([x] + rest, id) == (if x.source == id || x.target == id then [] else [x]) + Detached(rest, id)
  {
    assert ([x] + rest)[1..] == rest;
  }

  lemma {:induction false} DetachingKeepsOrder(a: seq<Edge>, b: seq<Edge>, id: Json)
    ensures Detached(a + b, id) == Detached(a, id) + Detached(b, id)
  {
    if a == [] {
      assert a + b == b && Detached([], id) == [];
      hide Detached;
    } else {
      hide Detached;
      var rest, first := a[1..], if a[0].source == id || a[0].target == id then [] else [a[0]];
      assert a == [a[0]] + rest && a + b == [a[0]] + (rest + b);
      DetachedFirst(a[0], rest, id);
      DetachedFirst(a[0], rest + b, id);
      DetachingKeepsOrder(rest, b, id);
      Joined(first, Detached(rest, id), Detached(b, id));
    }
  }

  lemma {:induction false} PruningKeepsOrder(a: seq<Edge>, b: seq<Edge>, n: Node)
    ensures Pruned(a + b, n) == Pruned(a, n) + Pruned(b, n)
  {
    hide StillAllowed;
    if a == [] {
      assert a + b == b;
    } else {
      var rest := a[1..];
      assert (a + b)[1..] == rest + b && (a + b)[0] == a[0];
      PruningKeepsOrder(rest, b, n);
      var first := if StillAllowed(n, a[0]) then [a[0]] else [];
      assert Pruned(a + b, n) == first + Pruned(rest + b, n) && Pruned(a, n) == first + Pruned(rest, n);
      hide Pruned;
    }
  }

  /** The first node with the id, and no other, is put in another shape. */
  predicate FirstBecomes(was: seq<Node>, id: Json, n: Node, now: seq<Node>, k: nat) {
    && k < |was| == |now| && was[k].id == id && now[k] == n
    && (forall i | 0 <= i < k :: was[i].id != id)
    && (forall i | 0 <= i < |was| && i != k :: now[i] == was[i])
  }

  lemma {:induction false} ReplacedIs(nodes: seq<Node>, id: Json, n: Node)
    requires HasNode(nodes, id)
    ensures exists k: nat ::
      FirstBecomes(nodes, id, n, Replaced(nodes, id, n), k) && NodeAt(nodes, id) == Some(nodes[k])
  {
    var rest, now := nodes[1..], Replaced(nodes, id, n);
    if nodes[0].id == id {
      assert FirstBecomes(nodes, id, n, now, 0);
    } else {
      ReplacedIs(rest, id, n);
      var k: nat :| FirstBecomes(rest, id, n, Replaced(rest, id, n), k) && NodeAt(rest, id) == Some(rest[k]);
      assert forall i | 0 < i < |nodes| :: nodes[i] == rest[i - 1] && now[i] == Replaced(rest, id, n)[i - 1];
      assert FirstBecomes(nodes, id, n, now, k + 1);
    }
  }

  /** The config of the node is replaced, and out of a branch node exactly the edges it still offers stay. */
  lemma SetConfigDoes(g: Graph, id: string, config: Json, e: Edge)
    ensures var (g', reply) := SetConfig(g, id, config);
      match NodeAt(g.nodes, Str(id))
      case None => reply == Declined && g' == g
      case Some(was) =>
        var now := was.(config := config);
        && reply == Edited
        && (exists k: nat :: FirstBecomes(g.nodes, Str(id), now, g'.nodes, k))
        && (was.event != Str("branch.if") ==> g'.edges == g.edges)
        && (was.event == Str("branch.if") ==>
            (e in g'.edges <==>
             e in g.edges && (e.source != was.id || (e.branch.Str? && ValidatorLaws.Offers(now, e.branch.s)))))
  {
    var found := NodeAt(g.nodes, Str(id));
    if found.Some? {
      var now := found.value.(config := config);
      ReplacedIs(g.nodes, Str(id), now);
      if e.branch.Str? { ValidatorLaws.OffersAre(now, e.branch.s); }
    }
    hide Replaced, FirstBecomes, AllowedBranches, ValidatorLaws.Offers;
  }

  /** The title of the node is replaced, by one that is not empty. */
  lemma RenameDoes(g: Graph, id: string, title: string)
    ensures var (g', reply) := Rename(g, id, title);
      match NodeAt(g.nodes, Str(id))
      case Some(was) =>
        if title == "" then reply == Declined && g' == g
        else
          && reply == Edited && g'.edges == g.edges
          && exists k: nat :: FirstBecomes(g.nodes, Str(id), was.(title := Str(title)), g'.nodes, k)
      case None => reply == Declined && g' == g
  {
    var found := NodeAt(g.nodes, Str(id));
    if found.Some? { ReplacedIs(g.nodes, Str(id), found.value.(title := Str(title))); }
    hide Replaced, FirstBecomes;
  }

  // ----- the graph that is kept

  predicate EdgeOk(rules: Rules, nodes: seq<Node>, e: Edge) {
    var s, t := NodeAt(nodes, e.source), NodeAt(nodes, e.target);
    && s.Some? && t.Some? && e.source != e.target && !ActsAsTrigger(rules, t.value)
    && (if s.value.event == BRANCH_IF then e.branch.Str? && e.branch.s in AllowedBranches(s.value)
        else e.branch == Null || e.branch == Str(""))
  }

  predicate NoRepeats(edges: seq<Edge>) {
    forall i, j | 0 <= i < j < |edges| ::
      !(edges[i].source == edges[j].source && edges[i].target == edges[j].target
        && LabelOf(edges[i]) == LabelOf(edges[j]))
  }

  ghost predicate GraphOk(rules: Rules, g: Graph) {
    && Validator.Distinct(g.nodes)
    && (forall n | n in g.nodes :: Validator.IsSid(n.id))
    && (forall e | e in g.edges :: EdgeOk(rules, g.nodes, e))
    && NoRepeats(g.edges)
  }

  lemma AddKeeps(
    rules: Rules, g: Graph, item: Option<MenuItem>, id: string, title: string,
    after: string, branch: string, admitted: bool)
    requires GraphOk(rules, g) && id != "" && !HasNode(g.nodes, Str(id))
    ensures GraphOk(rules, AddNode(rules, g, item, id, title, after, branch, admitted).0)
  {
    hide ActsAsTrigger, AllowedBranches, NodeAt;
    var (g', reply) := AddNode(rules, g, item, id, title, after, branch, admitted);
    if reply.Edited? {
      var n := g'.nodes[|g.nodes|];
      forall x
        ensures NodeAt(g'.nodes, x) ==
          if HasNode(g.nodes, x) then NodeAt(g.nodes, x) else if n.id == x then Some(n) else None
      {
        ValidatorLoops.NodeAtSnoc(g.nodes, n, x);
      }
      forall e | e in g.edges ensures EdgeOk(rules, g'.nodes, e) {
        assert EdgeOk(rules, g.nodes, e);
      }
      if after != "" {
        var e := NewEdge(Str(after), Str(id), branch);
        assert NodeAt(g'.nodes, e.target) == Some(n);
        assert !ActsAsTrigger(rules, n) by { AddedActs(rules, n, item.value); }
        assert EdgeOk(rules, g'.nodes, e);
        forall d | d in g.edges ensures d.target != Str(id) {
          assert EdgeOk(rules, g.nodes, d);
        }
        assert forall d | d in g'.edges :: d in g.edges || d == e;
      }
    }
  }

  lemma AddedActs(rules: Rules, n: Node, item: MenuItem)
    requires n.event == Str(item.event) && n.typ == Str(item.nodeType)
    requires item.nodeType != "TRIGGER" && rules.entry(item.event).Some?
    requires rules.entry(item.event).value.nodeType == item.nodeType
    ensures !ActsAsTrigger(rules, n)
  {
  }

  lemma ConnectKeeps(rules: Rules, g: Graph, source: string, target: string, branch: string)
    requires GraphOk(rules, g)
    ensures GraphOk(rules, Connect(rules, g, source, target, branch).0)
  {
    hide ActsAsTrigger, AllowedBranches, NodeAt;
    var g' := Connect(rules, g, source, target, branch).0;
    if g' != g {
      var e := NewEdge(Str(source), Str(target), branch);
      assert EdgeOk(rules, g.nodes, e);
      assert forall d | d in g'.edges :: d in g.edges || d == e;
      forall i | 0 <= i < |g.edges|
        ensures !(g.edges[i].source == e.source && g.edges[i].target == e.target && LabelOf(g.edges[i]) == LabelOf(e))
      {
        assert g.edges[i] in g.edges;
      }
    }
  }

  lemma RemoveKeeps(rules: Rules, g: Graph, id: string)
    requires GraphOk(rules, g)
    ensures GraphOk(rules, RemoveNode(g, id).0)
  {
    hide ActsAsTrigger, AllowedBranches, NodeAt;
    var g' := RemoveNode(g, id).0;
    if g' != g {
      DistinctWithout(g.nodes, Str(id));
      forall e | e in g'.edges ensures EdgeOk(rules, g'.nodes, e) {
        assert EdgeOk(rules, g.nodes, e);
        NodeAtWithout(g.nodes, Str(id), e.source);
        NodeAtWithout(g.nodes, Str(id), e.target);
      }
      NoRepeatsDetached(g.edges, Str(id));
    }
  }

  lemma {:induction false} DistinctWithout(nodes: seq<Node>, id: Json)
    requires Validator.Distinct(nodes)
    ensures Validator.Distinct(Without(nodes, id))
  {
    if nodes != [] {
      var rest := nodes[1..];
      assert Validator.Distinct(rest);
      DistinctWithout(rest, id);
      forall n | n in rest ensures n.id != nodes[0].id {
        var i :| 0 <= i < |rest| && rest[i] == n;
        assert nodes[i + 1] == n;
      }
    }
  }

  lemma {:induction false} NodeAtWithout(nodes: seq<Node>, id: Json, x: Json)
    requires x != id
    ensures NodeAt(Without(nodes, id), x) == NodeAt(nodes, x)
  {
    if nodes != [] {
      var rest := Without(nodes[1..], id);
      NodeAtWithout(nodes[1..], id, x);
      if nodes[0].id != id {
        assert Without(nodes, id) == [nodes[0]] + rest;
        assert ([nodes[0]] + rest)[1..] == rest;
      } else {
        assert Without(nodes, id) == rest;
      }
    }
  }

  lemma {:induction false} NoRepeatsDetached(edges: seq<Edge>, id: Json)
    requires NoRepeats(edges)
    ensures NoRepeats(Detached(edges, id))
  {
    if edges != [] {
      var rest := edges[1..];
      assert NoRepeats(rest);
      NoRepeatsDetached(rest, id);
      FirstIsNew(edges);
    }
  }

  lemma FirstIsNew(edges: seq<Edge>)
    requires NoRepeats(edges) && edges != []
    ensures forall d | d in edges[1..] ::
      !(edges[0].source == d.source && edges[0].target == d.target && LabelOf(edges[0]) == LabelOf(d))
  {
    forall d | d in edges[1..]
      ensures !(edges[0].source == d.source && edges[0].target == d.target && LabelOf(edges[0]) == LabelOf(d))
    {
      var i :| 0 <= i < |edges[1..]| && edges[1..][i] == d;
      assert edges[i + 1] == d;
    }
  }

  lemma {:induction false} NoRepeatsPruned(edges: seq<Edge>, n: Node)
    requires NoRepeats(edges)
    ensures NoRepeats(Pruned(edges, n))
  {
    hide AllowedBranches, StillAllowed;
    if edges != [] {
      assert NoRepeats(edges[1..]);
      NoRepeatsPruned(edges[1..], n);
      FirstIsNew(edges);
    }
  }

  lemma {:induction false} ReplacedAt(nodes: seq<Node>, id: Json, n: Node, x: Json)
    requires n.id == id && HasNode(nodes, id)
    ensures NodeAt(Replaced(nodes, id, n), x) == if x == id then Some(n) else NodeAt(nodes, x)
    ensures forall i | 0 <= i < |nodes| :: Replaced(nodes, id, n)[i].id == nodes[i].id
  {
    var more, rest := Replaced(nodes, id, n), nodes[1..];
    if nodes[0].id != id {
      ReplacedAt(rest, id, n, x);
      assert more[1..] == Replaced(rest, id, n);
      assert forall i | 0 < i < |nodes| :: more[i] == Replaced(rest, id, n)[i - 1] && nodes[i] == rest[i - 1];
    } else {
      assert more[1..] == rest;
      assert forall i | 0 < i < |nodes| :: more[i] == rest[i - 1] == nodes[i];
    }
  }

  /** A node changes its title or config, and edges its new config does not offer are gone. */
  lemma ReplaceKeeps(rules: Rules, g: Graph, id: Json, n: Node, edges: seq<Edge>)
    requires GraphOk(rules, g) && HasNode(g.nodes, id)
    requires var m := NodeAt(g.nodes, id).value; n.id == id && n.event == m.event && n.typ == m.typ
    requires NoRepeats(edges)
    requires (forall e | e in edges :: e in g.edges && (n.event == BRANCH_IF ==> StillAllowed(n, e)))
    ensures GraphOk(rules, Graph(Replaced(g.nodes, id, n), edges))
  {
    var nodes := Replaced(g.nodes, id, n);
    forall x ensures NodeAt(nodes, x) == if x == id then Some(n) else NodeAt(g.nodes, x) {
      ReplacedAt(g.nodes, id, n, x);
    }
    ReplacedAt(g.nodes, id, n, id);
    SameIds(g.nodes, nodes);
    hide NodeAt, AllowedBranches, EdgeOk, StillAllowed, NoRepeats, Replaced, Validator.Distinct, Validator.IsSid;
    forall e | e in edges ensures EdgeOk(rules, nodes, e) {
      assert EdgeOk(rules, g.nodes, e);
      EdgeStays(rules, g.nodes, nodes, n, e);
    }
  }

  lemma SameIds(was: seq<Node>, nodes: seq<Node>)
    requires |was| == |nodes| && forall i | 0 <= i < |was| :: nodes[i].id == was[i].id
    requires Validator.Distinct(was) && forall k | k in was :: Validator.IsSid(k.id)
    ensures Validator.Distinct(nodes) && forall k | k in nodes :: Validator.IsSid(k.id)
  {
    hide Validator.IsSid;
    assert forall i | 0 <= i < |was| :: was[i] in was;
  }

  /** An edge is still fine when one node keeps its event and type and still offers its branch. */
  lemma EdgeStays(rules: Rules, was: seq<Node>, nodes: seq<Node>, n: Node, e: Edge)
    requires HasNode(was, n.id) && EdgeOk(rules, was, e) && (n.event == BRANCH_IF ==> StillAllowed(n, e))
    requires var m := NodeAt(was, n.id).value; n.event == m.event && n.typ == m.typ
    requires forall x :: NodeAt(nodes, x) == if x == n.id then Some(n) else NodeAt(was, x)
    ensures EdgeOk(rules, nodes, e)
  {
    hide NodeAt, AllowedBranches;
  }

  lemma SetConfigKeeps(rules: Rules, g: Graph, id: string, config: Json)
    requires GraphOk(rules, g)
    ensures GraphOk(rules, SetConfig(g, id, config).0)
  {
    hide GraphOk, AllowedBranches;
    var n := NodeAt(g.nodes, Str(id));
    if n.Some? {
      var m := n.value.(config := config);
      assert NoRepeats(g.edges) by { GraphHasNoRepeats(rules, g); }
      NoRepeatsPruned(g.edges, m);
      ReplaceKeeps(rules, g, Str(id), m, if m.event == BRANCH_IF then Pruned(g.edges, m) else g.edges);
    }
  }

  lemma RenameKeeps(rules: Rules, g: Graph, id: string, title: string)
    requires GraphOk(rules, g)
    ensures GraphOk(rules, Rename(g, id, title).0)
  {
    var n := NodeAt(g.nodes, Str(id));
    if n.Some? && title != "" {
      forall e | e in g.edges && n.value.event == BRANCH_IF ensures StillAllowed(n.value.(title := Str(title)), e) {
        assert EdgeOk(rules, g.nodes, e);
      }
      ReplaceKeeps(rules, g, Str(id), n.value.(title := Str(title)), g.edges);
    }
  }

  lemma GraphHasNoRepeats(rules: Rules, g: Graph)
    requires GraphOk(rules, g)
    ensures NoRepeats(g.edges)
  {
  }

  // ----- any sequence of edits

  datatype Op =
    | OpAdd(item: Option<MenuItem>, id: string, title: string, after: string, branch: string, admitted: bool)
    | OpConnect(source: string, target: string, branch: string)
    | OpRemove(id: string)
    | OpRename(id: string, title: string)
    | OpSetConfig(id: string, config: Json)

  /** A new id that is not new cannot come up; such an op does nothing. */
  function Do(rules: Rules, g: Graph, op: Op): Graph {
    match op
    case OpAdd(item, id, title, after, branch, admitted) =>
      if id == "" || HasNode(g.nodes, Str(id)) then g else AddNode(rules, g, item, id, title, after, branch, admitted).0
    case OpConnect(source, target, branch) => Connect(rules, g, source, target, branch).0
    case OpRemove(id) => RemoveNode(g, id).0
    case OpRename(id, title) => Rename(g, id, title).0
    case OpSetConfig(id, config) => SetConfig(g, id, config).0
  }

  function DoAll(rules: Rules, g: Graph, ops: seq<Op>): Graph {
    if ops == [] then g else Do(rules, DoAll(rules, g, ops[..|ops| - 1]), ops[|ops| - 1])
  }

  lemma DoKeeps(rules: Rules, g: Graph, op: Op)
    requires GraphOk(rules, g)
    ensures GraphOk(rules, Do(rules, g, op)) && (g.nodes != [] ==> Do(rules, g, op).nodes != [])
  {
    hide GraphOk, AllowedBranches, ActsAsTrigger, BranchRefused;
    match op {
      case OpAdd(item, id, title, after, branch, admitted) =>
        if id != "" && !HasNode(g.nodes, Str(id)) { AddKeeps(rules, g, item, id, title, after, branch, admitted); }
      case OpConnect(source, target, branch) => ConnectKeeps(rules, g, source, target, branch);
      case OpRemove(id) =>
        RemoveKeeps(rules, g, id);
        if g.nodes != [] { SomethingLeft(rules, g, id); }
      case OpRename(id, title) => RenameKeeps(rules, g, id, title);
      case OpSetConfig(id, config) => SetConfigKeeps(rules, g, id, config);
    }
  }

  lemma SomethingLeft(rules: Rules, g: Graph, id: string)
    requires GraphOk(rules, g) && g.nodes != []
    ensures RemoveNode(g, id).0.nodes != []
  {
    if HasNode(g.nodes, Str(id)) && |g.nodes| != 1 {
      var k := if g.nodes[0].id == Str(id) then 1 else 0;
      assert g.nodes[k] in Without(g.nodes, Str(id));
    }
  }

  /** Edits keep the graph in order, and never empty it. */
  lemma {:induction false} EditsKeepTheGraph(rules: Rules, g: Graph, ops: seq<Op>)
    requires GraphOk(rules, g)
    ensures GraphOk(rules, DoAll(rules, g, ops)) && (g.nodes != [] ==> DoAll(rules, g, ops).nodes != [])
  {
    hide GraphOk, Do;
    if ops != [] {
      EditsKeepTheGraph(rules, g, ops[..|ops| - 1]);
      DoKeeps(rules, DoAll(rules, g, ops[..|ops| - 1]), ops[|ops| - 1]);
    }
  }

  /** Type and event of every node tell the same story to the two modules. */
  ghost predicate TypesAgree(rules: Rules, cat: Validator.Catalog, nodes: seq<Node>) {
    forall n | n in nodes ::
      && (Validator.IsTrigger(n) ==> ActsAsTrigger(rules, n))
      && (cat.entry(n).Some? && cat.entry(n).value.nodeType == "CONDITION" ==> n.event == BRANCH_IF)
  }

  /** After any edits the validator has nothing to say about any edge. */
  lemma EditsLeaveNoEdgeFinding(rules: Rules, cat: Validator.Catalog, g: Graph, ops: seq<Op>)
    requires GraphOk(rules, g) && TypesAgree(rules, cat, DoAll(rules, g, ops).nodes)
    ensures var g' := DoAll(rules, g, ops);
      Validator.EdgesFindings(cat, g'.nodes, Validator.TheTrigger(g'.nodes), g'.edges) == []
  {
    EditsKeepTheGraph(rules, g, ops);
    var g' := DoAll(rules, g, ops);
    hide DoAll;
    NoEdgeFinding(rules, cat, g', g'.edges);
  }

  lemma {:induction false} NoEdgeFinding(rules: Rules, cat: Validator.Catalog, g: Graph, edges: seq<Edge>)
    requires GraphOk(rules, g) && TypesAgree(rules, cat, g.nodes) && forall e | e in edges :: e in g.edges
    ensures Validator.EdgesFindings(cat, g.nodes, Validator.TheTrigger(g.nodes), edges) == []
  {
    if edges != [] {
      hide GraphOk, TypesAgree;
      NoEdgeFinding(rules, cat, g, edges[..|edges| - 1]);
      NoFindingFor(rules, cat, g, edges[|edges| - 1], |edges| - 1);
    }
  }

  lemma NoFindingFor(rules: Rules, cat: Validator.Catalog, g: Graph, e: Edge, idx: nat)
    requires GraphOk(rules, g) && TypesAgree(rules, cat, g.nodes) && e in g.edges
    ensures Validator.EdgeFindings(cat, g.nodes, Validator.TheTrigger(g.nodes), e, idx) == []
  {
    hide AllowedBranches, ActsAsTrigger, Validator.IsTrigger;
    assert EdgeOk(rules, g.nodes, e);
    var s, t := NodeAt(g.nodes, e.source).value, NodeAt(g.nodes, e.target).value;
    assert s in g.nodes && t in g.nodes;
    assert Validator.BranchFine(cat, s, e.branch);
    if Validator.TheTrigger(g.nodes).Some? { TriggerActs(rules, cat, g); }
  }

  lemma TriggerActs(rules: Rules, cat: Validator.Catalog, g: Graph)
    requires GraphOk(rules, g) && TypesAgree(rules, cat, g.nodes) && Validator.TheTrigger(g.nodes).Some?
    ensures var n := NodeAt(g.nodes, Validator.TheTrigger(g.nodes).value);
      n.Some? && ActsAsTrigger(rules, n.value)
  {
    hide ActsAsTrigger, Validator.IsTrigger;
    Validator.TriggersCounted(g.nodes);
    var k: nat :| Validator.OnlyTrigger(g.nodes, k);
    var n := g.nodes[k];
    assert n in g.nodes;
    var m := NodeAt(g.nodes, n.id).value;
    var i :| 0 <= i < |g.nodes| && g.nodes[i] == m;
    assert m == n;
  }
}
