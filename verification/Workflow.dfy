/** Nodes, edges, hashes and findings: the data the builder and the validator share. */
module Workflow {
  import opened Wrappers
  import opened Text
  import opened Json

  /** A node as the client sends it. A missing attribute is Null; any JSON may stand anywhere. */
  datatype Node = Node(id: Json, typ: Json, event: Json, title: Json, config: Json)

  /** An edge; branch is conditionType. */
  datatype Edge = Edge(source: Json, target: Json, branch: Json)

  datatype Code =
    | TRIGGER_COUNT | ORPHAN_NODE | EDGE_INVALID | TOO_LARGE | CRON
    | REQUIRED | TYPE | CHOICE
    | REF_FORMAT | REF_NOT_ALLOWED | REF_UNKNOWN_NODE | REF_SELF | REF_NOT_UPSTREAM | REF_UNKNOWN_FIELD

  /** A finding. The text of a message is not modelled, only the values it shows. */
  datatype Error = Error(nodeId: Option<string>, field: Option<string>, code: Code, shown: seq<Json>)

  const REASONING := Str("ai.reasoning")
  const BRANCH_IF := Str("branch.if")

  /** `str(value or "").strip()` is not empty. */
  predicate Filled(j: Json) {
    match j
    case Null => false
    case Bool(b) => b
    case Int(i) => i != 0
    case Float(r) => r != 0.0
    case Str(s) => !AllSpace(s)
    case Arr(items) => items != []
    case Obj(fields) => fields != []
  }

  function ConfigFields(n: Node): seq<(string, Json)> {
    if n.config.Obj? then n.config.fields else []
  }

  /** The value of a direct config field, Null when there is none. */
  function ConfigValue(n: Node, key: string): Json {
    Get(n.config, key)
  }

  /** The first node with the id. */
  function NodeAt(nodes: seq<Node>, id: Json): (r: Option<Node>)
    ensures r.Some? ==> r.value in nodes && r.value.id == id
    ensures r.None? ==> forall n | n in nodes :: n.id != id
  {
    if nodes == [] then None
    else if nodes[0].id == id then Some(nodes[0])
    else NodeAt(nodes[1..], id)
  }

  /** Place i is the first with this id. */
  predicate FirstOf(nodes: seq<Node>, i: nat, id: Json) {
    i < |nodes| && nodes[i].id == id && forall j | 0 <= j < i :: nodes[j].id != id
  }

  lemma {:induction false} NodeAtIsFirst(nodes: seq<Node>, i: nat, id: Json)
    requires FirstOf(nodes, i, id)
    ensures NodeAt(nodes, id) == Some(nodes[i])
  {
    if i > 0 {
      var rest := nodes[1..];
      assert nodes[0].id != id && forall j | 0 <= j < |rest| :: rest[j] == nodes[j + 1];
      NodeAtIsFirst(rest, i - 1, id);
    }
  }

  predicate HasNode(nodes: seq<Node>, id: Json) {
    NodeAt(nodes, id).Some?
  }

  /** Distinct inputs have distinct hashes: the digest is the hashed content itself. */
  datatype Digest =
    | NodeDigest(event: Canonical, config: map<string, Canonical>)
    | WorkflowDigest(nodes: multiset<(Json, Digest)>, edges: multiset<(Json, Json, Json)>)

  /** Event and config without brand: the backend writes brand into stored nodes on its own. */
  function NodeHash(n: Node): (h: Digest)
    ensures h.NodeDigest?
  {
    NodeDigest(Canon(n.event), CanonFields(ConfigFields(n)) - {"brand"})
  }

  function HashedNodes(nodes: seq<Node>): multiset<(Json, Digest)> {
    if nodes == [] then multiset{} else multiset{(nodes[0].id, NodeHash(nodes[0]))} + HashedNodes(nodes[1..])
  }

  function HashedEdges(edges: seq<Edge>): multiset<(Json, Json, Json)> {
    if edges == [] then multiset{}
    else multiset{(edges[0].source, edges[0].target, edges[0].branch)} + HashedEdges(edges[1..])
  }

  function WorkflowHash(nodes: seq<Node>, edges: seq<Edge>): (h: Digest)
    ensures h.WorkflowDigest?
  {
    WorkflowDigest(HashedNodes(nodes), HashedEdges(edges))
  }

  lemma {:induction false} HashedNodesHas(nodes: seq<Node>, n: Node)
    requires n in nodes
    ensures (n.id, NodeHash(n)) in HashedNodes(nodes)
  {
    if nodes[0] != n {
      HashedNodesHas(nodes[1..], n);
    }
  }

  lemma {:induction false} HashedNodesFrom(nodes: seq<Node>, id: Json, h: Digest)
    requires (id, h) in HashedNodes(nodes)
    ensures exists n :: n in nodes && n.id == id && NodeHash(n) == h
  {
    if nodes[0].id == id && NodeHash(nodes[0]) == h {
      assert nodes[0] in nodes;
    } else {
      HashedNodesFrom(nodes[1..], id, h);
    }
  }

  /** {id: hash}; of two nodes with one id the later counts. */
  function BaselineOf(nodes: seq<Node>): (m: map<Json, Digest>)
    ensures forall k | k in m :: exists n :: n in nodes && n.id == k && m[k] == NodeHash(n)
  {
    if nodes == [] then map[]
    else
      var last := nodes[|nodes| - 1];
      assert last in nodes;
      BaselineOf(nodes[..|nodes| - 1])[last.id := NodeHash(last)]
  }

  /** The branch values an edge out of a branch node may carry. */
  function BranchKeys(branches: seq<Json>): (keys: seq<string>)
    ensures "" !in keys
  {
    if branches == [] then []
    else
      var key := Get(branches[0], "key");
      (if key.Str? && key != Str("") then [key.s] else []) + BranchKeys(branches[1..])
  }

  function AllowedBranches(n: Node): (allowed: seq<string>)
    ensures "" !in allowed
  {
    var branches := ConfigValue(n, "branches");
    if IsBlank(branches) then ["true", "false"]
    else
      (if branches.Arr? then BranchKeys(branches.items) else [])
      + (if ConfigValue(n, "otherwise") != Str("stop") then ["else"] else [])
  }
}
