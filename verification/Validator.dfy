/**
 * The static check of a whole workflow as a stream of findings, and what an empty result means.
 */
module Validator {
  import opened Wrappers
  import opened Text
  import opened Json
  import opened Workflow
  import opened Flow
  import opened ConfigStrings
  import opened Collector
  import Paths

  const MAX_NODES := 500
  const MAX_EDGES := 2000
  const MAX_VALUE_LEN := 80

  datatype Field = Field(path: string, dynamic: bool)

  datatype Entry = Entry(
    nodeType: string, fields: seq<Field>, outputDynamic: bool, outputsFrom: Option<string>, outputs: set<string>)

  /** The catalog entry of a node, its field and cron checks, and the size of a printed finding. */
  datatype Catalog = Catalog(
    entry: Node -> Option<Entry>,
    fieldErrors: Node -> seq<Error>,
    cronErrors: Node -> seq<Error>,
    size: Error -> nat)

  function Clip(s: string): string {
    if |s| <= MAX_VALUE_LEN then s else s[..MAX_VALUE_LEN] + "…"
  }

  /** A value as a message shows it. */
  function Shown(j: Json): Json {
    if j.Str? then Str(Clip(j.s)) else j
  }

  /** What can serve as an id: a string that is not empty. */
  predicate IsSid(j: Json) {
    j.Str? && j.s != ""
  }

  function Finding(code: Code, shown: seq<Json>, id: Json, field: Option<string>): Error {
    Error(if id.Str? then Some(Clip(id.s)) else None, field, code, shown)
  }

  // ----- the nodes

  /** Only a node with an id and a type counts. */
  predicate IsTrigger(n: Node) {
    IsSid(n.id) && IsSid(n.typ) && Upper(n.typ.s) == "TRIGGER"
  }

  function SidsOf(nodes: seq<Node>): (ids: set<Json>)
    ensures forall id :: id in ids <==> IsSid(id) && HasNode(nodes, id)
  {
    if nodes == [] then {} else (if IsSid(nodes[0].id) then {nodes[0].id} else {}) + SidsOf(nodes[1..])
  }

  function TriggersOf(nodes: seq<Node>): seq<Node> {
    if nodes == [] then []
    else TriggersOf(nodes[..|nodes| - 1]) + if IsTrigger(nodes[|nodes| - 1]) then [nodes[|nodes| - 1]] else []
  }

  function NodeFindings(cat: Catalog, before: seq<Node>, n: Node): seq<Error> {
    if !IsSid(n.id) then [Finding(EDGE_INVALID, [Str("no id"), Int(|before| + 1)], Null, None)]
    else
      (if HasNode(before, n.id) then [Finding(EDGE_INVALID, [Str("id repeated"), Shown(n.id)], n.id, None)] else [])
      + if !IsSid(n.typ) then [Finding(EDGE_INVALID, [Str("no type"), Shown(n.id)], n.id, None)]
        else if IsTrigger(n) then cat.cronErrors(n) else []
  }

  function NodesFindings(cat: Catalog, nodes: seq<Node>): seq<Error> {
    if nodes == [] then []
    else
      var init := nodes[..|nodes| - 1];
      NodesFindings(cat, init) + NodeFindings(cat, init, nodes[|nodes| - 1])
  }

  // ----- the edges

  /** Whether the edge's branch value is one its source offers; only condition nodes care. */
  predicate BranchFine(cat: Catalog, source: Node, branch: Json) {
    cat.entry(source).None? || cat.entry(source).value.nodeType != "CONDITION"
    || (branch.Str? && branch.s in AllowedBranches(source))
  }

  function BranchFindings(cat: Catalog, source: Node, e: Edge): seq<Error> {
    if BranchFine(cat, source, e.branch) then []
    else
      var stops := !IsBlank(ConfigValue(source, "branches")) && ConfigValue(source, "otherwise") == Str("stop");
      [Finding(EDGE_INVALID, [Str("branch"), Shown(e.source), Shown(e.target), Shown(e.branch),
                              Bool(stops && e.branch == Str("else"))], e.source, None)]
  }

  function EdgeFindings(cat: Catalog, nodes: seq<Node>, trigger: Option<Json>, e: Edge, idx: nat): seq<Error> {
    var ids := SidsOf(nodes);
    (if !IsSid(e.source) || !IsSid(e.target) then [Finding(EDGE_INVALID, [Str("no end"), Int(idx + 1)], Null, None)]
     else if e.source !in ids || e.target !in ids then
       [Finding(EDGE_INVALID, [Str("unknown end"), Shown(e.source), Shown(e.target),
                               Shown(if e.source !in ids then e.source else e.target)], Null, None)]
     else if Some(e.target) == trigger then [Finding(EDGE_INVALID, [Str("into trigger")], e.target, None)]
     else [])
    + if e.source in ids && e.target in ids then BranchFindings(cat, NodeAt(nodes, e.source).value, e) else []
  }

  function EdgesFindings(cat: Catalog, nodes: seq<Node>, trigger: Option<Json>, edges: seq<Edge>): seq<Error> {
    if edges == [] then []
    else
      var init := edges[..|edges| - 1];
      EdgesFindings(cat, nodes, trigger, init) + EdgeFindings(cat, nodes, trigger, edges[|edges| - 1], |init|)
  }

  // ----- reachability

  ghost predicate FromTrigger(ids: set<Json>, edges: seq<Edge>, t: Json, x: Json) {
    x == t || Upstream(ids, edges, t, x)
  }

  ghost function OrphanFindings(ids: set<Json>, edges: seq<Edge>, t: Json, nodes: seq<Node>): seq<Error> {
    if nodes == [] then []
    else
      var n := nodes[|nodes| - 1];
      OrphanFindings(ids, edges, t, nodes[..|nodes| - 1])
      + if IsSid(n.id) && !FromTrigger(ids, edges, t, n.id) then [Finding(ORPHAN_NODE, [], n.id, None)] else []
  }

  function TheTrigger(nodes: seq<Node>): Option<Json> {
    var triggers := TriggersOf(nodes);
    if |triggers| == 1 then Some(triggers[0].id) else None
  }

  ghost function GraphFindings(cat: Catalog, nodes: seq<Node>, edges: seq<Edge>): seq<Error> {
    if nodes == [] then [Finding(TRIGGER_COUNT, [], Null, None)]
    else
      var trigger := TheTrigger(nodes);
      NodesFindings(cat, nodes)
      + (if trigger.None? then [Finding(TRIGGER_COUNT, [Int(|TriggersOf(nodes)|)], Null, None)] else [])
      + EdgesFindings(cat, nodes, trigger, edges)
      + (if trigger.Some? then OrphanFindings(SidsOf(nodes), edges, trigger.value, nodes) else [])
  }

  // ----- references

  const RIGHT_UNUSED_OPERATORS := ["isEmpty", "isNotEmpty", "isTrue", "isFalse"]
  const LEGACY_CONDITION_PATHS := ["config.operator", "config.left", "config.right"]

  /** A field the executor does not read. */
  predicate UnusedField(entry: Entry, n: Node, path: string) {
    if entry.nodeType == "CONDITION" && path in LEGACY_CONDITION_PATHS && !IsBlank(ConfigValue(n, "branches")) then true
    else if path == "config.right" && entry.nodeType == "CONDITION" then
      var operator := ConfigValue(n, "operator");
      operator.Str? && operator.s in RIGHT_UNUSED_OPERATORS
    else path == "config.url" && entry.nodeType == "HTTP" && Filled(ConfigValue(n, "webhookCredentialId"))
  }

  function AliasOf(path: string): seq<string> {
    if path == "config.left" then ["config.leftValue"]
    else if path == "config.right" then ["config.rightValue"]
    else []
  }

  function FieldsOf(cat: Catalog, n: Node): seq<Field> {
    if cat.entry(n).Some? then cat.entry(n).value.fields else []
  }

  /** Some unused field of the node owns the location. */
  predicate InUnused(cat: Catalog, n: Node, loc: string) {
    exists f :: f in FieldsOf(cat, n) && UnusedField(cat.entry(n).value, n, f.path)
      && (Owns(f.path, loc) || exists p :: p in AliasOf(f.path) && Owns(p, loc))
  }

  function FirstOwner(fields: seq<Field>, loc: string): Option<Field> {
    if fields == [] then None
    else if Owns(fields[0].path, loc) then Some(fields[0])
    else FirstOwner(fields[1..], loc)
  }

  /** The field a finding names: the owner, and inside a dynamic field of an action also the key. */
  function FieldNamed(cat: Catalog, n: Node, loc: string): Option<string> {
    match FirstOwner(FieldsOf(cat, n), loc)
    case None => None
    case Some(f) =>
      if f.dynamic && cat.entry(n).Some? && cat.entry(n).value.nodeType == "ACTION" && |f.path| < |loc| then
        var inner := loc[|f.path| + 1..];
        Some(f.path + "." + inner[..UpToDot(inner)])
      else Some(f.path)
  }

  function NodeJson(n: Node): Json {
    Obj([("id", n.id), ("type", n.typ), ("event", n.event), ("label", n.title), ("config", n.config)])
  }

  function KeysOf(items: seq<Json>): set<string> {
    if items == [] then {}
    else
      var key := Get(items[0], "key");
      (if key.Str? then {key.s} else {}) + KeysOf(items[1..])
  }

  /** The top-level output keys of a node; None when they cannot be told. */
  function DeclaredOutputs(cat: Catalog, n: Node): Option<set<string>> {
    match cat.entry(n)
    case None => None
    case Some(e) =>
      if e.outputDynamic then None
      else
        var given := if e.outputsFrom.Some? then Paths.GetByPath(NodeJson(n), e.outputsFrom.value) else Null;
        if given.Obj? && given.fields != [] then Some(set f | f in given.fields :: f.0)
        else if given.Arr? && given.items != [] then Some(KeysOf(given.items))
        else Some(e.outputs)
  }

  /** Of two nodes with one id the later is looked up. */
  function LastWith(nodes: seq<Node>, id: Json): (n: Node)
    requires HasNode(nodes, id)
    ensures n in nodes && n.id == id
    decreases |nodes|
  {
    if nodes[|nodes| - 1].id == id then nodes[|nodes| - 1]
    else
      assert nodes == nodes[..|nodes| - 1] + [nodes[|nodes| - 1]];
      LastWith(nodes[..|nodes| - 1], id)
  }

  predicate OutputKnown(cat: Catalog, target: Node, path: string) {
    DeclaredOutputs(cat, target).None? || path[..UpToDot(path)] in DeclaredOutputs(cat, target).value
  }

  ghost function BodyFindings(
    cat: Catalog, nodes: seq<Node>, edges: seq<Edge>, n: Node, field: Option<string>, body: string): seq<Error>
  {
    var ids := SidsOf(nodes);
    match ParseRef(body)
    case None => [Finding(REF_FORMAT, [Str(Clip(body))], n.id, field)]
    case Some(r) =>
      var target := Str(r.target);
      if target !in ids then [Finding(REF_UNKNOWN_NODE, [Str(Clip(r.target))], n.id, field)]
      else if target == n.id then [Finding(REF_SELF, [], n.id, field)]
      else if !Upstream(ids, edges, target, n.id) then [Finding(REF_NOT_UPSTREAM, [Str(Clip(r.target))], n.id, field)]
      else if !OutputKnown(cat, LastWith(nodes, target), r.path) then
        [Finding(REF_UNKNOWN_FIELD, [Str(Clip(r.target)), Str(Clip(r.path[..UpToDot(r.path)]))], n.id, field)]
      else []
  }

  ghost function BodiesFindings(
    cat: Catalog, nodes: seq<Node>, edges: seq<Edge>, n: Node, field: Option<string>, bodies: seq<string>): seq<Error>
  {
    if bodies == [] then []
    else
      BodiesFindings(cat, nodes, edges, n, field, bodies[..|bodies| - 1])
      + BodyFindings(cat, nodes, edges, n, field, bodies[|bodies| - 1])
  }

  ghost function LeafFindings(cat: Catalog, nodes: seq<Node>, edges: seq<Edge>, n: Node, leaf: Leaf): seq<Error> {
    if !Contains(leaf.text, "{{") || InUnused(cat, n, leaf.loc) then []
    else
      var field := FieldNamed(cat, n, leaf.loc);
      (if Unclosed(leaf.text) then [Finding(REF_FORMAT, [], n.id, field)] else [])
      + BodiesFindings(cat, nodes, edges, n, field, Bodies(leaf.text, 0))
  }

  ghost function LeavesFindings(
    cat: Catalog, nodes: seq<Node>, edges: seq<Edge>, n: Node, leaves: seq<Leaf>): seq<Error>
  {
    if leaves == [] then []
    else
      LeavesFindings(cat, nodes, edges, n, leaves[..|leaves| - 1])
      + LeafFindings(cat, nodes, edges, n, leaves[|leaves| - 1])
  }

  ghost function RefFindings(cat: Catalog, nodes: seq<Node>, edges: seq<Edge>, n: Node): seq<Error> {
    if !IsSid(n.id) || !n.config.Obj? then []
    else LeavesFindings(cat, nodes, edges, n, Leaves("config", n.config, true))
  }

  // ----- the whole

  ghost function Later(cat: Catalog, nodes: seq<Node>, edges: seq<Edge>, k: nat): seq<Error>
    requires k <= |nodes|
  {
    if k == 0 then []
    else Later(cat, nodes, edges, k - 1) + cat.fieldErrors(nodes[k - 1]) + RefFindings(cat, nodes, edges, nodes[k - 1])
  }

  ghost function Stream(cat: Catalog, nodes: seq<Node>, edges: seq<Edge>): seq<Error> {
    GraphFindings(cat, nodes, edges) + Later(cat, nodes, edges, |nodes|)
  }

  /** What is left of a list once everything that is not an object is dropped. */
  function Objects<T>(raw: seq<Option<T>>): seq<T> {
    if raw == [] then []
    else Objects(raw[..|raw| - 1]) + if raw[|raw| - 1].Some? then [raw[|raw| - 1].value] else []
  }

  /** `validate_workflow`. None stands for a list element that is not an object. */
  ghost function Validate(cat: Catalog, nodes: seq<Option<Node>>, edges: seq<Option<Edge>>): seq<Error> {
    if |nodes| > MAX_NODES || |edges| > MAX_EDGES then [Finding(TOO_LARGE, [Int(|nodes|), Int(|edges|)], Null, None)]
    else Kept(cat.size, Stream(cat, Objects(nodes), Objects(edges)))
  }

  // ----- what an empty result means, without findings

  predicate Distinct(nodes: seq<Node>) {
    forall i, j | 0 <= i < j < |nodes| :: nodes[i].id != nodes[j].id
  }

  predicate NodesFine(cat: Catalog, nodes: seq<Node>) {
    && Distinct(nodes)
    && (forall n | n in nodes :: NodeFine(cat, n))
  }

  predicate OnlyTrigger(nodes: seq<Node>, k: nat) {
    && k < |nodes| && IsTrigger(nodes[k])
    && (forall i | 0 <= i < |nodes| && i != k :: !IsTrigger(nodes[i]))
  }

  predicate EdgeFine(cat: Catalog, nodes: seq<Node>, t: Json, e: Edge) {
    && IsSid(e.source) && IsSid(e.target) && HasNode(nodes, e.source) && HasNode(nodes, e.target)
    && e.target != t && BranchFine(cat, NodeAt(nodes, e.source).value, e.branch)
  }

  ghost predicate GraphFine(cat: Catalog, nodes: seq<Node>, edges: seq<Edge>, k: nat) {
    && OnlyTrigger(nodes, k)
    && (forall e | e in edges :: EdgeFine(cat, nodes, nodes[k].id, e))
    && (forall n | n in nodes :: FromTrigger(SidsOf(nodes), edges, nodes[k].id, n.id))
  }

  ghost predicate RefFine(cat: Catalog, nodes: seq<Node>, edges: seq<Edge>, n: Node, body: string) {
    match ParseRef(body)
    case None => false
    case Some(r) =>
      && Str(r.target) != n.id && Str(r.target) in SidsOf(nodes)
      && Upstream(SidsOf(nodes), edges, Str(r.target), n.id)
      && OutputKnown(cat, LastWith(nodes, Str(r.target)), r.path)
  }

  /** Every string of a field in use: its braces close, and each reference in it is fine. */
  ghost predicate StringFine(cat: Catalog, nodes: seq<Node>, edges: seq<Edge>, n: Node, leaf: Leaf) {
    Contains(leaf.text, "{{") && !InUnused(cat, n, leaf.loc) ==>
      && !LeftOpen(leaf.text)
      && (forall i: nat, k: nat | BodyAt(leaf.text, i, k) :: RefFine(cat, nodes, edges, n, leaf.text[i + 2..k]))
  }

  ghost predicate RefsFine(cat: Catalog, nodes: seq<Node>, edges: seq<Edge>, n: Node) {
    n.config.Obj? ==>
      forall leaf | leaf in Leaves("config", n.config, false) :: StringFine(cat, nodes, edges, n, leaf)
  }

  ghost predicate WellFormed(cat: Catalog, nodes: seq<Node>, edges: seq<Edge>) {
    && nodes != []
    && NodesFine(cat, nodes)
    && (exists k: nat :: GraphFine(cat, nodes, edges, k))
    && (forall n | n in nodes :: OwnPartFine(cat, nodes, edges, n))
  }

  /** Catalog paths are far shorter than a cut location (the longest has 41 characters). */
  ghost predicate ShortPaths(cat: Catalog) {
    forall n: Node, f | f in FieldsOf(cat, n) :: |f.path| < MAX_LOC
  }

  // ----- the proof, part by part

  predicate NodeFine(cat: Catalog, n: Node) {
    IsSid(n.id) && IsSid(n.typ) && (IsTrigger(n) ==> cat.cronErrors(n) == [])
  }

  lemma NodeFindingsEmpty(cat: Catalog, before: seq<Node>, n: Node)
    ensures NodeFindings(cat, before, n) == [] <==> NodeFine(cat, n) && !HasNode(before, n.id)
  {
    hide Upper, Clip;
  }

  /** One node more is fine if it is fine by itself and its id is new. */
  lemma NodesFineSnoc(cat: Catalog, init: seq<Node>, last: Node)
    ensures NodesFine(cat, init + [last]) <==> NodesFine(cat, init) && NodeFine(cat, last) && !HasNode(init, last.id)
  {
    hide NodeFine, NodeAt;
    var nodes := init + [last];
    assert forall i | 0 <= i < |init| :: nodes[i] == init[i] && init[i] in init;
    assert nodes[|init|] == last;
    assert HasNode(init, last.id) ==> NodeAt(init, last.id).value in init;
    if NodesFine(cat, nodes) {
      forall n | n in init ensures NodeFine(cat, n) && n.id != last.id {
        assert n in nodes;
        var i :| 0 <= i < |init| && init[i] == n;
        assert nodes[i].id != nodes[|init|].id;
      }
    }
  }

  lemma {:induction false} NodesFindingsEmpty(cat: Catalog, nodes: seq<Node>)
    ensures NodesFindings(cat, nodes) == [] <==> NodesFine(cat, nodes)
  {
    if nodes != [] {
      hide NodesFine, NodeFine, NodeFindings, NodeAt;
      var init, last := nodes[..|nodes| - 1], nodes[|nodes| - 1];
      assert nodes == init + [last];
      NodesFindingsEmpty(cat, init);
      NodeFindingsEmpty(cat, init, last);
      NodesFineSnoc(cat, init, last);
    }
  }

  predicate NoTrigger(nodes: seq<Node>) {
    forall i | 0 <= i < |nodes| :: !IsTrigger(nodes[i])
  }

  lemma OnlyTriggerSnoc(init: seq<Node>, last: Node, k: nat)
    ensures OnlyTrigger(init + [last], k) <==>
      if IsTrigger(last) then k == |init| && NoTrigger(init) else OnlyTrigger(init, k)
  {
    hide IsTrigger;
    var nodes := init + [last];
    assert forall i | 0 <= i < |init| :: nodes[i] == init[i];
    assert nodes[|init|] == last;
  }

  lemma {:induction false} TriggersCounted(nodes: seq<Node>)
    ensures |TriggersOf(nodes)| == 0 <==> NoTrigger(nodes)
    ensures |TriggersOf(nodes)| == 1 <==> exists k: nat :: OnlyTrigger(nodes, k)
    ensures forall k: nat :: OnlyTrigger(nodes, k) ==> TriggersOf(nodes) == [nodes[k]]
  {
    if nodes != [] {
      var init, last := nodes[..|nodes| - 1], nodes[|nodes| - 1];
      assert nodes == init + [last];
      TriggersCounted(init);
      forall k: nat ensures OnlyTrigger(nodes, k) <==>
        if IsTrigger(last) then k == |init| && NoTrigger(init) else OnlyTrigger(init, k)
      {
        OnlyTriggerSnoc(init, last, k);
      }
      assert NoTrigger(nodes) <==> NoTrigger(init) && !IsTrigger(last) by {
        assert forall i | 0 <= i < |init| :: nodes[i] == init[i];
      }
      assert forall k: nat | OnlyTrigger(init, k) :: nodes[k] == init[k];
      hide OnlyTrigger, IsTrigger, NoTrigger;
    }
  }

  lemma {:induction false} EdgesFindingsEmpty(cat: Catalog, nodes: seq<Node>, t: Json, edges: seq<Edge>)
    ensures EdgesFindings(cat, nodes, Some(t), edges) == [] <==> forall e | e in edges :: EdgeFine(cat, nodes, t, e)
  {
    if edges != [] {
      hide BranchFine, BranchFindings;
      var init, last := edges[..|edges| - 1], edges[|edges| - 1];
      EdgesFindingsEmpty(cat, nodes, t, init);
      assert edges == init + [last];
      EdgeFindingsEmpty(cat, nodes, t, last, |init|);
    }
  }

  lemma EdgeFindingsEmpty(cat: Catalog, nodes: seq<Node>, t: Json, e: Edge, idx: nat)
    ensures EdgeFindings(cat, nodes, Some(t), e, idx) == [] <==> EdgeFine(cat, nodes, t, e)
  {
  }

  lemma {:induction false} OrphansEmpty(ids: set<Json>, edges: seq<Edge>, t: Json, nodes: seq<Node>)
    ensures OrphanFindings(ids, edges, t, nodes) == [] <==>
      forall n | n in nodes && IsSid(n.id) :: FromTrigger(ids, edges, t, n.id)
  {
    if nodes != [] {
      hide FromTrigger;
      var init, last := nodes[..|nodes| - 1], nodes[|nodes| - 1];
      OrphansEmpty(ids, edges, t, init);
      assert nodes == init + [last];
    }
  }

  lemma OnlyOneTrigger(nodes: seq<Node>, j: nat, k: nat)
    requires OnlyTrigger(nodes, j) && OnlyTrigger(nodes, k)
    ensures j == k
  {
    hide IsTrigger;
  }

  /** With nodes in order and k the only trigger, the rest of the pass is about edges and orphans. */
  lemma GraphEmptyAt(cat: Catalog, nodes: seq<Node>, edges: seq<Edge>, k: nat)
    requires nodes != [] && NodesFine(cat, nodes) && OnlyTrigger(nodes, k)
    ensures GraphFindings(cat, nodes, edges) == [] <==> GraphFine(cat, nodes, edges, k)
  {
    NodesFindingsEmpty(cat, nodes);
    PassWithTrigger(cat, nodes, edges, k);
    NoOrphans(cat, nodes, SidsOf(nodes), edges, nodes[k].id);
    hide EdgeFine, EdgesFindings, FromTrigger, OrphanFindings, NodesFindings, NodesFine, SidsOf, OnlyTrigger,
      GraphFindings, IsSid;
    EdgesFindingsEmpty(cat, nodes, nodes[k].id, edges);
  }

  lemma NoOrphans(cat: Catalog, nodes: seq<Node>, ids: set<Json>, edges: seq<Edge>, t: Json)
    requires NodesFine(cat, nodes)
    ensures OrphanFindings(ids, edges, t, nodes) == [] <==> forall n | n in nodes :: FromTrigger(ids, edges, t, n.id)
  {
    assert forall n | n in nodes :: NodeFine(cat, n);
    OrphansEmpty(ids, edges, t, nodes);
    hide IsTrigger, FromTrigger, OrphanFindings;
  }

  lemma PassWithTrigger(cat: Catalog, nodes: seq<Node>, edges: seq<Edge>, k: nat)
    requires OnlyTrigger(nodes, k)
    ensures GraphFindings(cat, nodes, edges) == NodesFindings(cat, nodes)
      + EdgesFindings(cat, nodes, Some(nodes[k].id), edges) + OrphanFindings(SidsOf(nodes), edges, nodes[k].id, nodes)
  {
    TriggersCounted(nodes);
    hide TriggersOf, EdgesFindings, OrphanFindings, NodesFindings, SidsOf;
  }

  lemma GraphEmpty(cat: Catalog, nodes: seq<Node>, edges: seq<Edge>)
    ensures GraphFindings(cat, nodes, edges) == []
      <==> nodes != [] && NodesFine(cat, nodes) && exists k: nat :: GraphFine(cat, nodes, edges, k)
  {
    if nodes != [] {
      NodesFindingsEmpty(cat, nodes);
      TriggersCounted(nodes);
      hide EdgesFindings, OrphanFindings, TriggersOf, NodesFindings, SidsOf, NodesFine, OnlyTrigger, EdgeFine,
        FromTrigger;
      if NodesFine(cat, nodes) && exists k: nat :: OnlyTrigger(nodes, k) {
        var k: nat :| OnlyTrigger(nodes, k);
        GraphEmptyAt(cat, nodes, edges, k);
        forall j: nat | GraphFine(cat, nodes, edges, j) ensures j == k {
          OnlyOneTrigger(nodes, j, k);
        }
      }
    }
  }

  lemma BodyEmpty(cat: Catalog, nodes: seq<Node>, edges: seq<Edge>, n: Node, field: Option<string>, body: string)
    ensures BodyFindings(cat, nodes, edges, n, field, body) == [] <==> RefFine(cat, nodes, edges, n, body)
  {
    hide ParseRef, Upstream, OutputKnown, Clip, UpToDot, SidsOf;
  }

  lemma BodiesSnoc(
    cat: Catalog, nodes: seq<Node>, edges: seq<Edge>, n: Node, field: Option<string>, init: seq<string>, last: string)
    ensures BodiesFindings(cat, nodes, edges, n, field, init + [last]) ==
      BodiesFindings(cat, nodes, edges, n, field, init) + BodyFindings(cat, nodes, edges, n, field, last)
  {
    hide BodyFindings;
    assert (init + [last])[..|init|] == init;
  }

  lemma {:induction false} BodiesEmpty(
    cat: Catalog, nodes: seq<Node>, edges: seq<Edge>, n: Node, field: Option<string>, bodies: seq<string>)
    ensures BodiesFindings(cat, nodes, edges, n, field, bodies) == []
      <==> forall body | body in bodies :: RefFine(cat, nodes, edges, n, body)
  {
    if bodies != [] {
      hide *;
      var init, last := bodies[..|bodies| - 1], bodies[|bodies| - 1];
      assert bodies == init + [last];
      BodiesEmpty(cat, nodes, edges, n, field, init);
      BodiesSnoc(cat, nodes, edges, n, field, init, last);
      BodyEmpty(cat, nodes, edges, n, field, last);
    }
  }

  lemma AllBodiesFine(cat: Catalog, nodes: seq<Node>, edges: seq<Edge>, n: Node, text: string)
    ensures (forall body | body in Bodies(text, 0) :: RefFine(cat, nodes, edges, n, body))
      <==> (forall i: nat, k: nat | BodyAt(text, i, k) :: RefFine(cat, nodes, edges, n, text[i + 2..k]))
  {
    hide Bodies, RefFine, At;
    forall body { BodiesExact(text, body); }
  }

  lemma LeafEmpty(cat: Catalog, nodes: seq<Node>, edges: seq<Edge>, n: Node, leaf: Leaf)
    ensures LeafFindings(cat, nodes, edges, n, leaf) == [] <==> StringFine(cat, nodes, edges, n, leaf)
  {
    hide Contains, InUnused, Unclosed, Bodies, BodyAt, LeftOpen, RefFine, BodiesFindings, FieldNamed;
    UnclosedExact(leaf.text);
    AllBodiesFine(cat, nodes, edges, n, leaf.text);
    BodiesEmpty(cat, nodes, edges, n, FieldNamed(cat, n, leaf.loc), Bodies(leaf.text, 0));
  }

  lemma {:induction false} LeavesEmpty(cat: Catalog, nodes: seq<Node>, edges: seq<Edge>, n: Node, leaves: seq<Leaf>)
    ensures LeavesFindings(cat, nodes, edges, n, leaves) == []
      <==> forall leaf | leaf in leaves :: StringFine(cat, nodes, edges, n, leaf)
  {
    if leaves != [] {
      hide StringFine, LeafFindings;
      var init, last := leaves[..|leaves| - 1], leaves[|leaves| - 1];
      LeavesEmpty(cat, nodes, edges, n, init);
      assert leaves == init + [last];
      LeafEmpty(cat, nodes, edges, n, last);
    }
  }

  lemma UnusedSurvivesCut(cat: Catalog, n: Node, loc: string)
    requires ShortPaths(cat)
    ensures InUnused(cat, n, Clipped(loc, MAX_LOC)) <==> InUnused(cat, n, loc)
  {
    hide Owns, UnusedField;
    forall f, p | f in FieldsOf(cat, n) && (p == f.path || p in AliasOf(f.path))
      ensures Owns(p, Clipped(loc, MAX_LOC)) <==> Owns(p, loc)
    {
      OwnershipSurvivesCut(p, loc);
    }
  }

  lemma RefsEmpty(cat: Catalog, nodes: seq<Node>, edges: seq<Edge>, n: Node)
    requires ShortPaths(cat) && IsSid(n.id)
    ensures RefFindings(cat, nodes, edges, n) == [] <==> RefsFine(cat, nodes, edges, n)
  {
    if n.config.Obj? {
      var full, cut := Leaves("config", n.config, false), Leaves("config", n.config, true);
      CutLeaves("config", n.config);
      assert Clipped("config", MAX_LOC) == "config";
      LeavesEmpty(cat, nodes, edges, n, cut);
      hide Contains, InUnused, Unclosed, Bodies, RefFine, Leaves, LeavesFindings;
      forall i | 0 <= i < |full|
        ensures StringFine(cat, nodes, edges, n, full[i]) <==> StringFine(cat, nodes, edges, n, cut[i])
      {
        UnusedSurvivesCut(cat, n, full[i].loc);
      }
      if forall leaf | leaf in full :: StringFine(cat, nodes, edges, n, leaf) {
        forall leaf | leaf in cut ensures StringFine(cat, nodes, edges, n, leaf) {
          var i :| 0 <= i < |cut| && cut[i] == leaf;
          assert full[i] in full;
        }
      }
      if forall leaf | leaf in cut :: StringFine(cat, nodes, edges, n, leaf) {
        forall leaf | leaf in full ensures StringFine(cat, nodes, edges, n, leaf) {
          var i :| 0 <= i < |full| && full[i] == leaf;
          assert cut[i] in cut;
        }
      }
    }
  }

  lemma {:induction false} LaterEmpty(cat: Catalog, nodes: seq<Node>, edges: seq<Edge>, k: nat)
    requires ShortPaths(cat) && k <= |nodes| && forall i | 0 <= i < |nodes| :: IsSid(nodes[i].id)
    ensures Later(cat, nodes, edges, k) == [] <==> OwnPartsFine(cat, nodes, edges, k)
  {
    hide RefFindings, RefsFine, ShortPaths, IsSid, OwnPartFine;
    if k > 0 {
      LaterEmpty(cat, nodes, edges, k - 1);
      OwnPartEmpty(cat, nodes, edges, nodes[k - 1]);
    }
  }

  ghost predicate OwnPartsFine(cat: Catalog, nodes: seq<Node>, edges: seq<Edge>, k: nat)
    requires k <= |nodes|
  {
    k == 0 || (OwnPartsFine(cat, nodes, edges, k - 1) && OwnPartFine(cat, nodes, edges, nodes[k - 1]))
  }

  lemma {:induction false} OwnPartsAre(cat: Catalog, nodes: seq<Node>, edges: seq<Edge>, k: nat)
    requires k <= |nodes|
    ensures OwnPartsFine(cat, nodes, edges, k) <==> forall i | 0 <= i < k :: OwnPartFine(cat, nodes, edges, nodes[i])
  {
    hide OwnPartFine;
    if k > 0 { OwnPartsAre(cat, nodes, edges, k - 1); }
  }

  lemma OwnPartEmpty(cat: Catalog, nodes: seq<Node>, edges: seq<Edge>, n: Node)
    requires ShortPaths(cat) && IsSid(n.id)
    ensures cat.fieldErrors(n) == [] && RefFindings(cat, nodes, edges, n) == [] <==> OwnPartFine(cat, nodes, edges, n)
  {
    hide RefFindings, RefsFine, ShortPaths, IsSid;
    RefsEmpty(cat, nodes, edges, n);
  }

  ghost predicate OwnPartFine(cat: Catalog, nodes: seq<Node>, edges: seq<Edge>, n: Node) {
    cat.fieldErrors(n) == [] && RefsFine(cat, nodes, edges, n)
  }

  lemma StreamEmpty(cat: Catalog, nodes: seq<Node>, edges: seq<Edge>)
    requires ShortPaths(cat)
    ensures Stream(cat, nodes, edges) == [] <==> WellFormed(cat, nodes, edges)
  {
    hide GraphFindings, GraphFine, Later, OwnPartFine, ShortPaths, NodeFine, OwnPartsFine;
    GraphEmpty(cat, nodes, edges);
    if NodesFine(cat, nodes) {
      AllSids(cat, nodes);
      LaterEmpty(cat, nodes, edges, |nodes|);
      OwnPartsAre(cat, nodes, edges, |nodes|);
      assert forall i | 0 <= i < |nodes| :: nodes[i] in nodes;
    }
  }

  lemma AllSids(cat: Catalog, nodes: seq<Node>)
    requires NodesFine(cat, nodes)
    ensures forall i | 0 <= i < |nodes| :: IsSid(nodes[i].id)
  {
    assert forall i | 0 <= i < |nodes| :: nodes[i] in nodes && NodeFine(cat, nodes[i]);
  }

  /** No findings means exactly: small enough, and well formed. */
  lemma NoFindingsMeansWellFormed(cat: Catalog, nodes: seq<Option<Node>>, edges: seq<Option<Edge>>)
    requires ShortPaths(cat)
    ensures Validate(cat, nodes, edges) == []
      <==> |nodes| <= MAX_NODES && |edges| <= MAX_EDGES && WellFormed(cat, Objects(nodes), Objects(edges))
  {
    hide Stream, WellFormed, ShortPaths, Kept, Collected, Objects;
    KeptEmpty(cat.size, Stream(cat, Objects(nodes), Objects(edges)));
    StreamEmpty(cat, Objects(nodes), Objects(edges));
  }

  lemma KeptEmpty(size: Error -> nat, stream: seq<Error>)
    ensures Kept(size, stream) == [] <==> stream == []
  {
  }
}
