/**
 * What every finding says, and of what: the code, the node, the field and the values shown, for each
 * pass of the validator, told apart from the way the passes run.
 */
module ValidatorLaws {
  import opened Wrappers
  import opened Text
  import opened Json
  import opened Workflow
  import opened Flow
  import opened ConfigStrings
  import opened Collector
  import opened Validator
  import Paths

  /** A value a message shows is cut to 80 characters. */
  lemma ClipIs(s: string)
    ensures |s| <= 80 ==> Clip(s) == s
    ensures |s| > 80 ==> Clip(s) == s[..80] + "…"
  {
  }

  function NodeId(id: Json): Option<string> {
    if id.Str? then Some(Clip(id.s)) else None
  }

  // ----- nodes

  predicate CountsAsTrigger(n: Node) {
    n.id.Str? && n.id.s != "" && n.typ.Str? && n.typ.s != "" && Upper(n.typ.s) == "TRIGGER"
  }

  /** What is found about node i by itself: no id, an id used before, no type, the cron of a trigger. */
  predicate SaidOfNode(cat: Catalog, nodes: seq<Node>, i: nat, e: Error)
    requires i < |nodes|
  {
    var n := nodes[i];
    if !IsSid(n.id) then e == Error(None, None, EDGE_INVALID, [Str("no id"), Int(i + 1)])
    else
      || ((exists j | 0 <= j < i :: nodes[j].id == n.id)
          && e == Error(NodeId(n.id), None, EDGE_INVALID, [Str("id repeated"), Str(Clip(n.id.s))]))
      || (!IsSid(n.typ) && e == Error(NodeId(n.id), None, EDGE_INVALID, [Str("no type"), Str(Clip(n.id.s))]))
      || (CountsAsTrigger(n) && e in cat.cronErrors(n))
  }

  lemma SaidOfLast(cat: Catalog, before: seq<Node>, n: Node, e: Error)
    ensures e in NodeFindings(cat, before, n) <==> SaidOfNode(cat, before + [n], |before|, e)
  {
    var nodes := before + [n];
    assert HasNode(before, n.id) <==> exists j | 0 <= j < |before| :: nodes[j].id == n.id by {
      if HasNode(before, n.id) {
        var j :| 0 <= j < |before| && before[j] == NodeAt(before, n.id).value;
        assert nodes[j].id == n.id;
      }
      if j :| 0 <= j < |before| && nodes[j].id == n.id {
        assert before[j] in before;
      }
    }
    hide NodeAt, Upper, Clip;
  }

  lemma SaidOfSame(cat: Catalog, before: seq<Node>, n: Node, i: nat, e: Error)
    requires i < |before|
    ensures SaidOfNode(cat, before + [n], i, e) <==> SaidOfNode(cat, before, i, e)
  {
    assert forall j | 0 <= j <= i :: (before + [n])[j] == before[j];
    hide IsSid, CountsAsTrigger, Clip;
  }

  lemma {:induction false} NodesSaid(cat: Catalog, nodes: seq<Node>, e: Error)
    ensures e in NodesFindings(cat, nodes) <==> exists i: nat :: i < |nodes| && SaidOfNode(cat, nodes, i, e)
  {
    hide SaidOfNode, NodeFindings;
    if nodes != [] {
      var init, last := nodes[..|nodes| - 1], nodes[|nodes| - 1];
      assert nodes == init + [last];
      NodesSaid(cat, init, e);
      SaidOfLast(cat, init, last, e);
      forall i: nat | i < |init| ensures SaidOfNode(cat, nodes, i, e) <==> SaidOfNode(cat, init, i, e) {
        SaidOfSame(cat, init, last, i, e);
      }
    }
  }

  // ----- edges

  /** The branch value is none that the condition node at the source offers. */
  predicate BranchRefused(cat: Catalog, source: Node, branch: Json) {
    && cat.entry(source).Some? && cat.entry(source).value.nodeType == "CONDITION"
    && !(branch.Str? && Offers(source, branch.s))
  }

  /** The values a condition node offers: the keys of its branches and else, unless it stops; or true and false. */
  predicate Offers(n: Node, v: string) {
    var branches := Get(n.config, "branches");
    if branches in {Null, Str(""), Arr([])} then v == "true" || v == "false"
    else
      || (v != "" && branches.Arr? && exists b :: b in branches.items && Get(b, "key") == Str(v))
      || (v == "else" && Get(n.config, "otherwise") != Str("stop"))
  }

  lemma {:induction false} KeysAre(branches: seq<Json>, v: string)
    ensures v in Workflow.BranchKeys(branches) <==> v != "" && exists b :: b in branches && Get(b, "key") == Str(v)
  {
    if branches != [] {
      KeysAre(branches[1..], v);
      assert branches == [branches[0]] + branches[1..];
    }
  }

  lemma OffersAre(n: Node, v: string)
    ensures v in AllowedBranches(n) <==> Offers(n, v)
  {
    var branches := Get(n.config, "branches");
    if branches.Arr? { KeysAre(branches.items, v); }
    hide Get, Workflow.BranchKeys;
  }

  /** What is found about edge i: an end missing or unknown, the trigger as its target, its branch value. */
  predicate SaidOfEdge(cat: Catalog, nodes: seq<Node>, trigger: Option<Json>, i: nat, edge: Edge, e: Error) {
    var known := IsSid(edge.source) && IsSid(edge.target) && HasNode(nodes, edge.source) && HasNode(nodes, edge.target);
    || ((!IsSid(edge.source) || !IsSid(edge.target))
        && e == Error(None, None, EDGE_INVALID, [Str("no end"), Int(i + 1)]))
    || (IsSid(edge.source) && IsSid(edge.target) && !known
        && var missing := if HasNode(nodes, edge.source) then edge.target else edge.source;
        e == Error(None, None, EDGE_INVALID,
                   [Str("unknown end"), Str(Clip(edge.source.s)), Str(Clip(edge.target.s)), Str(Clip(missing.s))]))
    || (known && trigger == Some(edge.target)
        && e == Error(NodeId(edge.target), None, EDGE_INVALID, [Str("into trigger")]))
    || (known && BranchRefused(cat, NodeAt(nodes, edge.source).value, edge.branch)
        && var source := NodeAt(nodes, edge.source).value;
        var stopped := && Get(source.config, "branches") !in {Null, Str(""), Arr([])}
          && Get(source.config, "otherwise") == Str("stop") && edge.branch == Str("else");
        e == Error(NodeId(edge.source), None, EDGE_INVALID,
                   [Str("branch"), Str(Clip(edge.source.s)), Str(Clip(edge.target.s)),
                    if edge.branch.Str? then Str(Clip(edge.branch.s)) else edge.branch, Bool(stopped)]))
  }

  lemma EdgeSaid(cat: Catalog, nodes: seq<Node>, trigger: Option<Json>, edge: Edge, i: nat, e: Error)
    ensures e in EdgeFindings(cat, nodes, trigger, edge, i) <==> SaidOfEdge(cat, nodes, trigger, i, edge, e)
  {
    hide Clip, NodeAt, SidsOf, AllowedBranches, Offers, Get;
    var source := NodeAt(nodes, edge.source);
    if source.Some? && edge.branch.Str? { OffersAre(source.value, edge.branch.s); }
  }

  lemma {:induction false} EdgesSaid(cat: Catalog, nodes: seq<Node>, trigger: Option<Json>, edges: seq<Edge>, e: Error)
    ensures e in EdgesFindings(cat, nodes, trigger, edges)
      <==> exists i: nat :: i < |edges| && SaidOfEdge(cat, nodes, trigger, i, edges[i], e)
  {
    hide SaidOfEdge, EdgeFindings;
    if edges != [] {
      var init, last := edges[..|edges| - 1], edges[|edges| - 1];
      EdgesSaid(cat, nodes, trigger, init, e);
      EdgeSaid(cat, nodes, trigger, last, |init|, e);
      assert forall i | 0 <= i < |init| :: init[i] == edges[i];
    }
  }

  // ----- orphans

  /** No path leads from t to the node, and e names it. */
  ghost predicate Stray(ids: set<Json>, edges: seq<Edge>, t: Json, n: Node, e: Error) {
    && IsSid(n.id) && n.id != t && !Upstream(ids, edges, t, n.id)
    && e == Error(Some(Clip(n.id.s)), None, ORPHAN_NODE, [])
  }

  /** Exactly the nodes without a path from the trigger are named, each with its own id. */
  lemma {:induction false} OrphansSaid(ids: set<Json>, edges: seq<Edge>, t: Json, nodes: seq<Node>, e: Error)
    ensures e in OrphanFindings(ids, edges, t, nodes) <==>
      exists n :: n in nodes && Stray(ids, edges, t, n, e)
  {
    hide Upstream, Clip;
    if nodes != [] {
      var init, last := nodes[..|nodes| - 1], nodes[|nodes| - 1];
      OrphansSaid(ids, edges, t, init, e);
      assert nodes == init + [last];
      assert Stray(ids, edges, t, last, e) <==>
        IsSid(last.id) && !FromTrigger(ids, edges, t, last.id) && e == Finding(ORPHAN_NODE, [], last.id, None);
      hide Stray, FromTrigger, Finding;
    }
  }

  // ----- the whole graph pass

  ghost predicate TriggerAt(nodes: seq<Node>, k: nat) {
    && k < |nodes| && CountsAsTrigger(nodes[k])
    && forall i | 0 <= i < |nodes| && i != k :: !CountsAsTrigger(nodes[i])
  }

  function Triggers(nodes: seq<Node>): set<nat> {
    set k: nat | k < |nodes| && CountsAsTrigger(nodes[k])
  }

  lemma {:induction false} TriggersAre(nodes: seq<Node>)
    ensures |TriggersOf(nodes)| == |Triggers(nodes)|
  {
    if nodes != [] {
      var init, last := nodes[..|nodes| - 1], nodes[|nodes| - 1];
      assert nodes == init + [last];
      TriggersAre(init);
      OneTriggerMore(init, last);
      SameTrigger(last);
      hide CountsAsTrigger, Triggers;
    }
  }

  lemma SameTrigger(n: Node)
    ensures IsTrigger(n) <==> CountsAsTrigger(n)
  {
    hide Upper;
  }

  lemma OneTriggerMore(init: seq<Node>, last: Node)
    ensures Triggers(init + [last]) == Triggers(init) + (if CountsAsTrigger(last) then {|init|} else {})
    ensures |init| !in Triggers(init)
  {
    hide CountsAsTrigger;
    var nodes := init + [last];
    assert forall k: nat | k < |init| :: nodes[k] == init[k];
    assert nodes[|init|] == last;
  }

  lemma TheTriggerIs(nodes: seq<Node>)
    ensures TheTrigger(nodes).Some? ==> exists k: nat :: TriggerAt(nodes, k) && TheTrigger(nodes) == Some(nodes[k].id)
    ensures forall k: nat | TriggerAt(nodes, k) :: TheTrigger(nodes) == Some(nodes[k].id)
  {
    TriggersCounted(nodes);
    forall k: nat ensures TriggerAt(nodes, k) <==> OnlyTrigger(nodes, k) {
      assert forall i | 0 <= i < |nodes| :: IsTrigger(nodes[i]) <==> CountsAsTrigger(nodes[i]) by { hide Upper; }
    }
    hide TriggersOf, CountsAsTrigger, OnlyTrigger, TriggerAt;
  }

  /** What the graph pass says of the whole: no node at all, or not one trigger. */
  predicate SaidOfGraph(nodes: seq<Node>, e: Error) {
    if nodes == [] then e == Error(None, None, TRIGGER_COUNT, [])
    else |Triggers(nodes)| != 1 && e == Error(None, None, TRIGGER_COUNT, [Int(|Triggers(nodes)|)])
  }

  ghost predicate SaidOfOrphan(nodes: seq<Node>, edges: seq<Edge>, n: Node, e: Error) {
    n in nodes && exists k: nat :: TriggerAt(nodes, k) && Stray(SidsOf(nodes), edges, nodes[k].id, n, e)
  }

  ghost predicate SaidByGraph(cat: Catalog, nodes: seq<Node>, edges: seq<Edge>, e: Error) {
    || (exists i: nat :: i < |nodes| && SaidOfNode(cat, nodes, i, e))
    || SaidOfGraph(nodes, e)
    || (nodes != [] && exists i: nat :: i < |edges| && SaidOfEdge(cat, nodes, TheTrigger(nodes), i, edges[i], e))
    || (exists n :: SaidOfOrphan(nodes, edges, n, e))
  }

  lemma OrphanSaid(nodes: seq<Node>, edges: seq<Edge>, e: Error)
    ensures (exists n :: SaidOfOrphan(nodes, edges, n, e)) <==>
      TheTrigger(nodes).Some? && e in OrphanFindings(SidsOf(nodes), edges, TheTrigger(nodes).value, nodes)
  {
    hide OrphanFindings, Stray, SidsOf, CountsAsTrigger, TheTrigger;
    TheTriggerIs(nodes);
    if TheTrigger(nodes).Some? {
      var t := TheTrigger(nodes).value;
      OrphansSaid(SidsOf(nodes), edges, t, nodes, e);
      var k: nat :| TriggerAt(nodes, k) && TheTrigger(nodes) == Some(nodes[k].id);
      if n :| n in nodes && Stray(SidsOf(nodes), edges, t, n, e) {
        assert SaidOfOrphan(nodes, edges, n, e);
      }
    }
  }

  lemma InGraphFindings(cat: Catalog, nodes: seq<Node>, edges: seq<Edge>, e: Error)
    requires nodes != []
    ensures e in GraphFindings(cat, nodes, edges) <==>
      || e in NodesFindings(cat, nodes)
      || SaidOfGraph(nodes, e)
      || e in EdgesFindings(cat, nodes, TheTrigger(nodes), edges)
      || (TheTrigger(nodes).Some? && e in OrphanFindings(SidsOf(nodes), edges, TheTrigger(nodes).value, nodes))
  {
    TriggersAre(nodes);
    hide NodesFindings, EdgesFindings, OrphanFindings, TriggersOf, Triggers, SidsOf, Clip;
  }

  /** The findings of the graph pass are exactly these. */
  lemma GraphSays(cat: Catalog, nodes: seq<Node>, edges: seq<Edge>, e: Error)
    ensures e in GraphFindings(cat, nodes, edges) <==> SaidByGraph(cat, nodes, edges, e)
  {
    hide NodesFindings, EdgesFindings, OrphanFindings, SaidOfNode, SaidOfEdge, SaidOfOrphan, TriggersOf, Triggers,
      SidsOf, TheTrigger, GraphFindings;
    NodesSaid(cat, nodes, e);
    EdgesSaid(cat, nodes, TheTrigger(nodes), edges, e);
    OrphanSaid(nodes, edges, e);
    if nodes == [] {
      NoNodes(cat, edges, e);
    } else {
      InGraphFindings(cat, nodes, edges, e);
    }
  }

  lemma NoNodes(cat: Catalog, edges: seq<Edge>, e: Error)
    ensures GraphFindings(cat, [], edges) == [Error(None, None, TRIGGER_COUNT, [])]
    ensures !(exists n :: SaidOfOrphan([], edges, n, e))
  {
  }

  /**
   * The order: what is said of nodes, then of the number of triggers, then of edges, then of orphans;
   * and within each part by place, for what is said of the first nodes or edges comes first.
   */
  lemma GraphOrder(cat: Catalog, nodes: seq<Node>, edges: seq<Edge>, more: seq<Node>, moreEdges: seq<Edge>)
    requires nodes != []
    ensures exists count: seq<Error> :: |count| <= 1 && InParts(cat, nodes, edges, count)
    ensures NodesFindings(cat, nodes) <= NodesFindings(cat, nodes + more)
    ensures forall trigger ::
      EdgesFindings(cat, nodes, trigger, edges) <= EdgesFindings(cat, nodes, trigger, edges + moreEdges)
  {
    hide NodeFindings, EdgeFindings;
    GrowingNodes(cat, nodes, more);
    forall trigger { GrowingEdges(cat, nodes, trigger, edges, moreEdges); }
    var trigger := TheTrigger(nodes);
    var count := if trigger.None? then [Finding(TRIGGER_COUNT, [Int(|TriggersOf(nodes)|)], Null, None)] else [];
    hide NodesFindings, EdgesFindings, OrphanFindings, TriggersOf, SidsOf;
    assert InParts(cat, nodes, edges, count);
  }

  ghost predicate InParts(cat: Catalog, nodes: seq<Node>, edges: seq<Edge>, count: seq<Error>) {
    var trigger := TheTrigger(nodes);
    var orphans := match trigger case None => [] case Some(t) => OrphanFindings(SidsOf(nodes), edges, t, nodes);
    && (forall e | e in count :: e.code == TRIGGER_COUNT)
    && GraphFindings(cat, nodes, edges) ==
       NodesFindings(cat, nodes) + count + EdgesFindings(cat, nodes, trigger, edges) + orphans
  }

  lemma {:induction false} GrowingNodes(cat: Catalog, nodes: seq<Node>, more: seq<Node>)
    ensures NodesFindings(cat, nodes) <= NodesFindings(cat, nodes + more)
  {
    hide NodeFindings;
    if more == [] {
      assert nodes + more == nodes;
    } else {
      GrowingNodes(cat, nodes, more[..|more| - 1]);
      assert (nodes + more)[..|nodes + more| - 1] == nodes + more[..|more| - 1];
    }
  }

  lemma {:induction false} GrowingEdges(
    cat: Catalog, nodes: seq<Node>, trigger: Option<Json>, edges: seq<Edge>, more: seq<Edge>)
    ensures EdgesFindings(cat, nodes, trigger, edges) <= EdgesFindings(cat, nodes, trigger, edges + more)
  {
    hide EdgeFindings;
    if more == [] {
      assert edges + more == edges;
    } else {
      GrowingEdges(cat, nodes, trigger, edges, more[..|more| - 1]);
      assert (edges + more)[..|edges + more| - 1] == edges + more[..|more| - 1];
    }
  }

  // ----- which strings are looked at, and which field they belong to

  /**
   * The executor does not read the field: the old condition fields beside branches, the right side of
   * an operator that has none, the address of a request that goes to a stored webhook.
   */
  predicate NotRead(entry: Entry, n: Node, path: string) {
    || (entry.nodeType == "CONDITION" && path in {"config.operator", "config.left", "config.right"}
        && Get(n.config, "branches") !in {Null, Str(""), Arr([])})
    || (entry.nodeType == "CONDITION" && path == "config.right"
        && Get(n.config, "operator") in {Str("isEmpty"), Str("isNotEmpty"), Str("isTrue"), Str("isFalse")})
    || (entry.nodeType == "HTTP" && path == "config.url" && Filled(Get(n.config, "webhookCredentialId")))
  }

  lemma UnusedIs(entry: Entry, n: Node, path: string)
    ensures UnusedField(entry, n, path) <==> NotRead(entry, n, path)
  {
    hide Get, Filled;
    var operator := Get(n.config, "operator");
    if operator.Str? { assert operator == Str(operator.s); }
  }

  predicate Inside(path: string, loc: string) {
    loc == path || StartsWith(loc, path + ".")
  }

  /** The older spelling of a field, which the executor reads where the field is missing. */
  function OlderName(path: string): Option<string> {
    if path == "config.left" then Some("config.leftValue")
    else if path == "config.right" then Some("config.rightValue")
    else None
  }

  /** The string stands in a field that is not read, under its name or its older one. */
  lemma SkippedStrings(cat: Catalog, n: Node, loc: string)
    ensures InUnused(cat, n, loc) <==> exists f: Field :: StandsUnread(cat, n, f, loc)
  {
    if cat.entry(n).Some? {
      forall f: Field { UnusedIs(cat.entry(n).value, n, f.path); }
    }
    forall f: Field
      ensures StandsUnread(cat, n, f, loc) <==>
        (f in FieldsOf(cat, n) && UnusedField(cat.entry(n).value, n, f.path)
         && (Owns(f.path, loc) || exists p :: p in AliasOf(f.path) && Owns(p, loc)))
    {
      NamesOwn(f.path, loc);
    }
    hide UnusedField, StandsUnread, Owns, AliasOf;
  }

  lemma NamesOwn(path: string, loc: string)
    ensures Owns(path, loc) || (exists p :: p in AliasOf(path) && Owns(p, loc)) <==>
      Inside(path, loc) || (OlderName(path).Some? && Inside(OlderName(path).value, loc))
  {
    hide StartsWith;
    if OlderName(path).Some? {
      assert AliasOf(path) == [OlderName(path).value];
      assert OlderName(path).value in AliasOf(path);
    }
  }

  predicate StandsUnread(cat: Catalog, n: Node, f: Field, loc: string) {
    && cat.entry(n).Some? && f in cat.entry(n).value.fields && NotRead(cat.entry(n).value, n, f.path)
    && (Inside(f.path, loc) || (OlderName(f.path).Some? && Inside(OlderName(f.path).value, loc)))
  }

  /** The first field the location stands in. */
  predicate FirstField(fields: seq<Field>, loc: string, k: nat) {
    k < |fields| && Inside(fields[k].path, loc) && forall j | 0 <= j < k :: !Inside(fields[j].path, loc)
  }

  lemma {:induction false} OwnerIs(fields: seq<Field>, loc: string)
    ensures forall k: nat | FirstField(fields, loc, k) :: FirstOwner(fields, loc) == Some(fields[k])
    ensures (forall k: nat :: !FirstField(fields, loc, k)) ==> FirstOwner(fields, loc) == None
  {
    hide StartsWith;
    if fields != [] {
      var rest := fields[1..];
      OwnerIs(rest, loc);
      if Inside(fields[0].path, loc) {
        assert FirstField(fields, loc, 0);
      } else {
        forall k: nat | FirstField(fields, loc, k) ensures FirstOwner(fields, loc) == Some(fields[k]) {
          assert FirstField(rest, loc, k - 1) by {
            assert forall j | 0 <= j < k - 1 :: rest[j] == fields[j + 1];
          }
        }
        forall k: nat ensures FirstField(rest, loc, k) ==> FirstField(fields, loc, k + 1) {
          assert forall j | 0 < j < |fields| :: fields[j] == rest[j - 1];
        }
      }
    }
  }

  /** The part of a text before its first dot. */
  predicate HeadOf(text: string, head: string) {
    head <= text && '.' !in head && (|head| < |text| ==> text[|head|] == '.')
  }

  lemma HeadIs(text: string)
    ensures HeadOf(text, text[..UpToDot(text)])
    ensures forall head | HeadOf(text, head) :: head == text[..UpToDot(text)]
  {
    var k := UpToDot(text);
    forall head | HeadOf(text, head) ensures |head| == k {
      assert forall i | 0 <= i < |head| :: text[i] == head[i];
    }
  }

  /** The field named: the first that owns the place, and inside a dynamic one of an action also the key there. */
  lemma FieldIs(cat: Catalog, n: Node, loc: string, k: nat)
    requires cat.entry(n).Some? && FirstField(cat.entry(n).value.fields, loc, k)
    ensures var f := cat.entry(n).value.fields[k];
      if f.dynamic && cat.entry(n).value.nodeType == "ACTION" && loc != f.path
      then exists key :: HeadOf(loc[|f.path| + 1..], key) && FieldNamed(cat, n, loc) == Some(f.path + "." + key)
      else FieldNamed(cat, n, loc) == Some(f.path)
  {
    OwnerIs(cat.entry(n).value.fields, loc);
    var f := cat.entry(n).value.fields[k];
    if f.dynamic && cat.entry(n).value.nodeType == "ACTION" && loc != f.path {
      var inner := loc[|f.path| + 1..];
      HeadIs(inner);
      assert FieldNamed(cat, n, loc) == Some(f.path + "." + inner[..UpToDot(inner)]);
    }
    hide UpToDot;
  }

  lemma NoField(cat: Catalog, n: Node, loc: string)
    requires cat.entry(n).None? || forall k: nat :: !FirstField(cat.entry(n).value.fields, loc, k)
    ensures FieldNamed(cat, n, loc) == None
  {
    if cat.entry(n).Some? { OwnerIs(cat.entry(n).value.fields, loc); }
    hide UpToDot, Inside, StartsWith;
  }

  // ----- references

  /** The output is one the target has, as far as its outputs are known. */
  ghost predicate HasOutput(cat: Catalog, target: Node, key: string) {
    match cat.entry(target)
    case None => true
    case Some(entry) =>
      entry.outputDynamic ||
      var given := match entry.outputsFrom case None => Null case Some(path) => Paths.GetByPath(NodeJson(target), path);
      if given.Obj? && given.fields != [] then exists f :: f in given.fields && f.0 == key
      else if given.Arr? && given.items != [] then exists item :: item in given.items && Get(item, "key") == Str(key)
      else key in entry.outputs
  }

  lemma {:induction false} KeysOfAre(items: seq<Json>, key: string)
    ensures key in KeysOf(items) <==> exists item :: item in items && Get(item, "key") == Str(key)
  {
    if items != [] {
      KeysOfAre(items[1..], key);
      assert items == [items[0]] + items[1..];
    }
  }

  lemma OutputIs(cat: Catalog, target: Node, path: string, key: string)
    requires HeadOf(path, key)
    ensures OutputKnown(cat, target, path) <==> HasOutput(cat, target, key)
  {
    HeadIs(path);
    var entry := cat.entry(target);
    if entry.Some? && entry.value.outputsFrom.Some? {
      var given := Paths.GetByPath(NodeJson(target), entry.value.outputsFrom.value);
      if given.Arr? { KeysOfAre(given.items, key); }
    }
    hide Paths.GetByPath, UpToDot, KeysOf, NodeJson;
  }

  /** Of the nodes with one id the last is the one a reference means. */
  lemma {:induction false} LastIsMeant(nodes: seq<Node>, id: Json)
    requires HasNode(nodes, id)
    ensures exists k ::
      0 <= k < |nodes| && LastWith(nodes, id) == nodes[k] && forall j | k < j < |nodes| :: nodes[j].id != id
    decreases |nodes|
  {
    var init, last := nodes[..|nodes| - 1], nodes[|nodes| - 1];
    assert nodes == init + [last];
    if last.id != id {
      LastIsMeant(init, id);
      var k :| 0 <= k < |init| && LastWith(init, id) == init[k] && forall j | k < j < |init| :: init[j].id != id;
      assert nodes[k] == init[k] && forall j | k < j < |init| :: nodes[j] == init[j];
    } else {
      assert LastWith(nodes, id) == nodes[|init|];
    }
  }

  /** What a reference to r in node n is blamed for, the first of these that applies. */
  ghost predicate Blamed(
    cat: Catalog, nodes: seq<Node>, edges: seq<Edge>, n: Node, r: Ref, code: Code, shown: seq<Json>)
  {
    var target := Str(r.target);
    var head := r.path[..UpToDot(r.path)];
    if target.s == "" || !HasNode(nodes, target) then code == REF_UNKNOWN_NODE && shown == [Str(Clip(r.target))]
    else if target == n.id then code == REF_SELF && shown == []
    else if !Upstream(SidsOf(nodes), edges, target, n.id) then
      code == REF_NOT_UPSTREAM && shown == [Str(Clip(r.target))]
    else
      && !HasOutput(cat, LastWith(nodes, target), head)
      && code == REF_UNKNOWN_FIELD && shown == [Str(Clip(r.target)), Str(Clip(head))]
  }

  ghost predicate SaidOfBody(
    cat: Catalog, nodes: seq<Node>, edges: seq<Edge>, n: Node, field: Option<string>, body: string, e: Error)
  {
    || ((forall r :: !Writes(r, body)) && e == Error(NodeId(n.id), field, REF_FORMAT, [Str(Clip(body))]))
    || (exists r :: Writes(r, body) && e.nodeId == NodeId(n.id) && e.field == field
          && Blamed(cat, nodes, edges, n, r, e.code, e.shown))
  }

  /** The body is the reference written out. */
  predicate Writes(r: Ref, body: string) {
    IdText(r.target) && PathText(r.path) && body == Printed(r)
  }

  lemma BodySaid(
    cat: Catalog, nodes: seq<Node>, edges: seq<Edge>, n: Node, field: Option<string>, body: string, e: Error)
    ensures e in BodyFindings(cat, nodes, edges, n, field, body) <==> SaidOfBody(cat, nodes, edges, n, field, body, e)
  {
    hide Upstream, Clip, HasOutput, OutputKnown, ParseRef, Printed, IdText, PathText, LastWith, NodeAt, SidsOf, UpToDot;
    forall r { ParsePrinted(body, r); }
    var parsed := ParseRef(body);
    if parsed.Some? {
      var r := parsed.value;
      HeadIs(r.path);
      var target := Str(r.target);
      if target in SidsOf(nodes) { OutputIs(cat, LastWith(nodes, target), r.path, r.path[..UpToDot(r.path)]); }
      assert Writes(r, body) && forall q | Writes(q, body) :: q == r;
    }
  }

  lemma {:induction false} BodiesSaid(
    cat: Catalog, nodes: seq<Node>, edges: seq<Edge>, n: Node, field: Option<string>, bodies: seq<string>, e: Error)
    ensures e in BodiesFindings(cat, nodes, edges, n, field, bodies)
      <==> exists body :: body in bodies && SaidOfBody(cat, nodes, edges, n, field, body, e)
  {
    hide SaidOfBody, BodyFindings;
    if bodies != [] {
      var init, last := bodies[..|bodies| - 1], bodies[|bodies| - 1];
      assert bodies == init + [last];
      BodiesSaid(cat, nodes, edges, n, field, init, e);
      BodySaid(cat, nodes, edges, n, field, last, e);
    }
  }

  // ----- the strings of a node

  ghost predicate SaidOfString(
    cat: Catalog, nodes: seq<Node>, edges: seq<Edge>, n: Node, leaf: Leaf, e: Error)
  {
    && (forall f: Field :: !StandsUnread(cat, n, f, leaf.loc))
    && var field := FieldNamed(cat, n, leaf.loc);
    && ((LeftOpen(leaf.text) && e == Error(NodeId(n.id), field, REF_FORMAT, []))
        || (exists i: nat, k: nat :: BodyAt(leaf.text, i, k)
              && SaidOfBody(cat, nodes, edges, n, field, leaf.text[i + 2..k], e)))
  }

  /** A string without an opening mark has neither a reference nor an open end. */
  lemma Unmarked(text: string)
    requires !Contains(text, "{{")
    ensures !LeftOpen(text) && forall i: nat, k: nat :: !BodyAt(text, i, k)
  {
    assert forall i: nat :: !At(text, i, "{{");
  }

  lemma StringSaid(cat: Catalog, nodes: seq<Node>, edges: seq<Edge>, n: Node, leaf: Leaf, e: Error)
    ensures e in LeafFindings(cat, nodes, edges, n, leaf) <==> SaidOfString(cat, nodes, edges, n, leaf, e)
  {
    SkippedStrings(cat, n, leaf.loc);
    UnclosedExact(leaf.text);
    if !Contains(leaf.text, "{{") { Unmarked(leaf.text); }
    var field := FieldNamed(cat, n, leaf.loc);
    BodiesSaid(cat, nodes, edges, n, field, Bodies(leaf.text, 0), e);
    BodyThere(cat, nodes, edges, n, field, leaf.text, e);
    hide InUnused, StandsUnread, Unclosed, LeftOpen, Contains, Bodies, BodyAt, BodiesFindings, SaidOfBody,
      FieldNamed, Clip;
  }

  lemma BodyThere(
    cat: Catalog, nodes: seq<Node>, edges: seq<Edge>, n: Node, field: Option<string>, text: string, e: Error)
    ensures (exists body :: body in Bodies(text, 0) && SaidOfBody(cat, nodes, edges, n, field, body, e))
      <==> (exists i: nat, k: nat :: BodyAt(text, i, k) && SaidOfBody(cat, nodes, edges, n, field, text[i + 2..k], e))
  {
    hide Bodies, At, SaidOfBody;
    forall body { BodiesExact(text, body); }
  }

  lemma {:induction false} StringsSaid(
    cat: Catalog, nodes: seq<Node>, edges: seq<Edge>, n: Node, leaves: seq<Leaf>, e: Error)
    ensures e in LeavesFindings(cat, nodes, edges, n, leaves)
      <==> exists leaf :: leaf in leaves && SaidOfString(cat, nodes, edges, n, leaf, e)
  {
    hide SaidOfString, LeafFindings;
    if leaves != [] {
      var init, last := leaves[..|leaves| - 1], leaves[|leaves| - 1];
      assert leaves == init + [last];
      StringsSaid(cat, nodes, edges, n, init, e);
      StringSaid(cat, nodes, edges, n, last, e);
    }
  }

  /** What the reference pass says of a node is exactly what it says of the strings of its config. */
  ghost predicate SaidOfRefs(cat: Catalog, nodes: seq<Node>, edges: seq<Edge>, n: Node, e: Error) {
    && IsSid(n.id) && n.config.Obj?
    && exists leaf :: leaf in Leaves("config", n.config, true) && SaidOfString(cat, nodes, edges, n, leaf, e)
  }

  lemma RefsSaid(cat: Catalog, nodes: seq<Node>, edges: seq<Edge>, n: Node, e: Error)
    ensures e in RefFindings(cat, nodes, edges, n) <==> SaidOfRefs(cat, nodes, edges, n, e)
  {
    hide SaidOfString, Leaves, LeavesFindings;
    if n.config.Obj? { StringsSaid(cat, nodes, edges, n, Leaves("config", n.config, true), e); }
  }

  // ----- the whole stream

  ghost predicate SaidLater(cat: Catalog, nodes: seq<Node>, edges: seq<Edge>, e: Error) {
    exists n :: n in nodes && (e in cat.fieldErrors(n) || SaidOfRefs(cat, nodes, edges, n, e))
  }

  lemma {:induction false} LaterSaid(cat: Catalog, nodes: seq<Node>, edges: seq<Edge>, k: nat, e: Error)
    requires k <= |nodes|
    ensures e in Later(cat, nodes, edges, k)
      <==> exists n :: n in nodes[..k] && (e in cat.fieldErrors(n) || SaidOfRefs(cat, nodes, edges, n, e))
  {
    hide SaidOfRefs, RefFindings;
    if k > 0 {
      LaterSaid(cat, nodes, edges, k - 1, e);
      RefsSaid(cat, nodes, edges, nodes[k - 1], e);
      assert nodes[..k] == nodes[..k - 1] + [nodes[k - 1]];
    }
  }

  /** Node by node, the checks of its fields before its references, and those string by string. */
  lemma LaterOrder(cat: Catalog, nodes: seq<Node>, edges: seq<Edge>, k: nat, n: Node, leaves: seq<Leaf>, leaf: Leaf)
    requires k < |nodes|
    ensures Later(cat, nodes, edges, k) + cat.fieldErrors(nodes[k]) <= Later(cat, nodes, edges, k + 1)
    ensures LeavesFindings(cat, nodes, edges, n, leaves) <= LeavesFindings(cat, nodes, edges, n, leaves + [leaf])
  {
    hide RefFindings, LeafFindings;
    assert (leaves + [leaf])[..|leaves|] == leaves;
  }

  /** The findings of a workflow before they are cut: those of the graph, then those of each node. */
  lemma StreamSays(cat: Catalog, nodes: seq<Node>, edges: seq<Edge>, e: Error)
    ensures e in Stream(cat, nodes, edges) <==> SaidByGraph(cat, nodes, edges, e) || SaidLater(cat, nodes, edges, e)
    ensures GraphFindings(cat, nodes, edges) <= Stream(cat, nodes, edges)
  {
    hide SaidByGraph, GraphFindings, Later, SaidOfRefs;
    GraphSays(cat, nodes, edges, e);
    LaterSaid(cat, nodes, edges, |nodes|, e);
    assert nodes[..|nodes|] == nodes;
  }

  /** The size of the lists as they came, before anything is looked at. */
  lemma TooLarge(cat: Catalog, rawNodes: seq<Option<Node>>, rawEdges: seq<Option<Edge>>)
    requires |rawNodes| > 500 || |rawEdges| > 2000
    ensures Validate(cat, rawNodes, rawEdges) == [Error(None, None, TOO_LARGE, [Int(|rawNodes|), Int(|rawEdges|)])]
  {
  }

  /** What is dropped is exactly what is no object, and the rest keeps its order. */
  lemma {:induction false} ObjectsAre<T>(raw: seq<Option<T>>, more: seq<Option<T>>, x: T)
    ensures x in Objects(raw) <==> Some(x) in raw
    ensures Objects(raw) <= Objects(raw + more)
    decreases |raw| + |more|
  {
    if more != [] {
      ObjectsAre(raw, more[..|more| - 1], x);
      assert (raw + more)[..|raw + more| - 1] == raw + more[..|more| - 1];
    } else {
      assert raw + more == raw;
      if raw != [] {
        var init := raw[..|raw| - 1];
        ObjectsAre(init, [], x);
        assert raw == init + [raw[|raw| - 1]];
      }
    }
  }

  /** A finding is left out of a collected list only if the list is full or the next one is too much. */
  lemma LeftOutFor(size: Error -> nat, stream: seq<Error>, kept: seq<Error>, e: Error)
    requires Collected(size, stream, kept) && e in stream && e !in kept
    ensures |kept| == 200 || exists next :: next in stream && next !in kept && Bytes(size, kept) + size(next) > 200_000
  {
    hide Bytes;
    var all := Dedup(stream);
    DedupIsSound(stream);
    assert |kept| == |all| ==> kept == all;
    var next := all[|kept|];
    assert all[..|kept| + 1] == kept + [next];
    BytesSnoc(size, kept, next);
    hide Dedup;
    forall i | 0 <= i < |kept| ensures kept[i] != next {
      assert kept[i] == all[i];
    }
    assert next in all;
  }

  /**
   * Everything `validate_workflow` returns is one of these findings, and every one of these is
   * returned unless 200 are or the next one would be too many bytes.
   */
  lemma FindingsAreExact(cat: Catalog, rawNodes: seq<Option<Node>>, rawEdges: seq<Option<Edge>>, e: Error)
    requires |rawNodes| <= 500 && |rawEdges| <= 2000
    ensures var nodes, edges, found := Objects(rawNodes), Objects(rawEdges), Validate(cat, rawNodes, rawEdges);
      var said := SaidByGraph(cat, nodes, edges, e) || SaidLater(cat, nodes, edges, e);
      && (e in found ==> said)
      && (said && e !in found ==>
          || |found| == 200
          || exists next :: (SaidByGraph(cat, nodes, edges, next) || SaidLater(cat, nodes, edges, next))
               && next !in found && Bytes(cat.size, found) + cat.size(next) > 200_000)
  {
    var nodes, edges, found := Objects(rawNodes), Objects(rawEdges), Validate(cat, rawNodes, rawEdges);
    var stream := Stream(cat, nodes, edges);
    forall x { StreamSays(cat, nodes, edges, x); }
    assert Collected(cat.size, stream, found);
    DedupIsSound(stream);
    assert e in found ==> e in Dedup(stream);
    if e in stream && e !in found { LeftOutFor(cat.size, stream, found, e); }
    hide SaidByGraph, SaidLater, Stream, Objects, Bytes, Collected, Validate;
  }
}
