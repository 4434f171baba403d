/** The parts put together: what the builder, the validator and the branch keys guarantee jointly. */
module BuilderOutcome {
  import opened Wrappers
  import opened Json
  import opened Workflow
  import opened Flow
  import BranchKeys
  import BuilderSpec
  import BuilderRuns
  import BuilderTheorems
  import GraphEdit
  import Validator
  import ValidatorLaws

  // ----- completion means a well-formed workflow

  function Wrapped<T>(s: seq<T>): (r: seq<Option<T>>)
    ensures |r| == |s| && forall i | 0 <= i < |r| :: r[i] == Some(s[i])
  {
    seq(|s|, i requires 0 <= i < |s| => Some(s[i]))
  }

  lemma {:induction false} ObjectsOfWrapped<T>(s: seq<T>)
    ensures Validator.Objects(Wrapped(s)) == s
  {
    if s != [] {
      var init := s[..|s| - 1];
      ObjectsOfWrapped(init);
      assert Wrapped(s)[..|s| - 1] == Wrapped(init);
      assert s == init + [s[|s| - 1]];
    }
  }

  /** The builder asks the validator of this project. */
  ghost predicate UsesValidator(rules: BuilderSpec.Rules, cat: Validator.Catalog) {
    forall nodes, edges :: rules.validate(nodes, edges) == Validator.Validate(cat, Wrapped(nodes), Wrapped(edges))
  }

  ghost predicate WellFormedIn(cat: Validator.Catalog, w: BuilderRuns.World) {
    w.turn.Some? && Validator.WellFormed(cat, w.turn.value.nodes, w.turn.value.edges)
  }

  /**
   * A completed turn rests on a finish call, in the turn before, whose nodes are those of now by id
   * and hash and whose edges are those of now, and those nodes and edges were a well-formed workflow
   * with every node tested, skipped or unchanged.
   */
  lemma DoneIsWellFormed(
    rules: BuilderSpec.Rules, cat: Validator.Catalog, steps: seq<BuilderRuns.Step>, t: nat)
    requires UsesValidator(rules, cat) && Validator.ShortPaths(cat)
    requires t < |BuilderRuns.Run(rules, steps).starts| && BuilderRuns.Run(rules, steps).starts[t].done
    ensures exists k: nat ::
      BuilderTheorems.FinishedAt(rules, steps, k, t) && WellFormedIn(cat, BuilderRuns.Run(rules, steps[..k]))
  {
    hide Validator.WellFormed, Validator.Validate, NodeHash, BuilderRuns.Run;
    BuilderTheorems.DoneWasFinished(rules, steps, t);
    var k: nat :| BuilderTheorems.FinishedAt(rules, steps, k, t);
    var now := BuilderRuns.Run(rules, steps[..k]).turn.value;
    assert rules.validate(now.nodes, now.edges) == Validator.Validate(cat, Wrapped(now.nodes), Wrapped(now.edges));
    Validator.NoFindingsMeansWellFormed(cat, Wrapped(now.nodes), Wrapped(now.edges));
    ObjectsOfWrapped(now.nodes);
    ObjectsOfWrapped(now.edges);
  }

  // ----- one notion of upstream

  /** Where all ids are usable strings, the builder and the validator mean the same by upstream. */
  lemma UpstreamAgrees(nodes: seq<Node>, edges: seq<Edge>, a: Json, n: Json)
    requires forall m | m in nodes :: Validator.IsSid(m.id)
    ensures Upstream(IdsOf(nodes), edges, a, n) <==> Upstream(Validator.SidsOf(nodes), edges, a, n)
  {
    assert IdsOf(nodes) == Validator.SidsOf(nodes);
  }

  // ----- branch keys and edges

  /**
   * After the branches of a node have been rewritten, an edge out of it stays exactly if its value is
   * the key of some rewritten branch, or else where the node does not stop there.
   */
  lemma EdgeFollowsItsKey(
    str: Json -> string, stored: seq<Json>, value: seq<Json>, out: seq<Json>, keys: seq<string>, n: Node, e: Edge)
    requires BranchKeys.Keyed(str, stored, value, out, keys) && out != []
    requires ConfigValue(n, "branches") == Arr(out) && e.source == n.id && e.branch.Str?
    ensures GraphEdit.StillAllowed(n, e) <==>
      e.branch.s in keys || (e.branch.s == "else" && ConfigValue(n, "otherwise") != Str("stop"))
  {
    hide BranchKeys.Assigned;
    var k := e.branch.s;
    ValidatorLaws.KeysAre(out, k);
    KeyedLength(str, stored, value, out, keys);
    assert BranchKeys.Assigned(str, stored, value, keys);
    BranchKeys.KeysAreUsable(str, stored, value, keys);
    forall i | 0 <= i < |out| ensures Get(out[i], "key") == Str(keys[i]) {
      BranchKeys.OtherAttributesStay(str, stored, value, out, keys, i, "key");
    }
    if k in keys {
      var i :| 0 <= i < |keys| && keys[i] == k;
      assert out[i] in out;
    }
    if exists b :: b in out && Get(b, "key") == Str(k) {
      var b :| b in out && Get(b, "key") == Str(k);
      var i :| 0 <= i < |out| && out[i] == b;
      assert keys[i] == k;
    }
  }

  lemma KeyedLength(str: Json -> string, stored: seq<Json>, value: seq<Json>, out: seq<Json>, keys: seq<string>)
    requires BranchKeys.Keyed(str, stored, value, out, keys)
    ensures |keys| == |out|
  {
  }
}
