/**
 * The walk over an exception, its group members, its cause and its context. The links may form
 * cycles; one shared set of seen exceptions keeps the recursion finite.
 */
module ExceptionChain {
  import opened Wrappers
  import opened Reachability

  type Id = nat

  /** text429, bare429, fromProvider: what the searches in its text and its module name say. */
  datatype Exc = Exc(
    members: seq<Id>, cause: Option<Id>, context: Option<Id>,
    code: Option<int>, statusCode: Option<int>, typeName: string, text429: bool, bare429: bool, fromProvider: bool)

  type Heap = map<Id, Exc>

  function Maybe(id: Option<Id>): seq<Id> {
    if id.Some? then [id.value] else []
  }

  function Links(e: Exc): seq<Id> {
    e.members + Maybe(e.cause) + Maybe(e.context)
  }

  function LinkMap(heap: Heap): map<Id, seq<Id>> {
    map id | id in heap :: Links(heap[id])
  }

  /** Links lead to exceptions that are there. */
  predicate Whole(heap: Heap) {
    forall id | id in heap :: Known(heap, Links(heap[id]))
  }

  predicate Known(heap: Heap, ids: seq<Id>) {
    forall i | 0 <= i < |ids| :: ids[i] in heap
  }

  // ----- the order of a search with an explicit list of what is still to do

  function SetOf(ids: seq<Id>): set<Id> {
    set id | id in ids
  }

  function Order(heap: Heap, work: seq<Id>, seen: set<Id>): (order: seq<Id>)
    requires Whole(heap) && Known(heap, work)
    decreases heap.Keys - seen, |work|
  {
    if work == [] then []
    else
      var x := work[0];
      if x in seen then Order(heap, work[1..], seen)
      else
        assert x in heap.Keys - seen && x !in heap.Keys - (seen + {x});
        assert Known(heap, Links(heap[x]));
        [x] + Order(heap, Links(heap[x]) + work[1..], seen + {x})
  }

  lemma {:induction false} OrderDistinct(heap: Heap, work: seq<Id>, seen: set<Id>)
    requires Whole(heap) && Known(heap, work)
    ensures var order := Order(heap, work, seen);
      && (forall i, j | 0 <= i < j < |order| :: order[i] != order[j])
      && (forall x | x in order :: x in heap && x !in seen)
    decreases heap.Keys - seen, |work|
  {
    if work != [] {
      var x := work[0];
      if x in seen {
        OrderDistinct(heap, work[1..], seen);
      } else {
        assert x in heap.Keys - seen && x !in heap.Keys - (seen + {x});
        assert Known(heap, Links(heap[x]));
        OrderDistinct(heap, Links(heap[x]) + work[1..], seen + {x});
      }
    }
  }

  /** What is seen in the end is exactly what is reached. */
  lemma {:induction false} OrderIsReached(heap: Heap, starts: seq<Id>, work: seq<Id>, seen: set<Id>)
    requires Whole(heap) && Known(heap, work) && Frontier(LinkMap(heap), starts, seen, work)
    ensures forall x :: x in seen || x in Order(heap, work, seen) <==> ReachedFrom(LinkMap(heap), starts, x)
    decreases heap.Keys - seen, |work|
  {
    hide Frontier, ReachedFrom, Links;
    var adj := LinkMap(heap);
    if work == [] {
      FrontierDone(adj, starts, seen);
    } else {
      var x, rest := work[0], work[1..];
      SameFrontier(adj, starts, seen, work, rest + [x]);
      if x in seen {
        FrontierSkip(adj, starts, seen, rest, x);
        OrderIsReached(heap, starts, rest, seen);
      } else {
        assert x in heap.Keys - seen && x !in heap.Keys - (seen + {x});
        assert Known(heap, Links(heap[x]));
        FrontierVisit(adj, starts, seen, rest, x);
        SameFrontier(adj, starts, seen + {x}, rest + Links(heap[x]), Links(heap[x]) + rest);
        OrderIsReached(heap, starts, Links(heap[x]) + rest, seen + {x});
      }
    }
  }

  /** Only what is on the stack matters, not where. */
  lemma SameFrontier(adj: map<Id, seq<Id>>, starts: seq<Id>, seen: set<Id>, a: seq<Id>, b: seq<Id>)
    requires Frontier(adj, starts, seen, a) && forall x :: x in a <==> x in b
    ensures Frontier(adj, starts, seen, b)
  {
    hide ReachedFrom, Next;
  }

  /** The exceptions reached from the first one come up once each. */
  lemma ChainIsReached(heap: Heap, e: Id)
    requires Whole(heap) && e in heap
    ensures var chain := Order(heap, [e], {});
      && (forall x :: x in chain <==> Reaches(LinkMap(heap), e, x))
      && (forall i, j | 0 <= i < j < |chain| :: chain[i] != chain[j])
  {
    hide Order, Frontier, Reaches, LinkMap, Whole;
    OrderDistinct(heap, [e], {});
    FrontierStart(LinkMap(heap), [e]);
    OrderIsReached(heap, [e], [e], {});
    assert e in [e];
  }

  /** Work lists may be served one after the other. */
  lemma {:induction false} OrderSplit(heap: Heap, a: seq<Id>, b: seq<Id>, seen: set<Id>)
    requires Whole(heap) && Known(heap, a) && Known(heap, b)
    ensures Order(heap, a + b, seen) == Order(heap, a, seen) + Order(heap, b, seen + SetOf(Order(heap, a, seen)))
    decreases heap.Keys - seen, |a|
  {
    if a == [] {
      assert a + b == b;
      assert seen + SetOf([]) == seen;
    } else {
      var x := a[0];
      assert (a + b)[1..] == a[1..] + b;
      if x in seen {
        OrderSplit(heap, a[1..], b, seen);
      } else {
        assert x in heap.Keys - seen && x !in heap.Keys - (seen + {x});
        assert Known(heap, Links(heap[x]));
        var next := Links(heap[x]) + a[1..];
        assert Links(heap[x]) + (a[1..] + b) == next + b;
        OrderSplit(heap, next, b, seen + {x});
        hide Links, Whole;
        assert seen + {x} + SetOf(Order(heap, next, seen + {x})) == seen + SetOf([x] + Order(heap, next, seen + {x}));
      }
    }
  }

  // ----- the recursive walk

  /** From seen s and yielded y the walk over the work list led to s2 and y2. */
  ghost predicate Gave(heap: Heap, work: seq<Id>, s: set<Id>, y: seq<Id>, s2: set<Id>, y2: seq<Id>) {
    && Whole(heap) && Known(heap, work)
    && y2 == y + Order(heap, work, s) && s2 == s + SetOf(Order(heap, work, s))
  }

  lemma GaveNothing(heap: Heap, work: seq<Id>, s: set<Id>, y: seq<Id>)
    requires Whole(heap) && Known(heap, work) && (work == [] || (|work| == 1 && work[0] in s))
    ensures Gave(heap, work, s, y, s, y)
  {
    assert Order(heap, work, s) == [];
  }

  lemma GaveBoth(
    heap: Heap, a: seq<Id>, b: seq<Id>, s: set<Id>, y: seq<Id>, s1: set<Id>, y1: seq<Id>, s2: set<Id>, y2: seq<Id>)
    requires Gave(heap, a, s, y, s1, y1) && Gave(heap, b, s1, y1, s2, y2)
    ensures Gave(heap, a + b, s, y, s2, y2)
  {
    OrderSplit(heap, a, b, s);
    KnownBoth(heap, a, b);
    var p, q := Order(heap, a, s), Order(heap, b, s1);
    SetOfBoth(p, q);
    Regrouped(y, p, q, s, SetOf(p), SetOf(q));
    hide Whole, Order, Known, SetOf;
  }

  lemma Regrouped(y: seq<Id>, p: seq<Id>, q: seq<Id>, s: set<Id>, sp: set<Id>, sq: set<Id>)
    ensures y + p + q == y + (p + q) && s + sp + sq == s + (sp + sq)
  {
  }

  lemma KnownBoth(heap: Heap, a: seq<Id>, b: seq<Id>)
    requires Known(heap, a) && Known(heap, b)
    ensures Known(heap, a + b)
  {
  }

  lemma SetOfBoth(a: seq<Id>, b: seq<Id>)
    ensures SetOf(a + b) == SetOf(a) + SetOf(b)
  {
  }

  lemma GaveNode(heap: Heap, x: Id, s: set<Id>, y: seq<Id>, s2: set<Id>, y2: seq<Id>)
    requires x in heap && x !in s && Gave(heap, Links(heap[x]), s + {x}, y + [x], s2, y2)
    ensures Gave(heap, [x], s, y, s2, y2)
  {
    assert Links(heap[x]) + [x][1..] == Links(heap[x]);
    assert Order(heap, [x], s) == [x] + Order(heap, Links(heap[x]), s + {x});
  }

  /** The generator: seen is shared by all its recursive calls, yielded is what it has given so far. */
  class Walk {
    var seen: set<Id>
    var yielded: seq<Id>

    constructor ()
      ensures seen == {} && yielded == []
    {
      seen, yielded := {}, [];
    }

    /** `_iter_chain`: the recursion yields exactly in the order of the list search. */
    method Visit(heap: Heap, e: Option<Id>)
      requires Whole(heap) && Known(heap, Maybe(e))
      modifies this
      ensures Gave(heap, Maybe(e), old(seen), old(yielded), seen, yielded)
      ensures old(seen) <= seen
      decreases heap.Keys - seen
    {
      hide Gave, Whole;
      if e.None? {
        GaveNothing(heap, [], seen, yielded);
        return;
      }
      var x := e.value;
      assert Maybe(e)[0] in heap;
      if x in seen {
        GaveNothing(heap, [x], seen, yielded);
        return;
      }
      ghost var s, y := seen + {x}, yielded + [x];
      LinksKnown(heap, x);
      seen := seen + {x};
      yielded := yielded + [x];
      var exc := heap[x];
      KnownParts(heap, exc.members, Maybe(exc.cause), Maybe(exc.context));
      GaveNothing(heap, [], s, y);
      for i := 0 to |exc.members|
        invariant s <= seen && Gave(heap, exc.members[..i], s, y, seen, yielded)
      {
        assert exc.members[..i + 1] == exc.members[..i] + [exc.members[i]];
        ghost var s1, y1 := seen, yielded;
        SmallerRest(heap, s, seen, old(seen), x);
        Visit(heap, Some(exc.members[i]));
        GaveBoth(heap, exc.members[..i], [exc.members[i]], s, y, s1, y1, seen, yielded);
      }
      assert exc.members[..|exc.members|] == exc.members;
      ghost var s1, y1 := seen, yielded;
      SmallerRest(heap, s, seen, old(seen), x);
      Visit(heap, exc.cause);
      GaveBoth(heap, exc.members, Maybe(exc.cause), s, y, s1, y1, seen, yielded);
      ghost var s2, y2 := seen, yielded;
      SmallerRest(heap, s, seen, old(seen), x);
      Visit(heap, exc.context);
      GaveBoth(heap, exc.members + Maybe(exc.cause), Maybe(exc.context), s, y, s2, y2, seen, yielded);
      GaveNode(heap, x, old(seen), old(yielded), seen, yielded);
    }
  }

  lemma LinksKnown(heap: Heap, x: Id)
    requires Whole(heap) && x in heap
    ensures Known(heap, Links(heap[x]))
  {
  }

  lemma KnownParts(heap: Heap, a: seq<Id>, b: seq<Id>, c: seq<Id>)
    requires Known(heap, a + b + c)
    ensures Known(heap, a) && Known(heap, b) && Known(heap, c)
  {
    var all := a + b + c;
    assert forall i | 0 <= i < |a| :: all[i] == a[i];
    assert forall i | 0 <= i < |b| :: all[|a| + i] == b[i];
    assert forall i | 0 <= i < |c| :: all[|a| + |b| + i] == c[i];
  }

  lemma SmallerRest(heap: Heap, before: set<Id>, seen: set<Id>, start: set<Id>, x: Id)
    requires before == start + {x} && before <= seen && x in heap && x !in start
    ensures heap.Keys - seen < heap.Keys - start
  {
    assert x in heap.Keys - start && x !in heap.Keys - seen;
  }

  // ----- the use

  const RATE_LIMIT_TYPE_NAMES := {"RateLimitError", "ResourceExhausted", "TooManyRequests"}

  predicate Signals(e: Exc) {
    || e.code == Some(429) || e.statusCode == Some(429)
    || e.typeName in RATE_LIMIT_TYPE_NAMES
    || e.text429
    || (e.fromProvider && e.bare429)
  }

  /** The parts of a group come first, then the cause, then the context. */
  lemma LinksInOrder(e: Exc, i: nat)
    requires i < |Links(e)|
    ensures |Links(e)| == |e.members| + (if e.cause.Some? then 1 else 0) + (if e.context.Some? then 1 else 0)
    ensures i < |e.members| ==> Links(e)[i] == e.members[i]
    ensures i == |e.members| && e.cause.Some? ==> Links(e)[i] == e.cause.value
    ensures i == |Links(e)| - 1 && e.context.Some? ==> Links(e)[i] == e.context.value
  {
  }

  /**
   * An HTTP status of 429, a type name that says so, or a text that does: on its own, or from a
   * provider a bare 429.
   */
  lemma SignalsAre(e: Exc)
    ensures Signals(e) <==>
      || e.code == Some(429)
      || e.statusCode == Some(429)
      || e.typeName == "RateLimitError" || e.typeName == "ResourceExhausted" || e.typeName == "TooManyRequests"
      || e.text429
      || (e.bare429 && e.fromProvider)
  {
  }

  lemma GaveChain(heap: Heap, e: Id, seen: set<Id>, chain: seq<Id>)
    requires e in heap && Gave(heap, [e], {}, [], seen, chain)
    ensures forall x :: x in chain <==> Reaches(LinkMap(heap), e, x)
    ensures forall x | x in chain :: x in heap
  {
    hide Reaches, LinkMap, Order, Links;
    assert chain == Order(heap, [e], {});
    ChainIsReached(heap, e);
    OrderDistinct(heap, [e], {});
  }

  /** `is_rate_limit_error`: true exactly if some exception that can be reached shows the signal. */
  method IsRateLimitError(heap: Heap, e: Id) returns (hit: bool)
    requires Whole(heap) && e in heap
    ensures hit <==> exists x :: Reaches(LinkMap(heap), e, x) && x in heap && Signals(heap[x])
  {
    hide Reaches, Signals, Gave, LinkMap, Links, Whole, Order;
    var walk := new Walk();
    walk.Visit(heap, Some(e));
    var chain := walk.yielded;
    GaveChain(heap, e, walk.seen, chain);
    for i := 0 to |chain|
      invariant forall j | 0 <= j < i :: !Signals(heap[chain[j]])
    {
      assert chain[i] in chain;
      if Signals(heap[chain[i]]) {
        return true;
      }
    }
    forall x | Reaches(LinkMap(heap), e, x) && x in heap ensures !Signals(heap[x]) {
      assert x in chain;
    }
    return false;
  }
}
