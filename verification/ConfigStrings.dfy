/**
 * All strings inside a config, each with its dotted location, and the references written in them.
 * The walk uses a stack of its own and cuts every location to 256 characters on the way.
 */
module ConfigStrings {
  import opened Wrappers
  import opened Text
  import opened Json

  const MAX_LOC := 256

  datatype Leaf = Leaf(loc: string, text: string)

  /** cut: whether locations are cut after every step, or never. */
  function Extended(loc: string, part: string, cut: bool): string {
    var full := loc + "." + part;
    if cut then Clipped(full, MAX_LOC) else full
  }

  /** The members of a container, in order, with their locations. */
  function Children(loc: string, j: Json, cut: bool): (cs: seq<(string, Json)>)
    ensures |cs| == if j.Arr? then |j.items| else if j.Obj? then |j.fields| else 0
  {
    match j
    case Arr(items) => seq(|items|, i requires 0 <= i < |items| => (Extended(loc, Decimal(i), cut), items[i]))
    case Obj(fields) => seq(|fields|, i requires 0 <= i < |fields| => (Extended(loc, fields[i].0, cut), fields[i].1))
    case _ => []
  }

  // ----- size, for termination

  function Size(j: Json): (n: nat)
    ensures n > 0
  {
    match j
    case Arr(items) => 1 + SizeItems(items)
    case Obj(fields) => 1 + SizeFields(fields)
    case _ => 1
  }

  function SizeItems(items: seq<Json>): nat {
    if items == [] then 0 else Size(items[0]) + SizeItems(items[1..])
  }

  function SizeField(field: (string, Json)): nat {
    Size(field.1)
  }

  function SizeFields(fields: seq<(string, Json)>): nat {
    if fields == [] then 0 else SizeField(fields[0]) + SizeFields(fields[1..])
  }

  function Total(cs: seq<(string, Json)>): nat {
    if cs == [] then 0 else Size(cs[0].1) + Total(cs[1..])
  }

  lemma {:induction false} TotalOfItems(items: seq<Json>, cs: seq<(string, Json)>)
    requires |cs| == |items| && forall i | 0 <= i < |cs| :: cs[i].1 == items[i]
    ensures Total(cs) == SizeItems(items)
  {
    if cs != [] { TotalOfItems(items[1..], cs[1..]); }
  }

  lemma {:induction false} TotalOfFields(fields: seq<(string, Json)>, cs: seq<(string, Json)>)
    requires |cs| == |fields| && forall i | 0 <= i < |cs| :: cs[i].1 == fields[i].1
    ensures Total(cs) == SizeFields(fields)
  {
    if cs != [] { TotalOfFields(fields[1..], cs[1..]); }
  }

  lemma TotalOfChildren(loc: string, j: Json, cut: bool)
    ensures Total(Children(loc, j, cut)) == Size(j) - 1
  {
    match j
    case Arr(items) => TotalOfItems(items, Children(loc, j, cut));
    case Obj(fields) => TotalOfFields(fields, Children(loc, j, cut));
    case _ =>
  }

  // ----- the strings in preorder

  function Leaves(loc: string, j: Json, cut: bool): seq<Leaf>
    decreases Size(j), 0
  {
    if j.Str? then [Leaf(loc, j.s)]
    else
      TotalOfChildren(loc, j, cut);
      LeavesOf(Children(loc, j, cut), cut)
  }

  function LeavesOf(cs: seq<(string, Json)>, cut: bool): seq<Leaf>
    decreases Total(cs), |cs|
  {
    if cs == [] then [] else Leaves(cs[0].0, cs[0].1, cut) + LeavesOf(cs[1..], cut)
  }

  // ----- cutting on the way or at the end is the same

  function CutAll(leaves: seq<Leaf>): (r: seq<Leaf>)
    ensures |r| == |leaves|
    ensures forall i | 0 <= i < |r| :: r[i] == Leaf(Clipped(leaves[i].loc, MAX_LOC), leaves[i].text)
  {
    seq(|leaves|, i requires 0 <= i < |leaves| => Leaf(Clipped(leaves[i].loc, MAX_LOC), leaves[i].text))
  }

  lemma CutOnTheWay(loc: string, part: string)
    ensures Extended(Clipped(loc, MAX_LOC), part, true) == Clipped(Extended(loc, part, false), MAX_LOC)
  {
    var full := loc + "." + part;
    if |loc| > MAX_LOC {
      assert full[..MAX_LOC] == loc[..MAX_LOC];
      assert (loc[..MAX_LOC] + "." + part)[..MAX_LOC] == loc[..MAX_LOC];
    }
  }

  lemma {:induction false} CutLeaves(loc: string, j: Json)
    ensures Leaves(Clipped(loc, MAX_LOC), j, true) == CutAll(Leaves(loc, j, false))
    decreases Size(j), 0
  {
    if !j.Str? {
      var full, cut := Children(loc, j, false), Children(Clipped(loc, MAX_LOC), j, true);
      TotalOfChildren(loc, j, false);
      forall i | 0 <= i < |full| ensures cut[i] == (Clipped(full[i].0, MAX_LOC), full[i].1) {
        CutOnTheWay(loc, if j.Arr? then Decimal(i) else j.fields[i].0);
      }
      CutLeavesOf(full, cut);
    }
  }

  lemma {:induction false} CutLeavesOf(full: seq<(string, Json)>, cut: seq<(string, Json)>)
    requires |full| == |cut| && forall i | 0 <= i < |full| :: cut[i] == (Clipped(full[i].0, MAX_LOC), full[i].1)
    ensures LeavesOf(cut, true) == CutAll(LeavesOf(full, false))
    decreases Total(full), |full|
  {
    if full != [] {
      CutLeaves(full[0].0, full[0].1);
      CutLeavesOf(full[1..], cut[1..]);
      assert cut[0] == (Clipped(full[0].0, MAX_LOC), full[0].1);
    }
  }

  // ----- the stack loop

  /** What a stack still has to give, its top being the last element. */
  function Pending(stack: seq<(string, Json)>): seq<Leaf> {
    if stack == [] then []
    else
      var top := stack[|stack| - 1];
      Leaves(top.0, top.1, true) + Pending(stack[..|stack| - 1])
  }

  function Rev(cs: seq<(string, Json)>): (r: seq<(string, Json)>)
    ensures |r| == |cs|
  {
    if cs == [] then [] else Rev(cs[1..]) + [cs[0]]
  }

  lemma PendingSnoc(stack: seq<(string, Json)>, top: (string, Json))
    ensures Pending(stack + [top]) == Leaves(top.0, top.1, true) + Pending(stack)
  {
    hide Leaves;
    assert (stack + [top])[..|stack|] == stack;
  }

  lemma {:induction false} PendingPushed(stack: seq<(string, Json)>, cs: seq<(string, Json)>)
    ensures Pending(stack + Rev(cs)) == LeavesOf(cs, true) + Pending(stack)
    ensures Total(stack + Rev(cs)) == Total(stack) + Total(cs)
    decreases |cs|
  {
    hide Leaves, Pending, Size;
    if cs == [] {
      assert stack + Rev(cs) == stack;
    } else {
      var under := stack + Rev(cs[1..]);
      assert stack + Rev(cs) == under + [cs[0]];
      PendingPushed(stack, cs[1..]);
      PendingSnoc(under, cs[0]);
      TotalSnoc(under, cs[0]);
    }
  }

  lemma {:induction false} TotalSnoc(cs: seq<(string, Json)>, c: (string, Json))
    ensures Total(cs + [c]) == Total(cs) + Size(c.1)
  {
    if cs == [] {
      assert cs + [c] == [c];
    } else {
      assert (cs + [c])[1..] == cs[1..] + [c];
      TotalSnoc(cs[1..], c);
    }
  }

  /** `_iter_strings`: exactly the preorder sequence, every location cut once. */
  method IterStrings(value: Json, path: string) returns (out: seq<Leaf>)
    requires |path| <= MAX_LOC
    ensures out == Leaves(path, value, true)
    ensures out == CutAll(Leaves(path, value, false))
  {
    hide Leaves, LeavesOf, Size, Children, CutAll;
    out := [];
    var stack := [(path, value)];
    assert Pending(stack) == Leaves(path, value, true) by { assert stack[..0] == []; }
    while stack != []
      invariant out + Pending(stack) == Leaves(path, value, true)
      decreases Total(stack)
    {
      var (loc, cur) := stack[|stack| - 1];
      var rest := stack[..|stack| - 1];
      assert stack == rest + [(loc, cur)];
      TotalSnoc(rest, (loc, cur));
      LeavesUnfold(loc, cur);
      if cur.Str? {
        out := out + [Leaf(loc, cur.s)];
        stack := rest;
      } else {
        TotalOfChildren(loc, cur, true);
        PendingPushed(rest, Children(loc, cur, true));
        stack := rest + Rev(Children(loc, cur, true));
      }
    }
    CutLeaves(path, value);
    assert Clipped(path, MAX_LOC) == path;
  }

  lemma LeavesUnfold(loc: string, j: Json)
    ensures Leaves(loc, j, true) == if j.Str? then [Leaf(loc, j.s)] else LeavesOf(Children(loc, j, true), true)
    ensures Size(j) > 0
  {
  }

  // ----- which field a string belongs to

  predicate Owns(path: string, loc: string) {
    loc == path || StartsWith(loc, path + ".")
  }

  /** The strings of an object are those of its members, one after another. */
  lemma LeavesOfFields(loc: string, f: seq<(string, Json)>, g: seq<(string, Json)>)
    ensures Leaves(loc, Obj(f + g), false) == Leaves(loc, Obj(f), false) + Leaves(loc, Obj(g), false)
  {
    var cf, cg := Children(loc, Obj(f), false), Children(loc, Obj(g), false);
    assert Children(loc, Obj(f + g), false) == cf + cg;
    LeavesConcat(cf, cg);
    hide LeavesOf, Children;
  }

  /** A string is at its own location, a member of an object under its name. */
  lemma LeavesAt(loc: string, s: string, k: string, v: Json)
    ensures Leaves(loc, Str(s), false) == [Leaf(loc, s)]
    ensures Leaves(loc, Obj([(k, v)]), false) == Leaves(loc + "." + k, v, false)
  {
    var c := (Extended(loc, k, false), v);
    assert Children(loc, Obj([(k, v)]), false) == [c];
    OneChild(c);
    hide LeavesOf, Children;
  }

  /** A list has its elements' strings in order, each element under its number. */
  lemma LeavesOfItems(loc: string, items: seq<Json>, x: Json)
    ensures Leaves(loc, Arr(items + [x]), false) ==
      Leaves(loc, Arr(items), false) + Leaves(loc + "." + Decimal(|items|), x, false)
  {
    var c := (Extended(loc, Decimal(|items|), false), x);
    var ci := Children(loc, Arr(items), false);
    assert c.0 == loc + "." + Decimal(|items|);
    hide LeavesOf, Children, Decimal, Extended;
    OneItemMore(loc, items, x);
    LeavesConcat(ci, [c]);
    OneChild(c);
  }

  lemma OneItemMore(loc: string, items: seq<Json>, x: Json)
    ensures Children(loc, Arr(items + [x]), false) ==
      Children(loc, Arr(items), false) + [(Extended(loc, Decimal(|items|), false), x)]
  {
    hide Decimal, Extended, Children;
    var was, now := Children(loc, Arr(items), false), Children(loc, Arr(items + [x]), false);
    forall i | 0 <= i < |items| ensures now[i] == was[i] {
      ItemAt(loc, items, i);
      ItemAt(loc, items + [x], i);
    }
    ItemAt(loc, items + [x], |items|);
  }

  lemma ItemAt(loc: string, items: seq<Json>, i: nat)
    requires i < |items|
    ensures Children(loc, Arr(items), false)[i] == (Extended(loc, Decimal(i), false), items[i])
  {
    hide Decimal, Extended;
  }

  lemma OneChild(c: (string, Json))
    ensures LeavesOf([c], false) == Leaves(c.0, c.1, false)
  {
    assert [c][1..] == [];
  }

  lemma {:induction false} LeavesConcat(a: seq<(string, Json)>, b: seq<(string, Json)>)
    ensures LeavesOf(a + b, false) == LeavesOf(a, false) + LeavesOf(b, false)
    decreases |a|
  {
    if a == [] {
      assert a + b == b;
    } else {
      assert (a + b)[1..] == a[1..] + b;
      LeavesConcat(a[1..], b);
    }
  }

  /** Cutting a location does not change which field owns it. */
  lemma OwnershipSurvivesCut(path: string, loc: string)
    requires |path| < MAX_LOC
    ensures Owns(path, Clipped(loc, MAX_LOC)) <==> Owns(path, loc)
  {
    if |loc| > MAX_LOC {
      assert loc[..MAX_LOC][..|path| + 1] == loc[..|path| + 1];
    }
  }

  // ----- references

  predicate At(text: string, i: nat, mark: string) {
    i + |mark| <= |text| && text[i..i + |mark|] == mark
  }

  predicate Contains(text: string, mark: string) {
    exists i: nat :: i <= |text| && At(text, i, mark)
  }

  /** `rfind`: the last position of mark, -1 if there is none. */
  function LastAt(text: string, mark: string, upTo: nat): (k: int)
    ensures k >= -1 && (k >= 0 ==> At(text, k, mark))
  {
    if At(text, upTo, mark) then upTo
    else if upTo == 0 then -1
    else LastAt(text, mark, upTo - 1)
  }

  predicate Unclosed(text: string) {
    LastAt(text, "{{", |text|) > LastAt(text, "}}", |text|)
  }

  function BraceFrom(text: string, i: nat): (k: nat)
    requires i <= |text|
    ensures i <= k <= |text|
    ensures k < |text| ==> text[k] in "{}"
    ensures forall m | i <= m < k :: text[m] !in "{}"
    decreases |text| - i
  {
    if i == |text| || text[i] in "{}" then i else BraceFrom(text, i + 1)
  }

  /** What stands between double braces, without a brace inside; matches do not overlap. */
  function Bodies(text: string, i: nat): seq<string>
    requires i <= |text|
    decreases |text| - i
  {
    if i == |text| then []
    else if At(text, i, "{{") then
      var k := BraceFrom(text, i + 2);
      if At(text, k, "}}") then [text[i + 2..k]] + Bodies(text, k + 2) else Bodies(text, i + 1)
    else Bodies(text, i + 1)
  }

  datatype Ref = Ref(target: string, path: string)

  predicate AlphaNum(c: char) {
    'a' <= c <= 'z' || 'A' <= c <= 'Z' || '0' <= c <= '9'
  }

  predicate IdText(s: string) {
    s != "" && forall i | 0 <= i < |s| :: AlphaNum(s[i]) || s[i] == '-'
  }

  predicate PathText(s: string) {
    s != "" && forall i | 0 <= i < |s| :: AlphaNum(s[i]) || s[i] == '_' || s[i] == '.'
  }

  function UpToDot(s: string): (k: nat)
    ensures k <= |s|
    ensures k < |s| ==> s[k] == '.'
    ensures forall m | 0 <= m < k :: s[m] != '.'
  {
    if s == "" || s[0] == '.' then 0 else 1 + UpToDot(s[1..])
  }

  const NODES := "nodes."
  const OUTPUT := ".output."

  /** The whole body must read nodes.<id>.output.<path>. */
  function ParseRef(body: string): Option<Ref> {
    if !StartsWith(body, NODES) then None
    else
      var rest := body[|NODES|..];
      var k := UpToDot(rest);
      if !StartsWith(rest[k..], OUTPUT) then None
      else
        var id, path := rest[..k], rest[k + |OUTPUT|..];
        if IdText(id) && PathText(path) then Some(Ref(id, path)) else None
  }

  function Printed(r: Ref): string {
    NODES + r.target + OUTPUT + r.path
  }

  lemma Split(prefix: string, rest: string)
    ensures StartsWith(prefix + rest, prefix) && (prefix + rest)[|prefix|..] == rest
    ensures (prefix + rest)[..|prefix|] == prefix
  {
  }

  lemma {:induction false} DotAfter(id: string, rest: string)
    requires (forall i | 0 <= i < |id| :: id[i] != '.') && rest != "" && rest[0] == '.'
    ensures UpToDot(id + rest) == |id|
  {
    if id == "" {
      assert id + rest == rest;
    } else {
      assert (id + rest)[1..] == id[1..] + rest;
      DotAfter(id[1..], rest);
    }
  }

  /** A letter or digit, by its code. */
  predicate Coded(c: char) {
    var n := c as int;
    48 <= n <= 57 || 65 <= n <= 90 || 97 <= n <= 122
  }

  /** How a reference is spelled: letters and digits, in an id also hyphens, in a path dots and underscores. */
  lemma Spelling(r: Ref)
    ensures Printed(r) == "nodes." + r.target + ".output." + r.path
    ensures IdText(r.target) <==> r.target != "" && forall c | c in r.target :: Coded(c) || c == '-'
    ensures PathText(r.path) <==> r.path != "" && forall c | c in r.path :: Coded(c) || c == '_' || c == '.'
  {
    assert forall i | 0 <= i < |r.target| :: r.target[i] in r.target;
    assert forall i | 0 <= i < |r.path| :: r.path[i] in r.path;
  }

  /** A body is read as a reference exactly when it is that reference written out. */
  lemma ParsePrinted(body: string, r: Ref)
    ensures ParseRef(body) == Some(r) <==> body == Printed(r) && IdText(r.target) && PathText(r.path)
  {
    if IdText(r.target) && PathText(r.path) { PrintedIsParsed(r); }
    if ParseRef(body).Some? { ParsedIsPrinted(body); }
    hide IdText, PathText, Printed, ParseRef;
  }

  lemma ParsedIsPrinted(body: string)
    requires ParseRef(body).Some?
    ensures var r := ParseRef(body).value;
      body == Printed(r) && IdText(r.target) && PathText(r.path)
  {
    hide IdText, PathText, UpToDot;
    var rest := body[|NODES|..];
    CutAround(body, NODES, UpToDot(rest), OUTPUT);
  }

  /** A text with one mark in front and another further on is its pieces put together. */
  lemma CutAround(text: string, l: string, k: nat, r: string)
    requires |l| <= |text| && text[..|l|] == l
    requires var rest := text[|l|..]; k + |r| <= |rest| && rest[k..k + |r|] == r
    ensures var rest := text[|l|..]; text == l + rest[..k] + r + rest[k + |r|..]
  {
  }

  lemma PrintedIsParsed(r: Ref)
    requires IdText(r.target) && PathText(r.path)
    ensures ParseRef(Printed(r)) == Some(r)
  {
    var tail := OUTPUT + r.path;
    var rest := r.target + tail;
    assert forall i | 0 <= i < |r.target| :: r.target[i] != '.';
    DotAfter(r.target, tail);
    hide IdText, PathText, UpToDot;
    assert Printed(r) == NODES + rest;
    Split(NODES, rest);
    Split(r.target, tail);
    Split(OUTPUT, r.path);
    assert rest[|r.target| + |OUTPUT|..] == tail[|OUTPUT|..];
  }

  // ----- what the two scans of a string find, said without scanning

  /** No brace in the stretch from i to k. */
  predicate NoBracesIn(text: string, i: nat, k: nat) {
    i <= k <= |text| && forall m | i <= m < k :: text[m] !in "{}"
  }

  /** Double braces open at i and close at k, with no brace between. */
  predicate BodyAt(text: string, i: nat, k: nat) {
    At(text, i, "{{") && At(text, k, "}}") && NoBracesIn(text, i + 2, k)
  }

  lemma MarkAt(text: string, i: nat, c: char)
    ensures At(text, i, [c, c]) <==> i + 1 < |text| && text[i] == c && text[i + 1] == c
  {
    if i + 2 <= |text| {
      assert text[i..i + 2][0] == text[i] && text[i..i + 2][1] == text[i + 1];
    }
  }

  lemma EndsHere(text: string, i: nat, k: nat)
    requires BodyAt(text, i, k)
    ensures i + 2 <= k && k + 1 < |text| && BraceFrom(text, i + 2) == k
  {
    MarkAt(text, k, '}');
    var b := BraceFrom(text, i + 2);
    assert text[k] == '}';
  }

  /** A match leaves no room for another one that starts inside it. */
  lemma NoneInside(text: string, i: nat, k: nat, j: nat)
    requires BodyAt(text, i, k) && i < j < k + 2
    ensures !At(text, j, "{{")
  {
    EndsHere(text, i, k);
    MarkAt(text, i, '{');
    MarkAt(text, j, '{');
    MarkAt(text, k, '}');
    if j + 1 < |text| && text[j] == '{' { assert j == i + 1; }
  }

  ghost predicate BodyFrom(text: string, from: nat, body: string) {
    exists i: nat, k: nat :: from <= i && BodyAt(text, i, k) && body == text[i + 2..k]
  }

  /** The scan from a position on finds exactly what starts there or later. */
  lemma {:induction false} BodiesFrom(text: string, from: nat, body: string)
    requires from <= |text|
    ensures body in Bodies(text, from) <==> BodyFrom(text, from, body)
    decreases |text| - from
  {
    hide Bodies, BodyAt, BodyFrom, At;
    if from == |text| {
      NoneLeft(text, body);
    } else if exists k: nat :: BodyAt(text, from, k) {
      var k: nat :| BodyAt(text, from, k);
      Hit(text, from, k);
      BodiesFrom(text, k + 2, body);
      Skipped(text, from, k, body);
    } else {
      Miss(text, from);
      BodiesFrom(text, from + 1, body);
      NotHere(text, from, body);
    }
  }

  lemma NoneLeft(text: string, body: string)
    ensures Bodies(text, |text|) == [] && !BodyFrom(text, |text|, body)
  {
  }

  lemma Hit(text: string, from: nat, k: nat)
    requires BodyAt(text, from, k)
    ensures from + 2 <= k && k + 2 <= |text| && Bodies(text, from) == [text[from + 2..k]] + Bodies(text, k + 2)
  {
    EndsHere(text, from, k);
    hide At, NoBracesIn, BraceFrom;
  }

  lemma Miss(text: string, from: nat)
    requires from < |text| && forall k: nat :: !BodyAt(text, from, k)
    ensures Bodies(text, from) == Bodies(text, from + 1)
  {
    if At(text, from, "{{") {
      assert !BodyAt(text, from, BraceFrom(text, from + 2));
      hide At, BraceFrom;
    }
  }

  lemma Skipped(text: string, from: nat, k: nat, body: string)
    requires BodyAt(text, from, k)
    ensures BodyFrom(text, from, body) <==> body == text[from + 2..k] || BodyFrom(text, k + 2, body)
  {
    hide At, NoBracesIn;
    EndsHere(text, from, k);
    forall i: nat, m: nat | from <= i && BodyAt(text, i, m) ensures (i == from && m == k) || k + 2 <= i {
      EndsHere(text, i, m);
      if from < i < k + 2 { NoneInside(text, from, k, i); }
    }
  }

  lemma NotHere(text: string, from: nat, body: string)
    requires from < |text| && forall k: nat :: !BodyAt(text, from, k)
    ensures BodyFrom(text, from, body) <==> BodyFrom(text, from + 1, body)
  {
    hide At, NoBracesIn, BodyAt;
  }

  /** A body is found exactly where double braces open and close with no brace between. */
  lemma BodiesExact(text: string, body: string)
    ensures body in Bodies(text, 0) <==> exists i: nat, k: nat :: BodyAt(text, i, k) && body == text[i + 2..k]
  {
    hide Bodies, At;
    BodiesFrom(text, 0, body);
  }

  /** Some double brace opens after the last one that closes. */
  ghost predicate LeftOpen(text: string) {
    exists i: nat :: At(text, i, "{{") && forall k: nat | At(text, k, "}}") :: k < i
  }

  lemma {:induction false} LastIsLast(text: string, mark: string, upTo: nat, k: nat)
    requires k <= upTo && At(text, k, mark)
    ensures k <= LastAt(text, mark, upTo)
  {
    if !At(text, upTo, mark) { LastIsLast(text, mark, upTo - 1, k); }
  }

  lemma UnclosedExact(text: string)
    ensures Unclosed(text) <==> LeftOpen(text)
  {
    var open, close := LastAt(text, "{{", |text|), LastAt(text, "}}", |text|);
    if open > close {
      assert At(text, open, "{{");
      forall k: nat | At(text, k, "}}") ensures k < open { LastIsLast(text, "}}", |text|, k); }
    }
    if LeftOpen(text) {
      var i: nat :| At(text, i, "{{") && forall k: nat | At(text, k, "}}") :: k < i;
      LastIsLast(text, "{{", |text|, i);
      hide At;
      if close >= 0 { assert At(text, close, "}}"); }
    }
  }
}
