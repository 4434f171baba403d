/**
 * Dotted paths into nested JSON: reading one, and writing one with the missing containers made on
 * the way. A segment of digits is a list index.
 */
module Paths {
  import opened Wrappers
  import opened Json
  import Text

  datatype Segment = Key(name: string) | Index(at: nat)

  predicate AllDigits(s: string) {
    s != "" && forall i | 0 <= i < |s| :: '0' <= s[i] <= '9'
  }

  function ToNat(s: string): nat
    requires forall i | 0 <= i < |s| :: '0' <= s[i] <= '9'
  {
    if s == "" then 0 else ToNat(s[..|s| - 1]) * 10 + (s[|s| - 1] as nat - '0' as nat)
  }

  function Parsed(raw: string): Segment {
    if AllDigits(raw) then Index(ToNat(raw)) else Key(raw)
  }

  /** `path.split(".")`, each part read as a key or an index. */
  function Segments(path: string): (segs: seq<Segment>)
    ensures segs != []
  {
    SegmentsFrom(path, "")
  }

  function SegmentsFrom(rest: string, part: string): (segs: seq<Segment>)
    ensures segs != []
    decreases |rest|
  {
    if rest == "" then [Parsed(part)]
    else if rest[0] == '.' then [Parsed(part)] + SegmentsFrom(rest[1..], "")
    else SegmentsFrom(rest[1..], part + [rest[0]])
  }

  // ----- reading

  /** One step into a container; None where Python's reader gives up. */
  function Child(j: Json, s: Segment): Option<Json> {
    match s
    case Key(k) => if j.Obj? then Lookup(j.fields, k) else None
    case Index(i) => if j.Arr? && i < |j.items| then Some(j.items[i]) else None
  }

  function Find(j: Json, segs: seq<Segment>): Option<Json>
    decreases |segs|
  {
    if segs == [] then Some(j)
    else match Child(j, segs[0])
      case None => None
      case Some(c) => Find(c, segs[1..])
  }

  function GetByPath(j: Json, path: string): Json {
    match Find(j, Segments(path))
    case Some(v) => v
    case None => Null
  }

  /** `_get_by_path`: a cursor that walks down. */
  method ReadPath(obj: Json, path: string) returns (v: Json)
    ensures v == GetByPath(obj, path)
  {
    var segs := Segments(path);
    var cur := obj;
    for i := 0 to |segs|
      invariant Find(obj, segs) == Find(cur, segs[i..])
    {
      assert segs[i..][0] == segs[i] && segs[i..][1..] == segs[i + 1..];
      match segs[i] {
        case Index(at) =>
          if !cur.Arr? || at >= |cur.items| { return Null; }
          cur := cur.items[at];
        case Key(k) =>
          if !cur.Obj? || Lookup(cur.fields, k).None? { return Null; }
          cur := Lookup(cur.fields, k).value;
      }
    }
    assert segs[|segs|..] == [];
    return cur;
  }

  // ----- writing

  /** The container made for what comes next. */
  function Made(next: Segment): Json {
    if next.Index? then Arr([]) else Obj([])
  }

  function Padded(items: seq<Json>, n: nat, fill: Json): (r: seq<Json>)
    ensures |r| == if |items| < n then n else |items|
    ensures forall i | 0 <= i < |r| :: r[i] == if i < |items| then items[i] else fill
  {
    if |items| < n then items + seq(n - |items|, i => fill) else items
  }

  /** The element the writer steps into: the old one if it is a container, else a new one. */
  function StepInto(had: Option<Json>, next: Segment): Json {
    if had.Some? && IsContainer(had.value) then had.value else Made(next)
  }

  /**
   * `_set_by_path`. Err: the container at hand is not of the kind the segment needs, where the
   * program raises, or puts a number among the text keys of a dict.
   */
  function Set(j: Json, segs: seq<Segment>, v: Json): Result<Json, ()>
    requires segs != []
    decreases |segs|
  {
    match segs[0]
    case Key(k) =>
      if !j.Obj? then Err(())
      else if |segs| == 1 then Ok(Obj(Put(j.fields, k, v)))
      else
        var below := Set(StepInto(Lookup(j.fields, k), segs[1]), segs[1..], v);
        if below.Err? then below else Ok(Obj(Put(j.fields, k, below.value)))
    case Index(i) =>
      if !j.Arr? then Err(())
      else if |segs| == 1 then Ok(Arr(Padded(j.items, i + 1, Null)[i := v]))
      else
        // padding puts an empty dict at i, and a dict counts as a container whatever comes next
        var items := Padded(j.items, i + 1, Obj([]));
        var below := Set(StepInto(Some(items[i]), segs[1]), segs[1..], v);
        if below.Err? then below else Ok(Arr(items[i := below.value]))
  }

  // ----- what was written is read back

  lemma {:induction false} SetThenFind(j: Json, segs: seq<Segment>, v: Json)
    requires segs != [] && Set(j, segs, v).Ok?
    ensures Find(Set(j, segs, v).value, segs) == Some(v)
    decreases |segs|
  {
    var out := Set(j, segs, v).value;
    if |segs| > 1 {
      var next := match segs[0]
        case Key(k) => StepInto(Lookup(j.fields, k), segs[1])
        case Index(i) => StepInto(Some(Padded(j.items, i + 1, Obj([]))[i]), segs[1]);
      SetThenFind(next, segs[1..], v);
      if segs[0].Key? { LookupPut(j.fields, segs[0].name, Set(next, segs[1..], v).value, segs[0].name); }
      assert Child(out, segs[0]) == Some(Set(next, segs[1..], v).value);
    } else {
      if segs[0].Key? { LookupPut(j.fields, segs[0].name, v, segs[0].name); }
      assert Child(out, segs[0]) == Some(v);
      assert segs[1..] == [];
    }
  }

  // ----- what lies elsewhere stays

  /** The paths part at some segment. */
  predicate Diverge(p: seq<Segment>, q: seq<Segment>) {
    p != [] && q != [] && (p[0] != q[0] || Diverge(p[1..], q[1..]))
  }

  /** Beside the path nothing that was there changes; what appears there is only list padding. */
  lemma {:induction false} SetKeepsElsewhere(j: Json, segs: seq<Segment>, v: Json, q: seq<Segment>)
    requires segs != [] && Set(j, segs, v).Ok? && Diverge(segs, q)
    ensures var after := Find(Set(j, segs, v).value, q);
      if Find(j, q).Some? then after == Find(j, q) else after in {None, Some(Null), Some(Obj([]))}
    decreases |segs|
  {
    var out := Set(j, segs, v).value;
    if segs[0] != q[0] {
      ChildElsewhere(j, segs, v, q[0]);
      FindInPadding(q[1..]);
    } else {
      var had := Child(j, segs[0]);
      var next := match segs[0]
        case Key(k) => StepInto(Lookup(j.fields, k), segs[1])
        case Index(i) => StepInto(Some(Padded(j.items, i + 1, Obj([]))[i]), segs[1]);
      if segs[0].Key? { LookupPut(j.fields, segs[0].name, Set(next, segs[1..], v).value, segs[0].name); }
      assert Child(out, q[0]) == Some(Set(next, segs[1..], v).value);
      SetKeepsElsewhere(next, segs[1..], v, q[1..]);
      assert q[1..] != [];
      if had.Some? && IsContainer(had.value) {
        assert next == had.value;
      } else {
        assert Find(j, q).None?;
        assert next == Arr([]) || next == Obj([]);
        assert Child(next, q[1..][0]).None?;
      }
    }
  }

  lemma ChildElsewhere(j: Json, segs: seq<Segment>, v: Json, s: Segment)
    requires segs != [] && Set(j, segs, v).Ok? && s != segs[0]
    ensures var after := Child(Set(j, segs, v).value, s);
      after == Child(j, s) || (Child(j, s).None? && after in {Some(Null), Some(Obj([]))})
  {
    if segs[0].Key? && s.Key? {
      var c := if |segs| == 1 then v else Set(StepInto(Lookup(j.fields, segs[0].name), segs[1]), segs[1..], v).value;
      LookupPut(j.fields, segs[0].name, c, s.name);
    }
  }

  lemma FindInPadding(q: seq<Segment>)
    ensures Find(Null, q) in {None, Some(Null)} && Find(Obj([]), q) in {None, Some(Obj([]))}
  {
  }

  /**
   * A list that a write passes or ends in grows to the index written, no further: empty objects in
   * between on the way, nulls at the end. What it held stays, but for the element written into.
   */
  predicate Grown(was: seq<Json>, i: nat, last: bool, now: seq<Json>) {
    && |now| == (if |was| <= i then i + 1 else |was|)
    && (forall k | 0 <= k < |was| && k != i :: now[k] == was[k])
    && (forall k | |was| <= k < i :: now[k] == if last then Null else Obj([]))
  }

  lemma {:induction false} ListsGrow(j: Json, p: seq<Segment>, i: nat, rest: seq<Segment>, v: Json)
    requires Find(j, p).Some? && Find(j, p).value.Arr? && Set(j, p + [Index(i)] + rest, v).Ok?
    ensures var after := Find(Set(j, p + [Index(i)] + rest, v).value, p);
      after.Some? && after.value.Arr? && Grown(Find(j, p).value.items, i, rest == [], after.value.items)
    decreases |p|
  {
    var segs := p + [Index(i)] + rest;
    if p == [] {
      assert segs == [Index(i)] + rest;
    } else {
      assert segs[0] == p[0] && segs[1..] == p[1..] + [Index(i)] + rest;
      var c := Child(j, p[0]).value;
      assert IsContainer(c) by { WayIsContainers(c, p[1..]); }
      var below := Set(c, segs[1..], v).value;
      if p[0].Key? { LookupPut(j.fields, p[0].name, below, p[0].name); }
      assert Child(Set(j, segs, v).value, p[0]) == Some(below);
      ListsGrow(c, p[1..], i, rest, v);
    }
  }

  lemma WayIsContainers(c: Json, p: seq<Segment>)
    requires Find(c, p).Some? && Find(c, p).value.Arr?
    ensures IsContainer(c)
  {
  }

  /** An object that a write passes or ends in gets at most the key written, at the end. */
  lemma {:induction false} ObjectsGrow(j: Json, p: seq<Segment>, k: string, rest: seq<Segment>, v: Json)
    requires Find(j, p).Some? && Find(j, p).value.Obj? && Set(j, p + [Key(k)] + rest, v).Ok?
    ensures var after, names := Find(Set(j, p + [Key(k)] + rest, v).value, p), Names(Find(j, p).value.fields);
      after.Some? && after.value.Obj? && Names(after.value.fields) == if k in names then names else names + [k]
    decreases |p|
  {
    var segs := p + [Key(k)] + rest;
    if p == [] {
      assert segs == [Key(k)] + rest;
      var below := if rest == [] then v else Set(StepInto(Lookup(j.fields, k), segs[1]), segs[1..], v).value;
      PutOrder(j.fields, k, below);
    } else {
      assert segs[0] == p[0] && segs[1..] == p[1..] + [Key(k)] + rest;
      var c := Child(j, p[0]).value;
      assert IsContainer(c) by { WayToObject(c, p[1..]); }
      var below := Set(c, segs[1..], v).value;
      if p[0].Key? { LookupPut(j.fields, p[0].name, below, p[0].name); }
      assert Child(Set(j, segs, v).value, p[0]) == Some(below);
      ObjectsGrow(c, p[1..], k, rest, v);
    }
  }

  lemma WayToObject(c: Json, p: seq<Segment>)
    requires Find(c, p).Some? && Find(c, p).value.Obj?
    ensures IsContainer(c)
  {
  }

  // ----- when a write goes through

  /** No index right after an index, from the second segment on. */
  predicate NoAdjacentIndexes(segs: seq<Segment>) {
    forall i | 0 <= i < |segs| - 1 :: !(segs[i].Index? && segs[i + 1].Index?)
  }

  predicate KindFits(j: Json, s: Segment) {
    if s.Key? then j.Obj? else j.Arr?
  }

  /**
   * The write goes through: every container already there is of the kind its segment asks for, and
   * where containers have to be made, no index follows an index (unless the first of the two
   * replaces an element that is there).
   */
  predicate Writable(j: Json, segs: seq<Segment>)
    requires segs != []
    decreases |segs|
  {
    && KindFits(j, segs[0])
    && (|segs| == 1 ||
        match Child(j, segs[0])
        case Some(c) =>
          if IsContainer(c) then Writable(c, segs[1..]) else NoAdjacentIndexes(segs[1..])
        case None => NoAdjacentIndexes(segs[if segs[0].Index? then 0 else 1..]))
  }

  lemma AdjacentCons(segs: seq<Segment>)
    requires |segs| > 1
    ensures NoAdjacentIndexes(segs) <==> !(segs[0].Index? && segs[1].Index?) && NoAdjacentIndexes(segs[1..])
  {
    var rest := segs[1..];
    if NoAdjacentIndexes(segs) {
      forall i | 0 <= i < |rest| - 1 ensures !(rest[i].Index? && rest[i + 1].Index?) {
        assert !(segs[i + 1].Index? && segs[i + 1 + 1].Index?);
      }
    }
    if !(segs[0].Index? && segs[1].Index?) && NoAdjacentIndexes(rest) {
      forall i | 0 <= i < |segs| - 1 ensures !(segs[i].Index? && segs[i + 1].Index?) {
        if i > 0 { assert !(rest[i - 1].Index? && rest[i - 1 + 1].Index?); }
      }
    }
  }

  lemma {:induction false} SetOnMade(segs: seq<Segment>, v: Json)
    requires segs != []
    ensures Set(Made(segs[0]), segs, v).Ok? <==> NoAdjacentIndexes(segs)
  {
    if |segs| > 1 {
      var made := Made(segs[0]);
      var next := if segs[0].Key? then Made(segs[1]) else Obj([]);
      AdjacentCons(segs);
      if segs[0].Index? && segs[1].Index? {
        assert Padded([], segs[0].at + 1, Obj([]))[segs[0].at] == Obj([]);
        assert Set(Obj([]), segs[1..], v).Err?;
      } else {
        assert next == Made(segs[1]);
        SetOnMade(segs[1..], v);
      }
    }
  }

  /** Exactly the writable paths can be written. */
  lemma {:induction false} SetIffWritable(j: Json, segs: seq<Segment>, v: Json)
    requires segs != []
    ensures Set(j, segs, v).Ok? <==> Writable(j, segs)
    decreases |segs|
  {
    if KindFits(j, segs[0]) && |segs| > 1 {
      match Child(j, segs[0])
      case Some(c) =>
        if IsContainer(c) {
          SetIffWritable(c, segs[1..], v);
        } else {
          SetOnMade(segs[1..], v);
        }
      case None =>
        SetOnMade(segs[1..], v);
        if segs[0].Index? {
          SetOnMade(segs, v);
          assert Made(segs[0]) == Arr([]);
          assert Padded([], segs[0].at + 1, Obj([]))[segs[0].at] == Obj([]);
        }
    }
  }

  // ----- on path texts

  /** The position of a list element, as it is written in a location, is read back as that index. */
  lemma {:induction false} IndexReadBack(n: nat)
    ensures var s := Text.Decimal(n);
      Parsed(s) == Index(n) && (n > 0 ==> s[0] != '0')
  {
    var s := Text.Decimal(n);
    if n >= 10 {
      IndexReadBack(n / 10);
      var init := Text.Decimal(n / 10);
      assert s == init + [('0' as int + n % 10) as char] && s[..|s| - 1] == init;
    } else {
      assert s[..0] == "" && s[0] as nat - '0' as nat == n;
      assert ToNat(s) == n;
    }
  }

  lemma {:induction false} SegmentsJoin(a: string, b: string, part: string)
    ensures SegmentsFrom(a + "." + b, part) == SegmentsFrom(a, part) + Segments(b)
    decreases |a|
  {
    if a == "" {
      assert ("." + b)[1..] == b && a + "." + b == "." + b;
    } else {
      assert (a + "." + b)[1..] == a[1..] + "." + b;
      if a[0] == '.' { SegmentsJoin(a[1..], b, ""); } else { SegmentsJoin(a[1..], b, part + [a[0]]); }
    }
  }

  /** A write along a path text goes through exactly on a writable path, and then reading the path gives the value. */
  lemma WriteThenRead(obj: Json, path: string, v: Json)
    ensures var out := Set(obj, Segments(path), v);
      && (out.Ok? <==> Writable(obj, Segments(path)))
      && (out.Ok? ==> GetByPath(out.value, path) == v)
  {
    SetIffWritable(obj, Segments(path), v);
    if Set(obj, Segments(path), v).Ok? { SetThenFind(obj, Segments(path), v); }
  }

  lemma WithoutDots(s: string, part: string)
    requires forall i | 0 <= i < |s| :: s[i] != '.'
    ensures SegmentsFrom(s, part) == [Parsed(part + s)]
  {
    if s == "" {
      assert part + s == part;
    } else {
      assert (part + [s[0]]) + s[1..] == part + s;
    }
  }

  predicate Undotted(s: string) {
    forall i | 0 <= i < |s| :: s[i] != '.'
  }

  lemma Dotted(a: string, b: string)
    requires Undotted(a)
    ensures Segments(a + "." + b) == [Parsed(a)] + Segments(b) && Segments(a) == [Parsed(a)]
  {
    SegmentsJoin(a, b, "");
    WithoutDots(a, "");
    assert "" + a == a;
  }

  lemma Named(s: string)
    requires s != "" && !('0' <= s[0] <= '9')
    ensures Parsed(s) == Key(s)
  {
  }

  /** A list that is missing right inside a missing list, and a list where an object is needed. */
  lemma CannotWrite(k: string, l: string, v: Json)
    ensures Set(Obj([]), [Key(k), Index(0), Index(0)], v).Err?
    ensures Set(Obj([(k, Arr([]))]), [Key(k), Key(l)], v).Err?
  {
    var tail, last := [Index(0), Index(0)], [Index(0)];
    assert [Key(k), Index(0), Index(0)][1..] == tail && tail[1..] == last;
    assert [Key(k), Key(l)][1..] == [Key(l)];
    assert Padded([], 1, Obj([]))[0] == Obj([]);
    assert Set(Obj([]), last, v).Err?;
  }

  lemma TwoParts(a: string, b: string)
    requires Undotted(a) && Undotted(b)
    ensures Segments(a + "." + b) == [Parsed(a), Parsed(b)]
  {
    Dotted(a, b);
    Dotted(b, "");
  }

  lemma IndexPath()
    ensures Segments("a.0.0") == [Key("a"), Index(0), Index(0)]
  {
    assert Undotted("a") && Undotted("0") && Parsed("0") == Index(0);
    hide *;
    Named("a");
    TwoParts("0", "0");
    Dotted("a", "0" + "." + "0");
    assert "a.0.0" == "a" + "." + ("0" + "." + "0");
  }

  lemma PromptPath()
    ensures Segments("config.prompt") == [Key("config"), Key("prompt")]
  {
    assert Undotted("config") && Undotted("prompt");
    hide *;
    Named("config");
    Named("prompt");
    TwoParts("config", "prompt");
    assert "config.prompt" == "config" + "." + "prompt";
  }

  /** Two writes that fail. */
  lemma FailingWrites(v: Json)
    ensures Set(Obj([]), Segments("a.0.0"), v).Err?
    ensures Set(Obj([("config", Arr([]))]), Segments("config.prompt"), v).Err?
  {
    hide Segments, SegmentsFrom, Set;
    IndexPath();
    PromptPath();
    CannotWrite("a", "prompt", v);
    CannotWrite("config", "prompt", v);
  }
}
