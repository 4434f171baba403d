/**
 * The keys of a branch node's branches. Edges point at them, so a rewrite of the branch list by the
 * language model must not change the key of a branch that is still there.
 */
module BranchKeys {
  import opened Wrappers
  import opened Text
  import opened Json

  const RESERVED := ["else", "true", "false"]

  /** `str(b.get("name") or "").strip()`; str is Python's. */
  function NameOf(str: Json -> string, b: Json): string {
    var name := Get(b, "name");
    if name.Str? then Strip(name.s)
    else if name == Null || name == Bool(false) || name == Int(0) || name == Float(0.0) ||
      name == Arr([]) || name == Obj([]) then ""
    else Strip(str(name))
  }

  /** A key that edges may point at. */
  predicate Usable(key: Json) {
    key.Str? && key.s != "" && key.s !in RESERVED
  }

  /** The branches now stored; anything that is not an object is passed over. */
  function OldBranches(current: Json): seq<Json> {
    if current.Arr? then ObjectsIn(current.items) else []
  }

  function ObjectsIn(items: seq<Json>): (r: seq<Json>)
    ensures forall b | b in r :: b.Obj?
  {
    if items == [] then [] else (if items[0].Obj? then [items[0]] else []) + ObjectsIn(items[1..])
  }

  function Existing(branches: seq<Json>): (keys: set<string>)
    ensures forall k :: k in keys <==> k != "" && k !in RESERVED && exists b :: b in branches && Get(b, "key") == Str(k)
  {
    if branches == [] then {}
    else
      var key := Get(branches[0], "key");
      (if Usable(key) then {key.s} else {}) + Existing(branches[1..])
  }

  /** The usable key of the first branch with the name. */
  function KeyByName(str: Json -> string, branches: seq<Json>, name: string): (key: Option<string>)
    ensures key.Some? ==> key.value in Existing(branches)
  {
    if branches == [] || name == "" then None
    else if NameOf(str, branches[0]) == name && Usable(Get(branches[0], "key")) then Some(Get(branches[0], "key").s)
    else KeyByName(str, branches[1..], name)
  }

  /** What an element says its key is: stripped text, anything else as it is. */
  function SentKey(b: Json): Json {
    var key := Get(b, "key");
    if key.Str? then Str(Strip(key.s)) else key
  }

  function SentKeys(value: seq<Json>): (sent: seq<Json>)
    ensures |sent| == |value| && forall i | 0 <= i < |sent| :: sent[i] == SentKey(value[i])
  {
    seq(|value|, i requires 0 <= i < |value| => SentKey(value[i]))
  }

  // ----- which key goes where

  /** The element sends a key in use, and is the first to send it. */
  predicate Reserves(stored: seq<Json>, sent: seq<Json>, i: nat): (r: bool)
    requires i < |sent|
    ensures r ==> sent[i].Str?
  {
    && sent[i].Str? && sent[i].s in Existing(stored)
    && forall j | 0 <= j < i :: sent[j] != sent[i]
  }

  /** The key its name had, if the element sends none. */
  function Inherited(str: Json -> string, stored: seq<Json>, b: Json): Option<string> {
    if SentKey(b) == Null || SentKey(b) == Str("") then KeyByName(str, stored, NameOf(str, b)) else None
  }

  predicate IsNew(stored: seq<Json>, key: string) {
    StartsWith(key, "b_") && key !in Existing(stored)
  }

  /** The assignment's clause for one element; only keys up to it matter. */
  ghost predicate StepFine(str: Json -> string, stored: seq<Json>, value: seq<Json>, keys: seq<string>, i: nat)
    requires i < |keys| && |keys| <= |value|
  {
    var sent := SentKeys(value);
    if Reserves(stored, sent, i) then keys[i] == sent[i].s
    else if InheritsAt(str, stored, value, keys, i) then keys[i] == Inherited(str, stored, value[i]).value
    else IsNew(stored, keys[i])
  }

  /**
   * The assignment: a reserved key stays with the element that reserved it; an element without a key
   * takes over the key of its name unless it is reserved or an earlier element took it; every other
   * element gets a new key.
   */
  ghost predicate Assigned(str: Json -> string, stored: seq<Json>, value: seq<Json>, keys: seq<string>) {
    && |keys| == |value|
    && (forall i, j | 0 <= i < j < |keys| :: keys[i] != keys[j])
    && (forall i | 0 <= i < |keys| :: StepFine(str, stored, value, keys, i))
  }

  ghost predicate InheritsAt(str: Json -> string, stored: seq<Json>, value: seq<Json>, keys: seq<string>, i: nat)
    requires i < |value| && i < |keys|
  {
    var inherited := Inherited(str, stored, value[i]);
    && inherited.Some?
    && (forall j | 0 <= j < |value| ::
       !(Reserves(stored, SentKeys(value), j) && SentKeys(value)[j] == Str(inherited.value)))
    && (forall j | 0 <= j < i :: keys[j] != inherited.value)
  }

  // ----- the two loops

  /** New names, none of them repeated. */
  ghost predicate Supply(draw: nat -> string) {
    && (forall n :: StartsWith(draw(n), "b_"))
    && (forall m, n | m != n :: draw(m) != draw(n))
  }

  /** Draws until the name is not taken; the supply cannot run out of free names. */
  method DrawFree(draw: nat -> string, from: nat, existing: set<string>, used: set<string>)
    returns (key: string, next: nat)
    requires Supply(draw)
    ensures key !in existing && key !in used && StartsWith(key, "b_") && next > from
  {
    var n := from;
    key := draw(n);
    ghost var failed: set<string> := {};
    while key in existing || key in used
      invariant n >= from && key == draw(n)
      invariant failed <= existing + used
      invariant forall k | k in failed :: exists m :: from <= m < n && k == draw(m)
      decreases existing + used - failed
    {
      assert key !in failed;
      failed := failed + {key};
      n := n + 1;
      key := draw(n);
    }
    next := n + 1;
  }

  /** The first loop: explicit keys are reserved before any name is looked at. */
  method ReserveKeys(stored: seq<Json>, existing: set<string>, sent: seq<Json>)
    returns (keys: seq<Option<string>>, used: set<string>)
    requires existing == Existing(stored)
    ensures |keys| == |sent|
    ensures forall i | 0 <= i < |sent| :: keys[i] == if Reserves(stored, sent, i) then Some(sent[i].s) else None
    ensures forall k :: k in used <==> exists i :: 0 <= i < |sent| && keys[i] == Some(k)
  {
    hide Existing;
    keys, used := [], {};
    for i := 0 to |sent|
      invariant |keys| == i
      invariant forall j | 0 <= j < i :: keys[j] == if Reserves(stored, sent, j) then Some(sent[j].s) else None
      invariant forall k :: k in used <==> exists j :: 0 <= j < i && keys[j] == Some(k)
      invariant forall k :: k in used <==> k in existing && exists j :: 0 <= j < i && sent[j] == Str(k)
    {
      if sent[i].Str? && sent[i].s in existing && sent[i].s !in used {
        assert Reserves(stored, sent, i);
        keys := keys + [Some(sent[i].s)];
        used := used + {sent[i].s};
      } else {
        assert !Reserves(stored, sent, i);
        keys := keys + [None];
      }
    }
  }

  /** What the reservations say, and which keys are taken before element i is served. */
  ghost predicate Bookkept(
    stored: seq<Json>, sent: seq<Json>, reserved: seq<Option<string>>, used: set<string>, chosen: seq<string>)
  {
    && |reserved| == |sent|
    && (forall i | 0 <= i < |sent| :: reserved[i] == if Reserves(stored, sent, i) then Some(sent[i].s) else None)
    && (forall k :: k in used <==> (exists j :: 0 <= j < |sent| && reserved[j] == Some(k)) || k in chosen)
    && (forall i, j | 0 <= i < j < |chosen| :: chosen[i] != chosen[j])
    && (forall i, j | 0 <= i < |chosen| && |chosen| <= j < |sent| :: reserved[j] != Some(chosen[i]))
  }

  /** The key is still free: not reserved by anyone, not given to anyone before. */
  ghost predicate Free(stored: seq<Json>, sent: seq<Json>, chosen: seq<string>, key: string) {
    && (forall j | 0 <= j < |sent| :: !(Reserves(stored, sent, j) && sent[j] == Str(key)))
    && key !in chosen
  }

  lemma UsedMeansTaken(
    stored: seq<Json>, sent: seq<Json>, reserved: seq<Option<string>>,
    used: set<string>, chosen: seq<string>, key: string)
    requires Bookkept(stored, sent, reserved, used, chosen)
    ensures key !in used <==> Free(stored, sent, chosen, key)
  {
    hide Reserves;
    if key in used && key !in chosen {
      var j :| 0 <= j < |sent| && reserved[j] == Some(key);
      assert Reserves(stored, sent, j) && sent[j] == Str(key);
    }
    if key !in used {
      forall j | 0 <= j < |sent| ensures !(Reserves(stored, sent, j) && sent[j] == Str(key)) {}
    }
  }

  lemma BookReserved(
    stored: seq<Json>, sent: seq<Json>, reserved: seq<Option<string>>, used: set<string>, chosen: seq<string>)
    requires Bookkept(stored, sent, reserved, used, chosen) && |chosen| < |sent| && reserved[|chosen|].Some?
    ensures Bookkept(stored, sent, reserved, used, chosen + [reserved[|chosen|].value])
  {
    var i := |chosen|;
    assert Reserves(stored, sent, i);
    forall j | i < j < |sent| ensures reserved[j] != reserved[i] {
      if reserved[j].Some? { assert Reserves(stored, sent, j); }
    }
  }

  lemma BookFree(
    stored: seq<Json>, sent: seq<Json>, reserved: seq<Option<string>>,
    used: set<string>, chosen: seq<string>, key: string)
    requires Bookkept(stored, sent, reserved, used, chosen) && |chosen| < |sent| && Free(stored, sent, chosen, key)
    ensures Bookkept(stored, sent, reserved, used + {key}, chosen + [key])
  {
    hide Reserves;
    forall j | 0 <= j < |sent| ensures reserved[j] != Some(key) {
      if reserved[j].Some? { assert Reserves(stored, sent, j); }
    }
    assert forall i | 0 <= i < |chosen| :: chosen[i] in chosen;
    forall k
      ensures k in used + {key} <==> (exists j :: 0 <= j < |sent| && reserved[j] == Some(k)) || k in chosen + [key] {
    }
  }

  /** One round of the second loop. */
  method ChooseKey(
    str: Json -> string, draw: nat -> string, stored: seq<Json>, existing: set<string>, items: seq<Json>,
    reserved: seq<Option<string>>, used: set<string>, chosen: seq<string>, from: nat)
    returns (key: string, taken: set<string>, next: nat)
    requires Supply(draw) && existing == Existing(stored) && |chosen| < |items|
    requires Bookkept(stored, SentKeys(items), reserved, used, chosen)
    ensures StepFine(str, stored, items, chosen + [key], |chosen|)
    ensures Bookkept(stored, SentKeys(items), reserved, taken, chosen + [key])
  {
    ghost var sent := SentKeys(items);
    var i := |chosen|;
    taken, next := used, from;
    assert reserved[i] == if Reserves(stored, sent, i) then Some(sent[i].s) else None;
    assert |reserved| == |sent|;
    hide Existing, Supply, KeyByName, SentKeys, Bookkept, Reserves, Free, Inherited;
    if reserved[i].Some? {
      key := reserved[i].value;
      BookReserved(stored, sent, reserved, used, chosen);
    } else {
      var inherited := Inherited(str, stored, items[i]);
      if inherited.Some? {
        UsedMeansTaken(stored, sent, reserved, used, chosen, inherited.value);
        FreeIsInherited(str, stored, items, chosen, inherited.value);
      }
      if inherited.Some? && inherited.value !in used {
        key := inherited.value;
      } else {
        key, next := DrawFree(draw, from, existing, used);
      }
      UsedMeansTaken(stored, sent, reserved, used, chosen, key);
      BookFree(stored, sent, reserved, used, chosen, key);
      taken := used + {key};
      SameInherits(str, stored, items, chosen, key);
    }
  }

  lemma FreeIsInherited(str: Json -> string, stored: seq<Json>, items: seq<Json>, chosen: seq<string>, key: string)
    requires |chosen| < |items| && Inherited(str, stored, items[|chosen|]) == Some(key)
    ensures Free(stored, SentKeys(items), chosen, key) <==> InheritsAt(str, stored, items, chosen + [""], |chosen|)
  {
    hide Reserves, Inherited, SentKeys;
    var keys := chosen + [""];
    assert forall j | 0 <= j < |chosen| :: keys[j] == chosen[j];
    if Free(stored, SentKeys(items), chosen, key) {
      forall j | 0 <= j < |chosen| ensures keys[j] != key { assert chosen[j] in chosen; }
    }
  }

  lemma SameInherits(str: Json -> string, stored: seq<Json>, items: seq<Json>, chosen: seq<string>, key: string)
    requires |chosen| < |items|
    ensures InheritsAt(str, stored, items, chosen + [""], |chosen|) <==>
      InheritsAt(str, stored, items, chosen + [key], |chosen|)
  {
    hide Reserves, Inherited, SentKeys;
    assert forall j | 0 <= j < |chosen| :: (chosen + [""])[j] == chosen[j] == (chosen + [key])[j];
  }

  lemma StepFineExtends(
    str: Json -> string, stored: seq<Json>, value: seq<Json>, keys: seq<string>, more: seq<string>, i: nat)
    requires i < |keys| && keys <= more && |more| <= |value| && StepFine(str, stored, value, keys, i)
    ensures StepFine(str, stored, value, more, i)
  {
    hide Existing, KeyByName, SentKey, IsNew;
    assert forall j | 0 <= j <= i :: more[j] == keys[j];
  }

  function WithKey(b: Json, key: string): Json {
    Obj(Put(if b.Obj? then b.fields else [], "key", Str(key)))
  }

  /** out is value with the keys of an assignment put in, nothing else changed. */
  ghost predicate Keyed(str: Json -> string, stored: seq<Json>, value: seq<Json>, out: seq<Json>, keys: seq<string>) {
    && Assigned(str, stored, value, keys)
    && |out| == |value|
    && forall i | 0 <= i < |out| :: value[i].Obj? && out[i] == WithKey(value[i], keys[i])
  }

  predicate AllObjects(value: Json) {
    value.Arr? && forall b | b in value.items :: b.Obj?
  }

  /** The keys chosen so far follow the rules, and the elements so far carry them. */
  ghost predicate SoFar(str: Json -> string, stored: seq<Json>, items: seq<Json>, keys: seq<string>, out: seq<Json>) {
    && |keys| == |out| && |keys| <= |items|
    && (forall j | 0 <= j < |keys| :: StepFine(str, stored, items, keys, j))
    && (forall j | 0 <= j < |keys| :: out[j] == WithKey(items[j], keys[j]))
  }

  lemma OneMore(
    str: Json -> string, stored: seq<Json>, items: seq<Json>, keys: seq<string>, out: seq<Json>, key: string)
    requires SoFar(str, stored, items, keys, out) && |keys| < |items|
    requires StepFine(str, stored, items, keys + [key], |keys|)
    ensures SoFar(str, stored, items, keys + [key], out + [WithKey(items[|keys|], key)])
  {
    hide StepFine, WithKey;
    forall j | 0 <= j < |keys| ensures StepFine(str, stored, items, keys + [key], j) {
      StepFineExtends(str, stored, items, keys, keys + [key], j);
    }
  }

  /** `_keyed_branches` */
  method KeyedBranches(str: Json -> string, draw: nat -> string, current: Json, value: Json)
    returns (result: Result<seq<Json>, ()>)
    requires Supply(draw)
    ensures result.Ok? <==> AllObjects(value)
    ensures result.Ok? ==> exists keys :: Keyed(str, OldBranches(current), value.items, result.value, keys)
  {
    if !AllObjects(value) {
      return Err(());
    }
    var items, stored := value.items, OldBranches(current);
    var existing := Existing(stored);
    var reserved, used := ReserveKeys(stored, existing, SentKeys(items));
    var keys, out, next := [], [], 0;
    assert Bookkept(stored, SentKeys(items), reserved, used, keys);
    assert SoFar(str, stored, items, keys, out);
    assert forall b | b in items :: b.Obj?;
    hide Existing, Supply, SentKeys, OldBranches, WithKey, Keyed, Bookkept, StepFine, SoFar, AllObjects;
    for i := 0 to |items|
      invariant |keys| == |out| == i
      invariant Bookkept(stored, SentKeys(items), reserved, used, keys) && SoFar(str, stored, items, keys, out)
    {
      var key;
      key, used, next := ChooseKey(str, draw, stored, existing, items, reserved, used, keys, next);
      OneMore(str, stored, items, keys, out, key);
      keys, out := keys + [key], out + [WithKey(items[i], key)];
    }
    KeyedFrom(str, stored, items, out, keys, reserved, used);
    return Ok(out);
  }

  lemma KeyedFrom(
    str: Json -> string, stored: seq<Json>, items: seq<Json>, out: seq<Json>, keys: seq<string>,
    reserved: seq<Option<string>>, used: set<string>)
    requires SoFar(str, stored, items, keys, out) && |keys| == |items| && forall b | b in items :: b.Obj?
    requires Bookkept(stored, SentKeys(items), reserved, used, keys)
    ensures Keyed(str, stored, items, out, keys)
  {
    AssignedFrom(str, stored, items, reserved, used, keys);
    hide Assigned, Bookkept, StepFine;
    assert forall i | 0 <= i < |items| :: items[i] in items;
  }

  lemma AssignedFrom(
    str: Json -> string, stored: seq<Json>, items: seq<Json>, reserved: seq<Option<string>>,
    used: set<string>, keys: seq<string>)
    requires |keys| == |items| && Bookkept(stored, SentKeys(items), reserved, used, keys)
    requires forall j | 0 <= j < |keys| :: StepFine(str, stored, items, keys, j)
    ensures Assigned(str, stored, items, keys)
  {
  }

  // ----- what the assignment means for edges

  /** The name of an element: its text without the space around it; what counts as nothing has none. */
  lemma NameIs(str: Json -> string, b: Json, name: string)
    ensures var given := Get(b, "name");
      NameOf(str, b) == name <==>
        if given in {Null, Bool(false), Int(0), Float(0.0), Arr([]), Obj([])} then name == ""
        else Trimmed(if given.Str? then given.s else str(given), name)
  {
    var given := Get(b, "name");
    StripIs(if given.Str? then given.s else str(given), name);
    hide Get, Strip, Trimmed;
  }

  /** The key an element sends: its text without the space around it, or whatever else stands there. */
  lemma SentIs(b: Json, k: string)
    ensures SentKey(b) == Str(k) <==> Get(b, "key").Str? && Trimmed(Get(b, "key").s, k)
    ensures !Get(b, "key").Str? ==> SentKey(b) == Get(b, "key")
  {
    var key := Get(b, "key");
    if key.Str? { StripIs(key.s, k); }
    hide Get, Strip, Trimmed;
  }

  /** The stored branches are the objects of the list, in order; anything but a list has none. */
  lemma StoredAre(items: seq<Json>, more: seq<Json>, b: Json, other: Json)
    ensures b in OldBranches(Arr(items)) <==> b in items && b.Obj?
    ensures OldBranches(Arr(items + more)) == OldBranches(Arr(items)) + OldBranches(Arr(more))
    ensures !other.Arr? ==> OldBranches(other) == []
  {
    ObjectsConcat(items, more);
    ObjectsHave(items, b);
    hide ObjectsIn;
  }

  lemma {:induction false} ObjectsHave(items: seq<Json>, b: Json)
    ensures b in ObjectsIn(items) <==> b in items && b.Obj?
  {
    if items != [] {
      ObjectsHave(items[1..], b);
      assert items == [items[0]] + items[1..];
    }
  }

  lemma {:induction false} ObjectsConcat(items: seq<Json>, more: seq<Json>)
    ensures ObjectsIn(items + more) == ObjectsIn(items) + ObjectsIn(more)
  {
    if items == [] {
      assert items + more == more;
    } else {
      var rest := items[1..];
      assert (items + more)[1..] == rest + more && (items + more)[0] == items[0];
      ObjectsConcat(rest, more);
      var first := if items[0].Obj? then [items[0]] else [];
      assert ObjectsIn(items + more) == first + ObjectsIn(rest + more) && ObjectsIn(items) == first + ObjectsIn(rest);
      hide ObjectsIn;
    }
  }

  /** The key is one that edges may point at, and a stored branch has it. */
  predicate InUse(stored: seq<Json>, k: string) {
    && k != "" && k != "else" && k != "true" && k != "false"
    && exists b :: b in stored && Get(b, "key") == Str(k)
  }

  /** The first stored branch of this name that has a key edges may point at. */
  predicate FirstNamed(str: Json -> string, stored: seq<Json>, name: string, i: nat) {
    && i < |stored| && NamedUsable(str, stored[i], name)
    && forall j | 0 <= j < i :: !NamedUsable(str, stored[j], name)
  }

  predicate NamedUsable(str: Json -> string, b: Json, name: string) {
    && NameOf(str, b) == name && Get(b, "key").Str?
    && Get(b, "key").s != "" && Get(b, "key").s != "else" && Get(b, "key").s != "true" && Get(b, "key").s != "false"
  }

  lemma {:induction false} NameLeads(str: Json -> string, stored: seq<Json>, name: string)
    ensures forall i: nat | FirstNamed(str, stored, name, i) && name != "" ::
      KeyByName(str, stored, name) == Some(Get(stored[i], "key").s)
    ensures name == "" || (forall i: nat :: !FirstNamed(str, stored, name, i)) ==> KeyByName(str, stored, name) == None
  {
    hide NameOf, Get, Existing;
    if stored != [] && name != "" {
      var rest := stored[1..];
      assert NamedUsable(str, stored[0], name) <==> NameOf(str, stored[0]) == name && Usable(Get(stored[0], "key"));
      NameLeads(str, rest, name);
      if NamedUsable(str, stored[0], name) {
        assert FirstNamed(str, stored, name, 0);
      } else {
        hide NamedUsable;
        forall i: nat | FirstNamed(str, stored, name, i)
          ensures KeyByName(str, stored, name) == Some(Get(stored[i], "key").s)
        {
          assert forall j | 0 <= j < |rest| :: rest[j] == stored[j + 1];
          assert FirstNamed(str, rest, name, i - 1);
        }
        forall i: nat ensures FirstNamed(str, rest, name, i) ==> FirstNamed(str, stored, name, i + 1) {
          assert forall j | 0 < j < |stored| :: stored[j] == rest[j - 1];
        }
      }
    }
  }

  /** Element i sends a key in use, and no element before it does. */
  predicate SendsFirst(stored: seq<Json>, value: seq<Json>, i: nat, k: string)
    requires i < |value|
  {
    SentKey(value[i]) == Str(k) && InUse(stored, k) && forall j | 0 <= j < i :: SentKey(value[j]) != Str(k)
  }

  /** Element i sends no key, and its name leads to this one. */
  ghost predicate HasOldKey(str: Json -> string, stored: seq<Json>, b: Json, k: string) {
    && SentKey(b) in {Null, Str("")}
    && NameOf(str, b) != ""
    && exists i: nat :: FirstNamed(str, stored, NameOf(str, b), i) && Get(stored[i], "key") == Str(k)
  }

  /** Someone else has the key: it is sent by an element, or an element before i was given it. */
  ghost predicate Spoken(stored: seq<Json>, value: seq<Json>, keys: seq<string>, i: nat, k: string)
    requires i < |value| && |keys| == |value|
  {
    || (exists j: nat :: j < |value| && SendsFirst(stored, value, j, k))
    || (exists j :: 0 <= j < i && keys[j] == k)
  }

  /**
   * The rules, for every element: the first that sends a key in use keeps it; one that sends none
   * takes over the key of its name, unless someone else has it; any other gets a new one.
   */
  lemma KeysByTheRules(str: Json -> string, stored: seq<Json>, value: seq<Json>, keys: seq<string>, i: nat)
    requires Assigned(str, stored, value, keys) && i < |value|
    ensures |keys| == |value|
    ensures forall k | SendsFirst(stored, value, i, k) :: keys[i] == k
    ensures (forall k :: !SendsFirst(stored, value, i, k)) ==>
      && (forall k | HasOldKey(str, stored, value[i], k) && !Spoken(stored, value, keys, i, k) :: keys[i] == k)
      && ((forall k :: HasOldKey(str, stored, value[i], k) ==> Spoken(stored, value, keys, i, k)) ==>
          StartsWith(keys[i], "b_") && !InUse(stored, keys[i]))
  {
    assert StepFine(str, stored, value, keys, i);
    hide Assigned, Existing, StepFine, SendsFirst, HasOldKey, Spoken, InUse;
    RuleSent(str, stored, value, keys, i);
    if forall k :: !SendsFirst(stored, value, i, k) { RuleUnsent(str, stored, value, keys, i); }
  }

  lemma RuleSent(str: Json -> string, stored: seq<Json>, value: seq<Json>, keys: seq<string>, i: nat)
    requires i < |value| == |keys| && StepFine(str, stored, value, keys, i)
    ensures forall k | SendsFirst(stored, value, i, k) :: keys[i] == k
  {
    forall k { ReservesIs(stored, value, i, k); }
    hide SendsFirst, Reserves, SentKeys, InheritsAt, IsNew, Inherited;
  }

  lemma RuleUnsent(str: Json -> string, stored: seq<Json>, value: seq<Json>, keys: seq<string>, i: nat)
    requires i < |value| == |keys| && StepFine(str, stored, value, keys, i)
    requires forall k :: !SendsFirst(stored, value, i, k)
    ensures forall k | HasOldKey(str, stored, value[i], k) && !Spoken(stored, value, keys, i, k) :: keys[i] == k
    ensures (forall k :: HasOldKey(str, stored, value[i], k) ==> Spoken(stored, value, keys, i, k)) ==>
      StartsWith(keys[i], "b_") && !InUse(stored, keys[i])
  {
    hide SendsFirst, HasOldKey, Spoken, Existing, SentKeys, KeyByName;
    forall k { ReservesIs(stored, value, i, k); }
    forall k { OldKeyIs(str, stored, value[i], k); }
    forall k | Inherited(str, stored, value[i]) == Some(k) { SpokenIs(str, stored, value, keys, i, k); }
    assert InUse(stored, keys[i]) <==> keys[i] in Existing(stored);
    NobodySends(stored, value, i);
    hide Reserves, InheritsAt, Inherited, InUse, StartsWith;
  }

  lemma NobodySends(stored: seq<Json>, value: seq<Json>, i: nat)
    requires i < |value| && forall k :: !SendsFirst(stored, value, i, k)
    ensures !Reserves(stored, SentKeys(value), i)
  {
    var key := SentKeys(value)[i];
    if key.Str? { ReservesIs(stored, value, i, key.s); }
    hide SendsFirst, SentKeys;
  }

  lemma SpokenIs(str: Json -> string, stored: seq<Json>, value: seq<Json>, keys: seq<string>, i: nat, k: string)
    requires i < |value| == |keys| && Inherited(str, stored, value[i]) == Some(k)
    ensures InheritsAt(str, stored, value, keys, i) <==> !Spoken(stored, value, keys, i, k)
  {
    forall j: nat | j < |value| { ReservesIs(stored, value, j, k); }
    hide SendsFirst, Reserves, SentKeys, Inherited;
  }

  lemma ReservesIs(stored: seq<Json>, value: seq<Json>, j: nat, k: string)
    requires j < |value|
    ensures SendsFirst(stored, value, j, k) <==> Reserves(stored, SentKeys(value), j) && SentKeys(value)[j] == Str(k)
  {
    assert InUse(stored, k) <==> k in Existing(stored);
    hide Existing, InUse, SentKey;
  }

  lemma OldKeyIs(str: Json -> string, stored: seq<Json>, b: Json, k: string)
    ensures HasOldKey(str, stored, b, k) <==> Inherited(str, stored, b) == Some(k)
  {
    NameLeads(str, stored, NameOf(str, b));
    hide NameOf, Get, Existing, KeyByName, SentKey;
    if Inherited(str, stored, b) == Some(k) {
      assert exists i: nat :: FirstNamed(str, stored, NameOf(str, b), i);
      var i: nat :| FirstNamed(str, stored, NameOf(str, b), i);
      assert Get(stored[i], "key") == Str(k);
    }
  }

  /** The keys are distinct, never empty, never reserved words. */
  lemma KeysAreUsable(str: Json -> string, stored: seq<Json>, value: seq<Json>, keys: seq<string>)
    requires Assigned(str, stored, value, keys)
    ensures forall i | 0 <= i < |keys| :: keys[i] !in {"", "else", "true", "false"}
    ensures forall i, j | 0 <= i < j < |keys| :: keys[i] != keys[j]
  {
    forall i | 0 <= i < |keys| ensures keys[i] != "" && keys[i] !in RESERVED {
      assert StepFine(str, stored, value, keys, i);
      if !Reserves(stored, SentKeys(value), i) && !InheritsAt(str, stored, value, keys, i) {
        assert IsNew(stored, keys[i]);
        assert keys[i][0] == 'b';
      }
    }
  }

  /** A key in use that is sent stays with the first element that sends it, whatever the names say. */
  lemma SentKeyStays(str: Json -> string, stored: seq<Json>, value: seq<Json>, keys: seq<string>, i: nat)
    requires Assigned(str, stored, value, keys) && i < |value| && Reserves(stored, SentKeys(value), i)
    ensures Str(keys[i]) == SentKey(value[i])
    ensures forall j | 0 <= j < |keys| && j != i :: Str(keys[j]) != SentKey(value[i])
  {
    assert StepFine(str, stored, value, keys, i);
    assert forall j | 0 <= j < |keys| && j != i :: keys[j] != keys[i];
  }

  /** An old key reaches an element only because the element sends it, or sends none and has its name. */
  lemma OldKeysAreEarned(str: Json -> string, stored: seq<Json>, value: seq<Json>, keys: seq<string>, i: nat)
    requires Assigned(str, stored, value, keys) && i < |keys| && keys[i] in Existing(stored)
    ensures SentKey(value[i]) == Str(keys[i])
      || (SentKey(value[i]) in {Null, Str("")} && KeyByName(str, stored, NameOf(str, value[i])) == Some(keys[i]))
  {
    assert StepFine(str, stored, value, keys, i);
  }

  /** Everything but the key is as it was sent. */
  lemma OtherAttributesStay(
    str: Json -> string, stored: seq<Json>, value: seq<Json>, out: seq<Json>, keys: seq<string>, i: nat, k: string)
    requires Keyed(str, stored, value, out, keys) && i < |out|
    ensures Get(out[i], k) == if k == "key" then Str(keys[i]) else Get(value[i], k)
  {
    LookupPut(value[i].fields, "key", Str(keys[i]), k);
  }

  // ----- sending back what one was given

  predicate GoodBranches(branches: seq<Json>) {
    && (forall i | 0 <= i < |branches| :: branches[i].Obj? && Usable(Get(branches[i], "key")))
    && (forall i, j | 0 <= i < j < |branches| :: Get(branches[i], "key") != Get(branches[j], "key"))
  }

  /**
   * When the stored branches are sent back: the key has no space around it and no earlier key is the
   * same but for spaces, or it is nothing but space and its branch's name leads to it.
   */
  predicate Returns(str: Json -> string, branches: seq<Json>, i: nat)
    requires GoodBranches(branches) && i < |branches|
  {
    var key := Get(branches[i], "key").s;
    || (Strip(key) == key && forall j | 0 <= j < i :: SentKey(branches[j]) != Str(key))
    || (Strip(key) == "" && KeyByName(str, branches, NameOf(str, branches[i])) == Some(key))
  }

  lemma {:induction false} NameLeadsToFirst(str: Json -> string, branches: seq<Json>, name: string, i: nat)
    requires GoodBranches(branches) && i < |branches|
    requires KeyByName(str, branches, name) == Some(Get(branches[i], "key").s)
    ensures NameOf(str, branches[i]) == name && forall j | 0 <= j < i :: NameOf(str, branches[j]) != name
  {
    hide NameOf, Usable, Existing;
    assert Usable(Get(branches[0], "key")) && Get(branches[0], "key").Str? && Get(branches[i], "key").Str? by {
      BranchKeyIsText(branches, 0);
      BranchKeyIsText(branches, i);
    }
    if NameOf(str, branches[0]) == name {
      assert Get(branches[0], "key") == Get(branches[i], "key");
    } else {
      var rest := branches[1..];
      assert GoodBranches(rest);
      assert i != 0 by { if i == 0 { NotFirst(str, branches, name); } }
      NameLeadsToFirst(str, rest, name, i - 1);
      forall j | 0 <= j < i ensures NameOf(str, branches[j]) != name {
        if j > 0 { assert branches[j] == rest[j - 1]; }
      }
    }
  }

  lemma BranchKeyIsText(branches: seq<Json>, i: nat)
    requires GoodBranches(branches) && i < |branches|
    ensures Usable(Get(branches[i], "key")) && Get(branches[i], "key").Str?
  {
  }

  /** A name the first branch does not have leads to some other branch. */
  lemma NotFirst(str: Json -> string, branches: seq<Json>, name: string)
    requires GoodBranches(branches) && branches != [] && NameOf(str, branches[0]) != name
    ensures KeyByName(str, branches, name) != Some(Get(branches[0], "key").s)
  {
    hide NameOf;
    var rest, first := branches[1..], Get(branches[0], "key").s;
    assert Get(branches[0], "key") == Str(first);
    forall b | b in rest ensures Get(b, "key") != Str(first) {
      var j :| 0 <= j < |rest| && rest[j] == b;
      assert branches[j + 1] == b;
    }
    assert first !in Existing(rest);
  }

  /** Sending the stored branches back: exactly the keys that return are kept. */
  lemma ResendKeepsKey(str: Json -> string, branches: seq<Json>, keys: seq<string>, i: nat)
    requires GoodBranches(branches) && Assigned(str, branches, branches, keys) && i < |branches|
    ensures Str(keys[i]) == Get(branches[i], "key") <==> Returns(str, branches, i)
  {
    var key := Get(branches[i], "key").s;
    BranchKeyIsText(branches, i);
    assert branches[i] in branches && key in Existing(branches);
    if keys[i] == key {
      OldKeysAreEarned(str, branches, branches, keys, i);
      if SentKey(branches[i]) == Str(key) { KeptByReserving(str, branches, keys, i); }
    }
    if Returns(str, branches, i) {
      if Strip(key) == key { ReservingKeeps(str, branches, keys, i); } else { BlankKeyReturns(str, branches, keys, i); }
    }
  }

  lemma KeptByReserving(str: Json -> string, branches: seq<Json>, keys: seq<string>, i: nat)
    requires GoodBranches(branches) && Assigned(str, branches, branches, keys) && i < |branches|
    requires keys[i] in Existing(branches) && SentKey(branches[i]) == Str(keys[i])
    ensures forall j | 0 <= j < i :: SentKey(branches[j]) != Str(keys[i])
  {
    AssignedAt(str, branches, branches, keys, i);
    hide NameOf, KeyByName, StartsWith, Strip, SentKey, Assigned, GoodBranches;
    assert "" !in Existing(branches);
    assert Reserves(branches, SentKeys(branches), i);
  }

  lemma AssignedAt(str: Json -> string, stored: seq<Json>, value: seq<Json>, keys: seq<string>, i: nat)
    requires Assigned(str, stored, value, keys) && i < |keys|
    ensures |keys| == |value|
    ensures
      || Reserves(stored, SentKeys(value), i)
      || SentKey(value[i]) in {Null, Str("")}
      || keys[i] !in Existing(stored)
  {
    assert StepFine(str, stored, value, keys, i);
  }

  lemma ReservingKeeps(str: Json -> string, branches: seq<Json>, keys: seq<string>, i: nat)
    requires GoodBranches(branches) && Assigned(str, branches, branches, keys) && i < |branches|
    requires var key := Get(branches[i], "key").s;
      key in Existing(branches) && Strip(key) == key && forall j | 0 <= j < i :: SentKey(branches[j]) != Str(key)
    ensures Str(keys[i]) == Get(branches[i], "key")
  {
    assert StepFine(str, branches, branches, keys, i);
    hide NameOf, KeyByName, Existing;
    assert Reserves(branches, SentKeys(branches), i);
  }

  lemma NoSentKeyIsBlank(b: Json, key: string)
    requires Strip(key) == "" && key != ""
    ensures SentKey(b) != Str(key)
  {
    if SentKey(b) == Str(key) { StripIdempotent(Get(b, "key").s); }
  }

  lemma BlankKeyReturns(str: Json -> string, branches: seq<Json>, keys: seq<string>, i: nat)
    requires GoodBranches(branches) && Assigned(str, branches, branches, keys) && i < |branches|
    requires var key := Get(branches[i], "key").s;
      Strip(key) == "" && key != "" && KeyByName(str, branches, NameOf(str, branches[i])) == Some(key)
    ensures Str(keys[i]) == Get(branches[i], "key")
  {
    assert StepFine(str, branches, branches, keys, i);
    var key := Get(branches[i], "key").s;
    var sent := SentKeys(branches);
    forall j | 0 <= j < |branches| ensures SentKey(branches[j]) != Str(key) {
      NoSentKeyIsBlank(branches[j], key);
    }
    forall j | 0 <= j < i ensures keys[j] != key {
      if keys[j] == key {
        OldKeysAreEarned(str, branches, branches, keys, j);
        NameLeadsToFirst(str, branches, NameOf(str, branches[j]), i);
      }
    }
    assert !Reserves(branches, sent, i) by { assert "" !in Existing(branches); }
    assert Inherited(str, branches, branches[i]) == Some(key);
    assert InheritsAt(str, branches, branches, keys, i);
  }

  /** A stored key with a space in front does not survive being sent back: the branch gets a new one. */
  lemma SpacedKeyIsLost(str: Json -> string, keys: seq<string>)
    requires var stored := [Obj([("name", Str("n")), ("key", Str(" a"))])]; Assigned(str, stored, stored, keys)
    ensures IsNew([Obj([("name", Str("n")), ("key", Str(" a"))])], keys[0]) && keys[0] != " a"
  {
    var b := Obj([("name", Str("n")), ("key", Str(" a"))]);
    assert Get(b, "key") == Str(" a") by {
      assert b.fields[1..][0] == ("key", Str(" a"));
    }
    assert StripLeft(" a") == "a" && StripRight("a") == "a" by {
      assert " a"[1..] == "a";
    }
    assert SentKey(b) == Str("a") && Existing([b]) == {" a"};
    assert StepFine(str, [b], [b], keys, 0);
    assert SentKeys([b])[0] == Str("a");
  }

  /** In particular: if no key has space around it, every key is kept. */
  lemma ResendKeepsEveryKey(str: Json -> string, branches: seq<Json>, keys: seq<string>)
    requires GoodBranches(branches) && Assigned(str, branches, branches, keys)
    requires forall i | 0 <= i < |branches| :: SentKey(branches[i]) == Get(branches[i], "key")
    ensures forall i | 0 <= i < |branches| :: Str(keys[i]) == Get(branches[i], "key")
  {
    forall i | 0 <= i < |branches| ensures Str(keys[i]) == Get(branches[i], "key") {
      ResendKeepsKey(str, branches, keys, i);
    }
  }
}
