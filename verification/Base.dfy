/** Option and Result, in the two shapes the rest of the model needs. */
module Wrappers {
  datatype Option<+T> = None | Some(value: T)

  datatype Result<+T, +E> = Ok(value: T) | Err(error: E)
}

/** The few string operations of Python that the modelled code relies on. */
module Text {

  predicate StartsWith(s: string, prefix: string) {
    |prefix| <= |s| && s[..|prefix|] == prefix
  }

  /** `str.isspace` for one character. */
  predicate IsSpace(c: char) {
    || '\t' <= c <= '\r'
    || '\U{1c}' <= c <= ' '
    || c == '\U{85}' || c == '\U{a0}' || c == '\U{1680}'
    || '\U{2000}' <= c <= '\U{200a}'
    || c == '\U{2028}' || c == '\U{2029}' || c == '\U{202f}' || c == '\U{205f}' || c == '\U{3000}'
  }

  /** The code points that Python counts as space. */
  lemma SpacesAre(c: char)
    ensures IsSpace(c) <==>
      c as int in {0x9, 0xa, 0xb, 0xc, 0xd, 0x1c, 0x1d, 0x1e, 0x1f, 0x20, 0x85, 0xa0, 0x1680, 0x2000, 0x2001, 0x2002,
        0x2003, 0x2004, 0x2005, 0x2006, 0x2007, 0x2008, 0x2009, 0x200a, 0x2028, 0x2029, 0x202f, 0x205f, 0x3000}
  {
  }

  predicate AllSpace(s: string) {
    forall i | 0 <= i < |s| :: IsSpace(s[i])
  }

  function StripLeft(s: string): string {
    if s != "" && IsSpace(s[0]) then StripLeft(s[1..]) else s
  }

  function StripRight(s: string): string {
    if s != "" && IsSpace(s[|s| - 1]) then StripRight(s[..|s| - 1]) else s
  }

  /** `str.strip()`. */
  function Strip(s: string): string {
    StripRight(StripLeft(s))
  }

  lemma {:induction false} StripLeftCuts(s: string)
    ensures var r := StripLeft(s);
      |r| <= |s| && r == s[|s| - |r|..] && AllSpace(s[..|s| - |r|]) && (r != "" ==> !IsSpace(r[0]))
  {
    if s != "" && IsSpace(s[0]) { StripLeftCuts(s[1..]); }
  }

  lemma {:induction false} StripRightCuts(s: string)
    ensures var r := StripRight(s);
      r <= s && AllSpace(s[|r|..]) && (r != "" ==> !IsSpace(r[|r| - 1]))
  {
    if s != "" && IsSpace(s[|s| - 1]) {
      var init := s[..|s| - 1];
      StripRightCuts(init);
      var r := StripRight(init);
      assert s[|r|..] == init[|r|..] + [s[|s| - 1]];
    }
  }

  lemma StripIdempotent(s: string)
    ensures Strip(Strip(s)) == Strip(s)
  {
    var l, r := StripLeft(s), Strip(s);
    StripLeftCuts(s);
    StripRightCuts(l);
    if r != "" { assert r[0] == l[0]; }
  }

  /** t is what stands between the space in front of s and the space behind it. */
  ghost predicate Trimmed(s: string, t: string) {
    exists i: nat, k: nat :: TrimmedAt(s, t, i, k)
  }

  predicate TrimmedAt(s: string, t: string, i: nat, k: nat) {
    && i <= k <= |s| && t == s[i..k] && AllSpace(s[..i]) && AllSpace(s[k..])
    && (t != "" ==> !IsSpace(t[0]) && !IsSpace(t[|t| - 1]))
  }

  lemma StripIs(s: string, t: string)
    ensures t == Strip(s) <==> Trimmed(s, t)
  {
    var l, r := StripLeft(s), Strip(s);
    StripLeftCuts(s);
    StripRightCuts(l);
    var i0 := |s| - |l|;
    var k0 := i0 + |r|;
    assert s[k0..] == l[|r|..] && r == s[i0..k0];
    assert r != "" ==> r[0] == l[0];
    assert TrimmedAt(s, r, i0, k0);
    forall i: nat, k: nat | TrimmedAt(s, t, i, k) ensures t == r {
      OneTrim(s, t, i, k, r, i0, k0);
    }
  }

  lemma OneTrim(s: string, t: string, i: nat, k: nat, r: string, i0: nat, k0: nat)
    requires TrimmedAt(s, t, i, k) && TrimmedAt(s, r, i0, k0)
    ensures t == r
  {
    SpaceAround(s, t, i, k);
    SpaceAround(s, r, i0, k0);
    assert t != "" ==> t[0] == s[i] && t[|t| - 1] == s[k - 1];
    assert r != "" ==> r[0] == s[i0] && r[|r| - 1] == s[k0 - 1];
  }

  lemma SpaceAround(s: string, t: string, i: nat, k: nat)
    requires TrimmedAt(s, t, i, k)
    ensures forall j | 0 <= j < i || k <= j < |s| :: IsSpace(s[j])
  {
    forall j | 0 <= j < i ensures IsSpace(s[j]) { assert s[..i][j] == s[j]; }
    forall j | k <= j < |s| ensures IsSpace(s[j]) { assert s[k..][j - k] == s[j]; }
  }

  /** `str.upper` where its result can be ASCII: a-z, dotless i and long s. */
  function UpperChar(c: char): char {
    if 'a' <= c <= 'z' then (c as int - 32) as char
    else if c == '\U{131}' then 'I'
    else if c == '\U{17f}' then 'S'
    else c
  }

  /** Small letters lose 32 of their code; dotless i and long s become I and S. */
  lemma UppersAre(c: char)
    ensures UpperChar(c) as int ==
      if 97 <= c as int <= 122 then c as int - 32
      else if c as int == 0x131 then 73 else if c as int == 0x17f then 83 else c as int
  {
  }

  function Upper(s: string): (r: string)
    ensures |r| == |s|
  {
    seq(|s|, i requires 0 <= i < |s| => UpperChar(s[i]))
  }

  function Clipped(s: string, limit: nat): (r: string)
    ensures |r| <= limit && r <= s
  {
    if |s| <= limit then s else s[..limit]
  }

  /** Decimal notation of a natural number. */
  function Decimal(n: nat): (s: string)
    ensures s != ""
  {
    if n < 10 then [('0' as int + n) as char] else Decimal(n / 10) + [('0' as int + n % 10) as char]
  }
}

/** JSON values; an object keeps its keys in insertion order, the first entry of a key counts. */
module Json {
  import opened Wrappers

  datatype Json =
    | Null
    | Bool(b: bool)
    | Int(n: int)
    | Float(r: real)
    | Str(s: string)
    | Arr(items: seq<Json>)
    | Obj(fields: seq<(string, Json)>)

  predicate IsContainer(j: Json) {
    j.Arr? || j.Obj?
  }

  /** `value in (None, "", [])`. */
  predicate IsBlank(j: Json) {
    j == Null || j == Str("") || j == Arr([])
  }

  function Lookup(fields: seq<(string, Json)>, k: string): Option<Json> {
    if fields == [] then None
    else if fields[0].0 == k then Some(fields[0].1)
    else Lookup(fields[1..], k)
  }

  /** `fields[k] = v`: a known key keeps its place, a new one goes to the end. */
  function Put(fields: seq<(string, Json)>, k: string, v: Json): seq<(string, Json)> {
    if fields == [] then [(k, v)]
    else if fields[0].0 == k then [(k, v)] + fields[1..]
    else [fields[0]] + Put(fields[1..], k, v)
  }

  function Names(fields: seq<(string, Json)>): seq<string> {
    if fields == [] then [] else [fields[0].0] + Names(fields[1..])
  }

  /** A write keeps the order of the keys; a new key goes to the end. */
  lemma {:induction false} PutOrder(fields: seq<(string, Json)>, k: string, v: Json)
    ensures Names(Put(fields, k, v)) == if k in Names(fields) then Names(fields) else Names(fields) + [k]
  {
    if fields == [] {
      OneName(k, v, []);
    } else {
      var first, rest := fields[0], fields[1..];
      assert fields == [first] + rest;
      OneName(first.0, first.1, rest);
      if first.0 == k {
        assert Put(fields, k, v) == [(k, v)] + rest;
        OneName(k, v, rest);
      } else {
        assert Put(fields, k, v) == [first] + Put(rest, k, v);
        OneName(first.0, first.1, Put(rest, k, v));
        PutOrder(rest, k, v);
      }
      hide Names, Put;
    }
  }

  lemma OneName(k: string, v: Json, rest: seq<(string, Json)>)
    ensures Names([(k, v)] + rest) == [k] + Names(rest)
  {
    assert ([(k, v)] + rest)[1..] == rest;
  }

  lemma {:induction false} LookupPut(fields: seq<(string, Json)>, k: string, v: Json, q: string)
    ensures Lookup(Put(fields, k, v), q) == if q == k then Some(v) else Lookup(fields, q)
  {
    if fields != [] {
      if fields[0].0 == k {
        assert Put(fields, k, v)[1..] == fields[1..];
      } else {
        assert Put(fields, k, v)[1..] == Put(fields[1..], k, v);
        LookupPut(fields[1..], k, v, q);
      }
    }
  }

  /** `j.get(k)` for a dict, None for anything else. */
  function Get(j: Json, k: string): Json {
    if j.Obj? then
      match Lookup(j.fields, k)
      case Some(v) => v
      case None => Null
    else Null
  }

  /** A JSON value with the order of object keys forgotten: what a dump with sorted keys shows. */
  datatype Canonical =
    | CNull
    | CBool(b: bool)
    | CInt(n: int)
    | CFloat(r: real)
    | CStr(s: string)
    | CArr(items: seq<Canonical>)
    | CObj(fields: map<string, Canonical>)

  function Canon(j: Json): Canonical {
    match j
    case Null => CNull
    case Bool(b) => CBool(b)
    case Int(n) => CInt(n)
    case Float(r) => CFloat(r)
    case Str(s) => CStr(s)
    case Arr(items) => CArr(CanonItems(items))
    case Obj(fields) => CObj(CanonFields(fields))
  }

  function CanonItems(items: seq<Json>): seq<Canonical> {
    if items == [] then [] else [Canon(items[0])] + CanonItems(items[1..])
  }

  function CanonField(field: (string, Json)): Canonical {
    Canon(field.1)
  }

  function CanonFields(fields: seq<(string, Json)>): map<string, Canonical> {
    if fields == [] then map[] else CanonFields(fields[1..])[fields[0].0 := CanonField(fields[0])]
  }
}
