/**
 * The environment file of a deployment, built from a bag of secrets: one line per key, sorted, the
 * same bytes whatever the order of the secrets.
 */
module AgentEnv {
  import opened Wrappers
  import opened Text

  const MAX_ENV_BYTES := 48 * 1024
  const PREFIX := "DEV_COM_"
  const PORT := "PORT"

  datatype Secret = Words(text: string) | NotText

  /** Names are distinct: the payload was parsed as an object that refuses repeated keys. */
  type Pairs = seq<(string, Secret)>

  /** The fixed tables; sets are given in canonical form. */
  datatype Tables = Tables(
    required: set<string>, optional: set<string>, aliases: map<string, string>,
    excluded: set<string>, reserved: set<string>, reservedPrefixes: set<string>)

  const TABLES := Tables(
    {"MONGODB_URL", "MONGODB_DB_NAME", "PORT", "CLAUDE_DEFAULT_MODEL", "OPENAI_DEFAULT_MODEL", "GEMINI_DEFAULT_MODEL"},
    {"NOTION_MCP_URL", "NOTION_MCP_AUTH_TOKEN"},
    map["AGENT_MONGODB_URL" := "MONGODB_URL", "AGENT_MONGODB_DB_NAME" := "MONGODB_DB_NAME",
        "AGENT_PORT" := "PORT", "AGENT_CLAUDE_DEFAULT_MODEL" := "CLAUDE_DEFAULT_MODEL",
        "AGENT_OPENAI_DEFAULT_MODEL" := "OPENAI_DEFAULT_MODEL", "AGENT_GEMINI_DEFAULT_MODEL" := "GEMINI_DEFAULT_MODEL",
        "AGENT_NOTION_MCP_URL" := "NOTION_MCP_URL", "AGENT_NOTION_MCP_AUTH_TOKEN" := "NOTION_MCP_AUTH_TOKEN"],
    {"AGENTTESTMONGODBURL", "AGENTTESTMONGODBDBNAME", "TESTMONGODBURL", "TESTMONGODBDBNAME",
     "PYTHONVERSION", "IMAGENAME"},
    {"TINIKILLPROCESSGROUP", "BACKENDBASEURL", "GITHUBTOKEN", "AGENTENV", "IEUMAGENTSECRETSJSON",
     "PATH", "PYTHONHOME", "PYTHONPATH", "PYTHONSTARTUP", "PYTHONINSPECT", "PYTHONWARNINGS",
     "PYTHONBREAKPOINT", "BASHENV", "ENV", "SHELLOPTS", "BASHOPTS", "LDPRELOAD", "LDLIBRARYPATH"},
    {"IEUMDEPLOYMENT"})

  function NoUnderscores(s: string): string {
    if s == "" then "" else (if s[0] == '_' then "" else [s[0]]) + NoUnderscores(s[1..])
  }

  function Canonical(key: string): string {
    Upper(NoUnderscores(key))
  }

  predicate NameStart(c: char) {
    'a' <= c <= 'z' || 'A' <= c <= 'Z' || c == '_'
  }

  predicate NameText(s: string) {
    s != "" && NameStart(s[0]) && forall i | 0 <= i < |s| :: NameStart(s[i]) || '0' <= s[i] <= '9'
  }

  /** A character that would end or break the line. */
  predicate Forbidden(c: char) {
    c in "\U{0}\n\r\U{b}\U{c}\U{1c}\U{1d}\U{1e}\U{85}\U{2028}\U{2029}"
  }

  predicate Selected(name: string) {
    StartsWith(Upper(name), PREFIX)
  }

  function Suffix(name: string): string {
    if Selected(name) then Upper(name)[|PREFIX|..] else ""
  }

  predicate Excluded(t: Tables, name: string) {
    Canonical(Suffix(name)) in t.excluded
  }

  function KeyOf(t: Tables, name: string): string {
    if Suffix(name) in t.aliases then t.aliases[Suffix(name)] else Suffix(name)
  }

  predicate NameFine(name: string) {
    NameText(name) && NameText(Suffix(name))
  }

  predicate Reserved(t: Tables, key: string) {
    Canonical(key) in t.reserved || exists p :: p in t.reservedPrefixes && StartsWith(Canonical(key), p)
  }

  predicate ValueFine(v: Secret) {
    v.Words? && forall i | 0 <= i < |v.text| :: !Forbidden(v.text[i])
  }

  /** The pair becomes a line of the file. */
  predicate Taken(t: Tables, p: (string, Secret)) {
    Selected(p.0) && !Excluded(t, p.0)
  }

  /** The pair does not stop the build by itself. */
  predicate PairFine(t: Tables, p: (string, Secret)) {
    Selected(p.0) ==> NameFine(p.0) && (Excluded(t, p.0) || (!Reserved(t, KeyOf(t, p.0)) && ValueFine(p.1)))
  }

  datatype Rejection =
    | InvalidName | ReservedKey | DuplicateKey | InvalidValue | ControlCharacter
    | MissingRequired | InvalidPort | TooLarge

  // ----- selecting

  /** The pass over the secrets, in the order given. */
  method Select(t: Tables, pairs: Pairs) returns (r: Result<map<string, string>, Rejection>)
    ensures r.Ok? <==> Selectable(t, pairs)
    ensures r.Ok? ==> Selection(t, pairs, r.value)
    ensures r.Err? ==> exists i :: FaultAt(t, pairs, i, r.error)
  {
    hide NameText, Canonical, Upper, Reserved, Forbidden, Excluded, Suffix, KeyOf, Used, FaultAt;
    var values: map<string, string> := map[];
    var seen: set<string> := {};
    assert forall c :: !Used(t, pairs[..0], c) by { NothingUsed(t); }
    for i := 0 to |pairs|
      invariant Selectable(t, pairs[..i]) && Selection(t, pairs[..i], values)
      invariant forall c :: c in seen <==> Used(t, pairs[..i], c)
    {
      var (name, value) := pairs[i];
      assert pairs[i] == (name, value);
      assert pairs[..i + 1] == pairs[..i] + [pairs[i]];
      UsedSnoc(t, pairs[..i], pairs[i]);
      if !Selected(name) {
        SelectOther(t, pairs[..i], pairs[i], values);
        continue;
      }
      if !NameText(name) || !NameText(Suffix(name)) {
        Stops(t, pairs, i, InvalidName);
        return Err(InvalidName);
      }
      if Excluded(t, name) {
        SelectOther(t, pairs[..i], pairs[i], values);
        continue;
      }
      var key := KeyOf(t, name);
      if Reserved(t, key) {
        Stops(t, pairs, i, ReservedKey);
        return Err(ReservedKey);
      }
      if Canonical(key) in seen {
        Stops(t, pairs, i, DuplicateKey);
        return Err(DuplicateKey);
      }
      seen := seen + {Canonical(key)};
      if value.NotText? {
        Stops(t, pairs, i, InvalidValue);
        return Err(InvalidValue);
      }
      if exists j :: 0 <= j < |value.text| && Forbidden(value.text[j]) {
        Stops(t, pairs, i, ControlCharacter);
        return Err(ControlCharacter);
      }
      SelectMore(t, pairs[..i], pairs[i], values);
      values := values[key := value.text];
    }
    assert pairs[..|pairs|] == pairs;
    return Ok(values);
  }

  /** No pair stops the build, and no two lines would have the same key up to case and underscores. */
  predicate Selectable(t: Tables, pairs: Pairs) {
    && (forall p | p in pairs :: PairFine(t, p))
    && (forall i, j | 0 <= i < j < |pairs| && Taken(t, pairs[i]) && Taken(t, pairs[j]) ::
        Canonical(KeyOf(t, pairs[i].0)) != Canonical(KeyOf(t, pairs[j].0)))
  }

  /** An earlier line has the same key up to case and underscores. */
  predicate TakenBefore(t: Tables, pairs: Pairs, i: nat)
    requires i < |pairs|
  {
    Used(t, pairs[..i], Canonical(KeyOf(t, pairs[i].0)))
  }

  predicate Used(t: Tables, pairs: Pairs, c: string) {
    exists p :: p in pairs && Taken(t, p) && Canonical(KeyOf(t, p.0)) == c
  }

  lemma NothingUsed(t: Tables)
    ensures forall c :: !Used(t, [], c)
  {
  }

  lemma UsedSnoc(t: Tables, pairs: Pairs, p: (string, Secret))
    ensures forall c :: Used(t, pairs + [p], c) <==> Used(t, pairs, c) || (Taken(t, p) && Canonical(KeyOf(t, p.0)) == c)
  {
    hide Taken, KeyOf, Canonical;
    forall c ensures Used(t, pairs + [p], c) <==> Used(t, pairs, c) || (Taken(t, p) && Canonical(KeyOf(t, p.0)) == c) {
      assert p in pairs + [p];
      if Used(t, pairs, c) {
        var q :| q in pairs && Taken(t, q) && Canonical(KeyOf(t, q.0)) == c;
        assert q in pairs + [p];
      }
    }
  }

  /** Pair i is the first that stops the build, for the first reason in the order of the checks. */
  predicate FaultAt(t: Tables, pairs: Pairs, i: nat, e: Rejection) {
    i < |pairs| && Selectable(t, pairs[..i]) && Selected(pairs[i].0) && Reason(t, pairs, i, e)
  }

  predicate Reason(t: Tables, pairs: Pairs, i: nat, e: Rejection)
    requires i < |pairs|
  {
    var (name, value) := pairs[i];
    if !NameFine(name) then e == InvalidName
    else if Excluded(t, name) then false
    else if Reserved(t, KeyOf(t, name)) then e == ReservedKey
    else if TakenBefore(t, pairs, i) then e == DuplicateKey
    else if value.NotText? then e == InvalidValue
    else e == ControlCharacter && !ValueFine(value)
  }

  /** The map holds exactly the pairs taken. */
  predicate Selection(t: Tables, pairs: Pairs, values: map<string, string>) {
    && (forall p | p in pairs && Taken(t, p) :: KeyOf(t, p.0) in values && p.1 == Words(values[KeyOf(t, p.0)]))
    && (forall k | k in values :: exists p :: p in pairs && Taken(t, p) && KeyOf(t, p.0) == k)
  }

  lemma SelectOther(t: Tables, pairs: Pairs, p: (string, Secret), values: map<string, string>)
    requires Selectable(t, pairs) && Selection(t, pairs, values) && !Taken(t, p) && PairFine(t, p)
    ensures Selectable(t, pairs + [p]) && Selection(t, pairs + [p], values)
  {
    hide PairFine, Taken, KeyOf, Canonical;
    forall k | k in values ensures exists q :: q in pairs + [p] && Taken(t, q) && KeyOf(t, q.0) == k {
      var q :| q in pairs && Taken(t, q) && KeyOf(t, q.0) == k;
      assert q in pairs + [p];
    }
  }

  lemma SelectMore(t: Tables, pairs: Pairs, p: (string, Secret), values: map<string, string>)
    requires Selectable(t, pairs) && Selection(t, pairs, values) && Taken(t, p) && PairFine(t, p) && p.1.Words?
    requires !Used(t, pairs, Canonical(KeyOf(t, p.0)))
    ensures Selectable(t, pairs + [p]) && Selection(t, pairs + [p], values[KeyOf(t, p.0) := p.1.text])
  {
    hide PairFine, Taken, KeyOf, Canonical;
    var more, now := pairs + [p], values[KeyOf(t, p.0) := p.1.text];
    assert p in more;
    forall i, j | 0 <= i < j < |more| && Taken(t, more[i]) && Taken(t, more[j])
      ensures Canonical(KeyOf(t, more[i].0)) != Canonical(KeyOf(t, more[j].0))
    {
      assert more[i] in pairs;
    }
    forall k | k in now ensures exists q :: q in more && Taken(t, q) && KeyOf(t, q.0) == k {
      if k != KeyOf(t, p.0) {
        var q :| q in pairs && Taken(t, q) && KeyOf(t, q.0) == k;
        assert q in more;
      }
    }
  }

  lemma SelectTwice(t: Tables, pairs: Pairs, i: nat)
    requires i < |pairs| && Taken(t, pairs[i]) && TakenBefore(t, pairs, i)
    ensures !Selectable(t, pairs)
  {
    hide PairFine, Taken, KeyOf, Canonical;
    var p :| p in pairs[..i] && Taken(t, p) && Canonical(KeyOf(t, p.0)) == Canonical(KeyOf(t, pairs[i].0));
    var j :| 0 <= j < i && pairs[..i][j] == p;
    assert pairs[j] == p;
  }

  lemma Stops(t: Tables, pairs: Pairs, i: nat, e: Rejection)
    requires i < |pairs| && Selectable(t, pairs[..i]) && Selected(pairs[i].0) && Reason(t, pairs, i, e)
    ensures FaultAt(t, pairs, i, e) && !Selectable(t, pairs)
  {
    hide NameFine, Excluded, Reserved, Used, KeyOf, Canonical;
    assert pairs[i] in pairs;
    if e == DuplicateKey { SelectTwice(t, pairs, i); }
  }

  // ----- the order of the lines

  /** Python's order of texts: by the first character that differs. */
  predicate Below(a: string, b: string) {
    if a == "" then true
    else if b == "" then false
    else a[0] < b[0] || (a[0] == b[0] && Below(a[1..], b[1..]))
  }

  lemma {:induction false} BelowTotal(a: string, b: string)
    ensures Below(a, b) || Below(b, a)
    ensures Below(a, b) && Below(b, a) ==> a == b
    ensures Below(a, a)
  {
    if a != "" {
      BelowTotal(a[1..], if b == "" then "" else b[1..]);
      if b != "" && a[0] == b[0] && a[1..] == b[1..] {
        assert a == [a[0]] + a[1..] && b == [b[0]] + b[1..];
      }
    }
  }

  lemma {:induction false} BelowTransitive(a: string, b: string, c: string)
    requires Below(a, b) && Below(b, c)
    ensures Below(a, c)
  {
    if a != "" {
      if a[0] == b[0] && b[0] == c[0] { BelowTransitive(a[1..], b[1..], c[1..]); }
    }
  }

  predicate Sorted(keys: seq<string>) {
    forall i, j | 0 <= i < j < |keys| :: Below(keys[i], keys[j]) && keys[i] != keys[j]
  }

  function Inserted(keys: seq<string>, k: string): seq<string> {
    if keys == [] || Below(k, keys[0]) then [k] + keys else [keys[0]] + Inserted(keys[1..], k)
  }

  lemma {:induction false} InsertedSorted(keys: seq<string>, k: string)
    requires Sorted(keys) && k !in keys
    ensures Sorted(Inserted(keys, k))
    ensures forall x :: x in Inserted(keys, k) <==> x in keys || x == k
  {
    hide Below;
    var r := Inserted(keys, k);
    if keys != [] {
      var rest := keys[1..];
      BelowTotal(k, keys[0]);
      if Below(k, keys[0]) {
        forall j | 0 <= j < |keys| ensures Below(k, keys[j]) && k != keys[j] {
          if j > 0 { BelowTransitive(k, keys[0], keys[j]); }
        }
      } else {
        InsertedSorted(rest, k);
        forall x | x in Inserted(rest, k) ensures Below(keys[0], x) && keys[0] != x {
          if x != k {
            var j :| 0 <= j < |rest| && rest[j] == x;
            assert keys[j + 1] == x;
          }
        }
        forall i, j | 0 <= i < j < |r| ensures Below(r[i], r[j]) && r[i] != r[j] {
          assert r[j] == Inserted(rest, k)[j - 1] && r[j] in Inserted(rest, k);
          if i > 0 { assert r[i] == Inserted(rest, k)[i - 1]; }
        }
      }
    }
  }

  /** There is only one sorted list of the same keys. */
  lemma {:induction false} SortedUnique(a: seq<string>, b: seq<string>)
    requires Sorted(a) && Sorted(b) && forall x :: x in a <==> x in b
    ensures a == b
  {
    hide Below;
    if a == [] {
      assert forall x :: x !in b;
      assert forall i | 0 <= i < |b| :: b[i] in b;
    } else {
      assert a[0] in b && b[0] in a by { assert a[0] in a; assert b != []; assert b[0] in b; }
      BelowTotal(a[0], b[0]);
      assert a[0] == b[0];
      forall x ensures x in a[1..] <==> x in b[1..] {
        TailMembers(a, x);
        TailMembers(b, x);
      }
      SortedUnique(a[1..], b[1..]);
    }
  }

  lemma TailMembers(a: seq<string>, x: string)
    requires Sorted(a) && a != []
    ensures x in a[1..] <==> x in a && x != a[0]
  {
    hide Below;
    if x in a && x != a[0] {
      var i :| 0 <= i < |a| && a[i] == x;
      assert a[1..][i - 1] == x;
    }
  }

  /** `sorted(values)` */
  method SortKeys(keys: set<string>) returns (s: seq<string>)
    ensures Sorted(s) && forall k :: k in s <==> k in keys
  {
    hide Sorted;
    s := [];
    assert Sorted(s) by { EmptySorted(); }
    var rest := keys;
    while rest != {}
      invariant rest <= keys && Sorted(s) && forall k :: k in s <==> k in keys - rest
      decreases rest
    {
      var k :| k in rest;
      InsertedSorted(s, k);
      s := Inserted(s, k);
      rest := rest - {k};
    }
  }

  lemma EmptySorted()
    ensures Sorted([])
  {
  }

  // ----- the lines

  function Line(key: string, value: string): string {
    key + "=" + value + "\n"
  }

  function Lines(order: seq<string>, values: map<string, string>): string
    requires forall k | k in order :: k in values
  {
    if order == [] then "" else Line(order[0], values[order[0]]) + Lines(order[1..], values)
  }

  function Until(s: string, c: char): (n: nat)
    ensures n <= |s|
  {
    if s == "" || s[0] == c then 0 else 1 + Until(s[1..], c)
  }

  /** How a reader takes the file apart: at line ends, and each line at its first equals sign. */
  function Parsed(text: string): map<string, string>
    decreases |text|
  {
    if text == "" then map[]
    else
      var n := Until(text, '\n');
      var line := text[..n];
      var m := Until(line, '=');
      var rest := Parsed(if n < |text| then text[n + 1..] else "");
      if m < |line| then rest[line[..m] := line[m + 1..]] else rest
  }

  predicate Without(s: string, c: char) {
    forall i | 0 <= i < |s| :: s[i] != c
  }

  lemma {:induction false} UntilAfter(a: string, c: char, b: string)
    requires Without(a, c)
    ensures Until(a + [c] + b, c) == |a|
  {
    if a == "" {
      assert a + [c] + b == [c] + b;
    } else {
      assert (a + [c] + b)[1..] == a[1..] + [c] + b;
      UntilAfter(a[1..], c, b);
    }
  }

  predicate Printable(values: map<string, string>) {
    forall k | k in values :: Without(k, '=') && Without(k, '\n') && Without(values[k], '\n')
  }

  lemma {:induction false} ParsedLines(order: seq<string>, values: map<string, string>)
    requires (forall k | k in order :: k in values) && Printable(values) && Sorted(order)
    ensures Parsed(Lines(order, values)) == map k | k in order :: values[k]
  {
    if order != [] {
      var k, rest := order[0], order[1..];
      var v := values[k];
      assert k in order;
      hide Below;
      ParsedLines(rest, values);
      ParsedOneLine(k, v, Lines(rest, values));
      TailMembersAll(order);
      assert (map x | x in order :: values[x]) == (map x | x in rest :: values[x])[k := v];
    }
  }

  lemma TailMembersAll(order: seq<string>)
    requires order != [] && Sorted(order)
    ensures forall x :: x in order <==> x == order[0] || x in order[1..]
  {
    forall x ensures x in order <==> x == order[0] || x in order[1..] {
      TailMembers(order, x);
    }
  }

  lemma ParsedOneLine(k: string, v: string, more: string)
    requires Without(k, '=') && Without(k, '\n') && Without(v, '\n')
    ensures Parsed(Line(k, v) + more) == Parsed(more)[k := v]
  {
    var line := k + "=" + v;
    var text := Line(k, v) + more;
    assert text == line + ['\n'] + more;
    assert Without(line, '\n');
    UntilAfter(line, '\n', more);
    assert text[..|line|] == line && text[|line| + 1..] == more;
    assert line == k + ['='] + v;
    UntilAfter(k, '=', v);
    assert line[..|k|] == k && line[|k| + 1..] == v;
  }

  // ----- names and characters, told apart from how they are found

  /** The characters a value may not have: line ends, NUL, and the separators a line reader stops at. */
  lemma ForbiddenAre(c: char)
    ensures Forbidden(c) <==>
      c as int in {0x0, 0xa, 0xb, 0xc, 0xd, 0x1c, 0x1d, 0x1e, 0x85, 0x2028, 0x2029}
  {
  }

  /** A name of letters, digits and underscores that starts with no digit, by the codes of its characters. */
  lemma NamesAre(s: string)
    ensures NameText(s) <==>
      && s != "" && !(48 <= s[0] as int <= 57)
      && forall i | 0 <= i < |s| ::
           var n := s[i] as int; 48 <= n <= 57 || 65 <= n <= 90 || n == 95 || 97 <= n <= 122
  {
  }

  /** Which secrets become lines, and under which key: those with the prefix in any case that are not excluded. */
  lemma SecretsTaken(t: Tables, name: string, rest: string, value: Secret)
    ensures (forall r :: Upper(name) != "DEV_COM_" + r) ==> !Taken(t, (name, value)) && PairFine(t, (name, value))
    ensures Upper(name) == "DEV_COM_" + rest ==>
      && (Taken(t, (name, value)) <==> Canonical(rest) !in t.excluded)
      && KeyOf(t, name) == (if rest in t.aliases then t.aliases[rest] else rest)
  {
    var up := Upper(name);
    if Selected(name) { assert up == "DEV_COM_" + up[8..]; }
    if up == "DEV_COM_" + rest { assert up[..8] == "DEV_COM_" && up[8..] == rest; }
    hide Upper, Canonical;
  }

  /**
   * What stops the build at a secret with the prefix: its name, a reserved key, a value that is no
   * text or has a bad character.
   */
  lemma SecretsFine(t: Tables, name: string, rest: string, value: Secret)
    requires Upper(name) == "DEV_COM_" + rest
    ensures var key := if rest in t.aliases then t.aliases[rest] else rest;
      PairFine(t, (name, value)) <==>
        && NameText(name) && NameText(rest)
        && (Canonical(rest) in t.excluded ||
            (Canonical(key) !in t.reserved && (forall p | p in t.reservedPrefixes :: !StartsWith(Canonical(key), p))
             && value.Words? && forall i | 0 <= i < |value.text| :: !Forbidden(value.text[i])))
  {
    var up := Upper(name);
    assert up[..8] == "DEV_COM_" && up[8..] == rest;
    hide Upper, Canonical, NameText, Forbidden;
  }

  /** The size of the file is that of its UTF-8 bytes. */
  lemma BytesAre(s: string, c: char)
    ensures Bytes("") == 0
    ensures Bytes(s + [c]) ==
      Bytes(s) + if c as int <= 0x7f then 1 else if c as int <= 0x7ff then 2 else if c as int <= 0xffff then 3 else 4
  {
    assert (s + [c])[..|s|] == s;
  }

  /** All required keys have text, and the port is 8000. */
  lemma CompleteIf(t: Tables, values: map<string, string>)
    ensures Complete(t, values) <==>
      && (forall k | k in t.required :: k in values && exists i :: 0 <= i < |values[k]| && !IsSpace(values[k][i]))
      && "PORT" in values && values["PORT"] == "8000"
  {
    hide IsSpace;
  }

  /** The canonical form drops underscores and case, and nothing else. */
  lemma CanonicalIs(a: string, b: string)
    ensures Canonical(a + "_" + b) == Canonical(a + b)
    ensures (forall i | 0 <= i < |a| :: a[i] != '_') ==> Canonical(a) == Upper(a)
  {
    UnderscoreDropped(a, b);
    if forall i | 0 <= i < |a| :: a[i] != '_' { NoneDropped(a); }
    hide NoUnderscores, Upper;
  }

  lemma {:induction false} NoneDropped(a: string)
    requires forall i | 0 <= i < |a| :: a[i] != '_'
    ensures NoUnderscores(a) == a
  {
    if a != "" { NoneDropped(a[1..]); }
  }

  lemma {:induction false} UnderscoreDropped(a: string, b: string)
    ensures NoUnderscores(a + "_" + b) == NoUnderscores(a + b)
  {
    if a == "" {
      assert a + "_" + b == "_" + b && ("_" + b)[1..] == b && a + b == b;
    } else {
      assert (a + "_" + b)[1..] == a[1..] + "_" + b && (a + b)[1..] == a[1..] + b;
      UnderscoreDropped(a[1..], b);
    }
  }

  /** A line comes before another by the first character that differs, a beginning before the whole. */
  lemma {:induction false} BelowIs(a: string, b: string)
    ensures Below(a, b) <==> a <= b || exists k :: 0 <= k < |a| && k < |b| && a[..k] == b[..k] && a[k] < b[k]
  {
    if a != "" && b != "" {
      BelowIs(a[1..], b[1..]);
      if a[0] == b[0] {
        if k :| 0 <= k < |a[1..]| && k < |b[1..]| && a[1..][..k] == b[1..][..k] && a[1..][k] < b[1..][k] {
          assert a[..k + 1] == [a[0]] + a[1..][..k] && b[..k + 1] == [b[0]] + b[1..][..k];
        }
        if k :| 0 <= k < |a| && k < |b| && a[..k] == b[..k] && a[k] < b[k] {
          assert k > 0 && a[1..][..k - 1] == a[..k][1..] && b[1..][..k - 1] == b[..k][1..];
        }
        assert a <= b <==> a[1..] <= b[1..];
      } else {
        forall k | 0 < k < |a| && k < |b| ensures a[..k] != b[..k] {
          assert a[..k][0] == a[0] && b[..k][0] == b[0];
        }
        assert a[..0] == b[..0] == "";
      }
    }
  }

  // ----- the whole build

  /** Bytes of a character in UTF-8. */
  function Width(c: char): nat {
    var n := c as int;
    if n < 0x80 then 1 else if n < 0x800 then 2 else if n < 0x10000 then 3 else 4
  }

  function Bytes(s: string): nat {
    if s == "" then 0 else Bytes(s[..|s| - 1]) + Width(s[|s| - 1])
  }

  function WithoutEmpty(t: Tables, values: map<string, string>): map<string, string> {
    map k | k in values && !(k in t.optional && values[k] == "") :: values[k]
  }

  /** The required keys are there with text, and the port is the fixed one. */
  predicate Complete(t: Tables, values: map<string, string>) {
    HasRequired(t, values) && PORT in values && values[PORT] == "8000"
  }

  predicate HasRequired(t: Tables, values: map<string, string>) {
    forall k | k in t.required :: k in values && !AllSpace(values[k])
  }

  /** Why the selected values make no file. */
  ghost predicate Unfit(t: Tables, values: map<string, string>, e: Rejection) {
    if !HasRequired(t, values) then e == MissingRequired
    else if PORT !in values || values[PORT] != "8000" then e == InvalidPort
    else e == TooLarge && forall order, text ::
        Prints(WithoutEmpty(t, values), order, text) ==> Bytes(text) > MAX_ENV_BYTES
  }

  /** `build_environment`, from the decoded secrets on: a file exactly if one can be built. */
  method BuildEnvironment(t: Tables, pairs: Pairs) returns (r: Result<string, Rejection>)
    requires PORT in t.required
    ensures match r
      case Ok(text) => exists values, order :: BuiltFrom(t, pairs, values, order, text)
      case Err(e) =>
        && (forall values, order, text :: !BuiltFrom(t, pairs, values, order, text))
        && if Selectable(t, pairs) then (exists values :: Selection(t, pairs, values) && Unfit(t, values, e))
           else (exists i :: FaultAt(t, pairs, i, e))
  {
    hide Selectable, Selection, FaultAt, AllSpace, Sorted, Bytes;
    var selected := Select(t, pairs);
    if selected.Err? {
      return Err(selected.error);
    }
    var values := selected.value;
    forall other | Selection(t, pairs, other) ensures other == values {
      SelectionUnique(t, pairs, values, other);
    }
    if exists k :: k in t.required && (k !in values || AllSpace(values[k])) {
      assert Unfit(t, values, MissingRequired);
      return Err(MissingRequired);
    }
    if values[PORT] != "8000" {
      assert Unfit(t, values, InvalidPort);
      return Err(InvalidPort);
    }
    var kept := WithoutEmpty(t, values);
    var order := SortKeys(kept.Keys);
    var text := Lines(order, kept);
    assert Prints(kept, order, text);
    if Bytes(text) > MAX_ENV_BYTES {
      forall o, x | Prints(kept, o, x) ensures x == text {
        SortedUnique(order, o);
      }
      assert Unfit(t, values, TooLarge);
      return Err(TooLarge);
    }
    assert BuiltFrom(t, pairs, values, order, text);
    return Ok(text);
  }

  ghost predicate Prints(values: map<string, string>, order: seq<string>, text: string) {
    Sorted(order) && (forall k :: k in order <==> k in values) && text == Lines(order, values)
  }

  ghost predicate BuiltFrom(t: Tables, pairs: Pairs, values: map<string, string>, order: seq<string>, text: string) {
    && Selectable(t, pairs) && Selection(t, pairs, values) && Complete(t, values)
    && Prints(WithoutEmpty(t, values), order, text)
    && Bytes(text) <= MAX_ENV_BYTES
  }

  lemma SelectionUnique(t: Tables, pairs: Pairs, a: map<string, string>, b: map<string, string>)
    requires Selection(t, pairs, a) && Selection(t, pairs, b)
    ensures a == b
  {
    hide Taken, KeyOf;
    forall k | k in a ensures k in b && a[k] == b[k] {
      var p :| p in pairs && Taken(t, p) && KeyOf(t, p.0) == k;
    }
    forall k | k in b ensures k in a {
      var p :| p in pairs && Taken(t, p) && KeyOf(t, p.0) == k;
    }
  }

  /** The file read back gives exactly the selected map without the empty optional entries. */
  lemma ReadsBack(t: Tables, pairs: Pairs, values: map<string, string>, order: seq<string>, text: string)
    requires BuiltFrom(t, pairs, values, order, text)
    requires forall k | k in t.aliases :: Without(t.aliases[k], '=') && Without(t.aliases[k], '\n')
    requires t.required !! t.optional
    ensures Parsed(text) == WithoutEmpty(t, values)
    ensures forall k | k in t.required :: k in Parsed(text)
  {
    hide Canonical, Bytes, Without, AllSpace, Forbidden, Upper, NameText, Below, Sorted, Lines, Parsed, Taken,
      PairFine, KeyOf, Printable, Complete;
    var kept := WithoutEmpty(t, values);
    PrintableKept(t, pairs, values);
    ParsedLines(order, kept);
    RequiredKept(t, values);
    assert (map k | k in order :: kept[k]) == kept;
  }

  predicate PlainKey(s: string) {
    Without(s, '=') && Without(s, '\n')
  }

  /** The program's own tables meet what the reading back asks of them. */
  lemma TablesFine()
    ensures PORT in TABLES.required && TABLES.required !! TABLES.optional
    ensures forall k | k in TABLES.aliases :: Without(TABLES.aliases[k], '=') && Without(TABLES.aliases[k], '\n')
  {
    assert PlainKey("MONGODB_URL") && PlainKey("MONGODB_DB_NAME") && PlainKey("PORT");
    assert PlainKey("CLAUDE_DEFAULT_MODEL") && PlainKey("OPENAI_DEFAULT_MODEL") && PlainKey("GEMINI_DEFAULT_MODEL");
    assert PlainKey("NOTION_MCP_URL") && PlainKey("NOTION_MCP_AUTH_TOKEN");
    hide Without;
    forall k | k in TABLES.aliases ensures PlainKey(TABLES.aliases[k]) {}
  }

  /**
   * With the program's own tables: the file read back line by line gives exactly the selected map
   * without the empty optional entries, and every required key is in it.
   */
  lemma FileReadsBack(pairs: Pairs, values: map<string, string>, order: seq<string>, text: string)
    requires BuiltFrom(TABLES, pairs, values, order, text)
    ensures Parsed(text) == WithoutEmpty(TABLES, values)
    ensures forall k | k in TABLES.required :: k in Parsed(text)
  {
    hide BuiltFrom, Parsed, WithoutEmpty, Without;
    TablesFine();
    ReadsBack(TABLES, pairs, values, order, text);
  }

  lemma PrintableKept(t: Tables, pairs: Pairs, values: map<string, string>)
    requires Selectable(t, pairs) && Selection(t, pairs, values)
    requires forall k | k in t.aliases :: Without(t.aliases[k], '=') && Without(t.aliases[k], '\n')
    ensures Printable(WithoutEmpty(t, values))
  {
    hide Selectable, Selection, Without;
    forall k | k in values ensures Without(k, '=') && Without(k, '\n') && Without(values[k], '\n') {
      KeyPrintable(t, pairs, values, k);
    }
  }

  lemma RequiredKept(t: Tables, values: map<string, string>)
    requires Complete(t, values) && t.required !! t.optional
    ensures forall k | k in t.required :: k in WithoutEmpty(t, values)
  {
    hide AllSpace;
  }

  lemma KeyPrintable(t: Tables, pairs: Pairs, values: map<string, string>, k: string)
    requires Selectable(t, pairs) && Selection(t, pairs, values) && k in values
    requires forall a | a in t.aliases :: Without(t.aliases[a], '=') && Without(t.aliases[a], '\n')
    ensures Without(k, '=') && Without(k, '\n') && Without(values[k], '\n')
  {
    hide Upper, Canonical, Reserved, Excluded, Suffix;
    var p :| p in pairs && Taken(t, p) && KeyOf(t, p.0) == k;
    assert PairFine(t, p);
    assert NameText(Suffix(p.0));
    assert forall i | 0 <= i < |values[k]| :: !Forbidden(values[k][i]);
  }

  /** The keys differ in more than case and underscores. */
  lemma KeysApart(t: Tables, pairs: Pairs, values: map<string, string>, j: string, k: string)
    requires Selectable(t, pairs) && Selection(t, pairs, values) && j in values && k in values && j != k
    ensures Canonical(j) != Canonical(k)
  {
    hide Taken, KeyOf, Canonical, PairFine;
    var p :| p in pairs && Taken(t, p) && KeyOf(t, p.0) == j;
    var q :| q in pairs && Taken(t, q) && KeyOf(t, q.0) == k;
    var m :| 0 <= m < |pairs| && pairs[m] == p;
    var n :| 0 <= n < |pairs| && pairs[n] == q;
    assert m != n;
  }

  // ----- order does not matter

  lemma SelectableAnyOrder(t: Tables, a: Pairs, b: Pairs)
    requires multiset(a) == multiset(b) && Selectable(t, a)
    ensures Selectable(t, b)
  {
    hide Taken, KeyOf, Canonical, PairFine;
    forall p | p in b ensures PairFine(t, p) {
      assert p in multiset(b);
      assert p in a;
    }
    forall i, j | 0 <= i < j < |b| && Taken(t, b[i]) && Taken(t, b[j])
      ensures Canonical(KeyOf(t, b[i].0)) != Canonical(KeyOf(t, b[j].0))
    {
      TwoPlaces(a, b, i, j);
      var m, n :| 0 <= m < n < |a| && ((a[m] == b[i] && a[n] == b[j]) || (a[m] == b[j] && a[n] == b[i]));
    }
  }

  /** Two places of one list have two places in any rearrangement. */
  lemma TwoPlaces<T>(a: seq<T>, b: seq<T>, i: nat, j: nat)
    requires multiset(a) == multiset(b) && i < j < |b|
    ensures exists m, n :: 0 <= m < n < |a| && ((a[m] == b[i] && a[n] == b[j]) || (a[m] == b[j] && a[n] == b[i]))
  {
    assert b[i] in multiset(b) && b[j] in multiset(b);
    var m :| 0 <= m < |a| && a[m] == b[i];
    var a1 := a[..m] + a[m + 1..];
    var b1 := b[..i] + b[i + 1..];
    TakenOut(a, m);
    TakenOut(b, i);
    assert b1[j - 1] == b[j];
    assert b[j] in multiset(b1);
    assert b[j] in a1;
    var n' :| 0 <= n' < |a1| && a1[n'] == b[j];
    var n := if n' < m then n' else n' + 1;
    assert a[n] == b[j] && n != m;
    if m < n { assert a[m] == b[i] && a[n] == b[j]; } else { assert a[n] == b[j] && a[m] == b[i]; }
  }

  lemma TakenOut<T>(s: seq<T>, m: nat)
    requires m < |s|
    ensures multiset(s[..m] + s[m + 1..]) == multiset(s) - multiset{s[m]}
  {
    assert s == s[..m] + [s[m]] + s[m + 1..];
  }

  lemma SelectionAnyOrder(t: Tables, a: Pairs, b: Pairs, values: map<string, string>)
    requires multiset(a) == multiset(b) && Selection(t, a, values)
    ensures Selection(t, b, values)
  {
    hide Taken, KeyOf;
    forall p ensures p in a <==> p in b {
      assert p in multiset(a) <==> p in multiset(b);
    }
  }

  /** Rearranging the secrets changes nothing: the same bytes, or a rejection in both cases. */
  lemma AnyOrderSameFile(t: Tables, a: Pairs, b: Pairs, values: map<string, string>, order: seq<string>, text: string)
    requires multiset(a) == multiset(b) && BuiltFrom(t, a, values, order, text)
    ensures forall v2, o2, x2 :: BuiltFrom(t, b, v2, o2, x2) ==> x2 == text
    ensures BuiltFrom(t, b, values, order, text)
  {
    SelectableAnyOrder(t, a, b);
    SelectionAnyOrder(t, a, b, values);
    hide Selectable, Selection, Sorted, Complete, Bytes;
    forall v2, o2, x2 | BuiltFrom(t, b, v2, o2, x2) ensures x2 == text {
      SelectionUnique(t, b, values, v2);
      SortedUnique(order, o2);
    }
  }

  // ----- writing the file

  /** What the system does with one write: how many bytes it takes, or a failure. */
  class Descriptor {
    var content: seq<bv8>

    constructor ()
      ensures content == []
    {
      content := [];
    }

    /** takes: what the system would take; never more than it is given. */
    method Write(bytes: seq<bv8>, takes: int) returns (count: int)
      modifies this
      ensures count <= |bytes|
      ensures count <= 0 ==> content == old(content)
      ensures count > 0 ==> content == old(content) + bytes[..count]
      ensures count == if takes <= |bytes| then takes else |bytes|
    {
      count := if takes <= |bytes| then takes else |bytes|;
      if count > 0 {
        content := content + bytes[..count];
      }
    }
  }

  /** The write loop of `write_candidate`: on success every byte, in order; on failure a beginning. */
  method WriteAll(file: Descriptor, bytes: seq<bv8>, takes: nat -> int) returns (ok: bool)
    requires file.content == []
    modifies file
    ensures if ok then file.content == bytes else file.content < bytes
    ensures (forall k: nat :: takes(k) > 0) ==> ok
  {
    var remaining, k := bytes, 0;
    while remaining != []
      invariant file.content + remaining == bytes
      decreases |remaining|
    {
      var count := file.Write(remaining, takes(k));
      if count <= 0 {
        return false;
      }
      remaining, k := remaining[count..], k + 1;
    }
    return true;
  }
}
