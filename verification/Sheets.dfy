/** Columns of a sheet: letters and numbers, keys and headers, the layout of a row, the search for a row. */
module Sheets {
  import opened Wrappers
  import opened Text

  // ----- column letters (bijective base 26)

  predicate IsLetter(c: char) {
    'A' <= c <= 'Z'
  }

  predicate Letters(s: string) {
    s != "" && forall i | 0 <= i < |s| :: IsLetter(s[i])
  }

  /** The letters of the n-th column, counted from 1; none for 0. */
  function Name(n: nat): (s: string)
    ensures n > 0 ==> Letters(s)
    ensures n == 0 ==> s == ""
  {
    if n == 0 then "" else Name((n - 1) / 26) + [('A' as int + (n - 1) % 26) as char]
  }

  function Number(s: string): nat
    requires forall i | 0 <= i < |s| :: IsLetter(s[i])
  {
    if s == "" then 0
    else
      assert IsLetter(s[|s| - 1]);
      Number(s[..|s| - 1]) * 26 + (s[|s| - 1] as int - 64)
  }

  /** `_col`, `_col_index`: columns counted from 0. */
  function Col(i: nat): string {
    Name(i + 1)
  }

  function ColIndex(s: string): nat
    requires Letters(s)
  {
    NumberPositive(s);
    Number(s) - 1
  }

  lemma NumberPositive(s: string)
    requires Letters(s)
    ensures Number(s) > 0
  {
  }

  method ColByLoop(index: nat) returns (letters: string)
    ensures letters == Col(index)
  {
    letters := "";
    var i: nat := index + 1;
    while i > 0
      invariant Name(i) + letters == Col(index)
    {
      var r := (i - 1) % 26;
      assert Name(i) == Name((i - 1) / 26) + [('A' as int + r) as char];
      assert Name(i) + letters == Name((i - 1) / 26) + ([('A' as int + r) as char] + letters);
      i := (i - 1) / 26;
      letters := [('A' as int + r) as char] + letters;
    }
  }

  method ColIndexByLoop(letters: string) returns (index: nat)
    requires Letters(letters)
    ensures index == ColIndex(letters)
  {
    var n: nat := 0;
    for k := 0 to |letters|
      invariant n == Number(letters[..k])
    {
      assert letters[..k + 1][..k] == letters[..k];
      n := n * 26 + (letters[k] as int - 64);
    }
    assert letters[..|letters|] == letters;
    NumberPositive(letters);
    index := n - 1;
  }

  lemma {:induction false} NumberOfName(n: nat)
    ensures Number(Name(n)) == n
  {
    if n > 0 {
      var s := Name(n);
      assert s[..|s| - 1] == Name((n - 1) / 26);
      NumberOfName((n - 1) / 26);
    }
  }

  lemma {:induction false} NameOfNumber(s: string)
    requires forall i | 0 <= i < |s| :: IsLetter(s[i])
    ensures Name(Number(s)) == s
  {
    if s != "" {
      var init, last := s[..|s| - 1], s[|s| - 1];
      NameOfNumber(init);
      assert (Number(s) - 1) / 26 == Number(init) && (Number(s) - 1) % 26 == last as nat - 65;
      assert s == init + [last];
    }
  }

  /** Columns and letters are two names for the same thing. */
  lemma ColumnsRoundTrip(i: nat, s: string)
    ensures Letters(Col(i)) && ColIndex(Col(i)) == i
    ensures Letters(s) ==> Col(ColIndex(s)) == s
  {
    NumberOfName(i + 1);
    if Letters(s) { NameOfNumber(s); }
  }

  /** Three letters reach column 18278. */
  lemma ShortNames(n: nat)
    ensures |Name(n)| <= 3 <==> n <= 18278
  {
    var a := (n - 1) / 26;
    if n > 0 {
      assert |Name(n)| == |Name(a)| + 1;
      if a > 0 {
        var b := (a - 1) / 26;
        assert |Name(a)| == |Name(b)| + 1;
        if b > 0 {
          var c := (b - 1) / 26;
          assert |Name(b)| == |Name(c)| + 1;
          assert c == 0 <==> b <= 26;
          assert c > 0 ==> |Name(c)| > 0;
        }
      }
    }
  }

  // ----- keys

  datatype Problem = EmptyKey | Ambiguous(name: string) | Unknown(key: string) | Twice(column: nat) | NothingToWrite

  function Unescaped(s: string): string {
    if s == "" then ""
    else if StartsWith(s, "%2E") then "." + Unescaped(s[3..])
    else [s[0]] + Unescaped(s[1..])
  }

  function Count(headers: seq<string>, name: string): nat {
    if headers == [] then 0 else Count(headers[1..], name) + if headers[0] == name then 1 else 0
  }

  function IndexOf(headers: seq<string>, name: string): (i: nat)
    requires Count(headers, name) > 0
    ensures i < |headers| && headers[i] == name && forall j | 0 <= j < i :: headers[j] != name
  {
    if headers[0] == name then 0 else 1 + IndexOf(headers[1..], name)
  }

  function ByName(headers: seq<string>, name: string): Option<Result<nat, Problem>> {
    if Count(headers, name) == 1 then Some(Ok(IndexOf(headers, name)))
    else if Count(headers, name) > 1 then Some(Err(Ambiguous(name)))
    else None
  }

  /** Letters within the headers come first, then the header's name, as written or with its dots unescaped. */
  function Resolve(key: Option<string>, headers: seq<string>): Result<nat, Problem> {
    if key.None? || AllSpace(key.value) then Err(EmptyKey)
    else
      var k := key.value;
      if Letters(k) && |k| <= 3 && ColIndex(k) < |headers| then Ok(ColIndex(k))
      else match ByName(headers, k)
        case Some(r) => r
        case None =>
          match ByName(headers, Unescaped(k))
          case Some(r) => r
          case None => Err(Unknown(k))
  }

  /** The one place where the name stands. */
  predicate OnlyAt(headers: seq<string>, name: string, i: nat) {
    i < |headers| && headers[i] == name && forall j | 0 <= j < |headers| && j != i :: headers[j] != name
  }

  lemma {:induction false} CountNone(headers: seq<string>, name: string)
    ensures Count(headers, name) == 0 <==> name !in headers
  {
    if headers != [] { CountNone(headers[1..], name); }
  }

  lemma {:induction false} CountOne(headers: seq<string>, name: string)
    ensures Count(headers, name) == 1 ==> OnlyAt(headers, name, IndexOf(headers, name))
    ensures forall i: nat :: OnlyAt(headers, name, i) ==> Count(headers, name) == 1 && IndexOf(headers, name) == i
  {
    if headers != [] {
      var rest := headers[1..];
      assert forall j | 0 <= j < |rest| :: rest[j] == headers[j + 1];
      CountOne(rest, name);
      CountNone(rest, name);
      if headers[0] == name {
        if Count(rest, name) == 0 {
          forall j | 0 < j < |headers| ensures headers[j] != name { assert rest[j - 1] in rest; }
        } else {
          var m :| 0 <= m < |rest| && rest[m] == name;
          assert headers[m + 1] == name;
        }
      } else {
        if Count(rest, name) == 1 {
          var k := IndexOf(rest, name);
          forall j | 0 <= j < |headers| && j != k + 1 ensures headers[j] != name {
            if j > 0 { assert rest[j - 1] != name; }
          }
        }
        forall i: nat | OnlyAt(headers, name, i) ensures Count(headers, name) == 1 && IndexOf(headers, name) == i {
          assert OnlyAt(rest, name, i - 1);
        }
      }
    }
  }

  /** Every column below 18278 is found by its own letters, whatever the headers say. */
  lemma LettersResolve(i: nat, headers: seq<string>)
    requires i < |headers| && i < 18278
    ensures Resolve(Some(Col(i)), headers) == Ok(i)
  {
    ColumnsRoundTrip(i, "");
    ShortNames(i + 1);
    var s := Col(i);
    assert !IsSpace(s[0]);
  }

  /**
   * Where no letters apply a column is found exactly by its header if no other column has it, or by
   * a key that is no header but becomes such a one with its dots unescaped.
   */
  lemma NamesResolve(key: string, headers: seq<string>, i: nat)
    requires !AllSpace(key) && !(Letters(key) && |key| <= 3 && ColIndex(key) < |headers|)
    ensures Resolve(Some(key), headers) == Ok(i) <==>
      OnlyAt(headers, key, i) || (key !in headers && OnlyAt(headers, Unescaped(key), i))
  {
    hide Letters, ColIndex, AllSpace;
    CountOne(headers, key);
    CountNone(headers, key);
    CountOne(headers, Unescaped(key));
    hide Unescaped, Count, IndexOf;
  }

  /** Two places at least have the name. */
  predicate Repeated(headers: seq<string>, name: string) {
    exists i, j :: 0 <= i < j < |headers| && headers[i] == name && headers[j] == name
  }

  lemma {:induction false} CountMany(headers: seq<string>, name: string)
    ensures Count(headers, name) > 1 <==> Repeated(headers, name)
  {
    if headers != [] {
      var rest := headers[1..];
      CountMany(rest, name);
      CountNone(rest, name);
      assert forall j | 0 < j < |headers| :: headers[j] == rest[j - 1];
      if Repeated(rest, name) {
        var i, j :| 0 <= i < j < |rest| && rest[i] == name && rest[j] == name;
        assert headers[i + 1] == name && headers[j + 1] == name;
      }
      if headers[0] == name && name in rest {
        var j :| 0 <= j < |rest| && rest[j] == name;
        assert headers[0] == name && headers[j + 1] == name;
      }
    }
  }

  /** Why a key names no column: there is none, its header is there more than once, or no header is it. */
  lemma KeysRefused(key: string, headers: seq<string>, p: Problem)
    requires !(Letters(key) && |key| <= 3 && ColIndex(key) < |headers|)
    ensures Resolve(None, headers) == Err(EmptyKey)
    ensures Resolve(Some(key), headers) == Err(p) <==>
      if AllSpace(key) then p == EmptyKey
      else
        || (Repeated(headers, key) && p == Ambiguous(key))
        || (key !in headers && Repeated(headers, Unescaped(key)) && p == Ambiguous(Unescaped(key)))
        || (key !in headers && Unescaped(key) !in headers && p == Unknown(key))
  {
    CountMany(headers, key);
    CountNone(headers, key);
    CountMany(headers, Unescaped(key));
    CountNone(headers, Unescaped(key));
    hide Letters, ColIndex, AllSpace, Unescaped, Count, IndexOf, Repeated;
  }

  /** Every escaped dot of a key becomes a dot, the rest stays. */
  lemma Unescapes(a: string, c: char, b: string)
    ensures Unescaped("") == "" && Unescaped("%2E" + b) == "." + Unescaped(b)
    ensures !StartsWith([c] + b, "%2E") ==> Unescaped([c] + b) == [c] + Unescaped(b)
  {
    assert ("%2E" + b)[3..] == b;
    assert ([c] + b)[1..] == b;
  }

  // ----- rows

  datatype Cell = Empty | Words(text: string) | Other(n: int)

  predicate Blank(v: Cell) {
    v.Empty? || (v.Words? && AllSpace(v.text))
  }

  /** Nothing there, or a text of nothing but space. */
  lemma BlankCells(v: Cell)
    ensures Blank(v) <==> match v
      case Empty => true
      case Words(text) => forall i | 0 <= i < |text| :: IsSpace(text[i])
      case Other(_) => false
  {
  }

  type Columns = seq<(string, Cell)>

  predicate Places(columns: Columns, headers: seq<string>, k: nat, i: nat) {
    k < |columns| && Resolve(Some(columns[k].0), headers) == Ok(i)
  }

  /** Every key of the first n names a column, no two the same. */
  predicate AllPlaced(columns: Columns, headers: seq<string>, n: nat)
    requires n <= |columns|
  {
    && (forall k | 0 <= k < n :: Resolve(Some(columns[k].0), headers).Ok?)
    && (forall k, l | 0 <= k < l < n :: Resolve(Some(columns[k].0), headers) != Resolve(Some(columns[l].0), headers))
  }

  /** The row holds exactly the values given, each in its column, up to the last one. */
  ghost predicate LaidOut(columns: Columns, headers: seq<string>, blank: Cell, row: seq<Cell>) {
    && (forall k: nat, i: nat | Places(columns, headers, k, i) && !Blank(columns[k].1) ::
       i < |row| && row[i] == columns[k].1)
    && (forall i: nat | i < |row| ::
         row[i] == blank ||
           exists k: nat :: Places(columns, headers, k, i) && !Blank(columns[k].1) && row[i] == columns[k].1)
    && row != [] && (exists k: nat :: Places(columns, headers, k, |row| - 1) && !Blank(columns[k].1))
  }

  /** What stops the row: the first key that names no column, or one named before, or nothing to write. */
  ghost predicate Stopped(columns: Columns, headers: seq<string>, p: Problem) {
    || (p == NothingToWrite && AllPlaced(columns, headers, |columns|)
        && forall k | 0 <= k < |columns| :: Blank(columns[k].1))
    || (exists k: nat :: k < |columns| && AllPlaced(columns, headers, k) &&
         match Resolve(Some(columns[k].0), headers)
         case Err(q) => p == q
         case Ok(i) => p == Twice(i) && exists l: nat :: l < k && Places(columns, headers, l, i))
  }

  /** `_row` */
  method Row(columns: Columns, headers: seq<string>, blank: Cell) returns (r: Result<seq<Cell>, Problem>)
    ensures match r
      case Ok(row) => AllPlaced(columns, headers, |columns|) && LaidOut(columns, headers, blank, row)
      case Err(p) => Stopped(columns, headers, p)
  {
    hide Resolve;
    var cells: map<nat, Cell> := map[];
    var last: int := -1;
    for k := 0 to |columns|
      invariant AllPlaced(columns, headers, k)
      invariant forall i: nat :: i in cells <==> exists l: nat :: l < k && Places(columns, headers, l, i)
      invariant forall l: nat, i: nat | l < k && Places(columns, headers, l, i) :: cells[i] == columns[l].1
      invariant last == -1 || (last in cells && !Blank(cells[last]))
      invariant forall i | i in cells && !Blank(cells[i]) :: i <= last
    {
      var at := Resolve(Some(columns[k].0), headers);
      if at.Err? {
        assert Stopped(columns, headers, at.error);
        return Err(at.error);
      }
      var i := at.value;
      assert Places(columns, headers, k, i);
      if i in cells {
        assert Stopped(columns, headers, Twice(i));
        return Err(Twice(i));
      }
      forall l | 0 <= l < k ensures Resolve(Some(columns[l].0), headers) != Ok(i) {
        assert !Places(columns, headers, l, i);
      }
      cells := cells[i := columns[k].1];
      if !Blank(columns[k].1) && i > last {
        last := i;
      }
    }
    if last == -1 {
      forall k | 0 <= k < |columns| ensures Blank(columns[k].1) {
        assert Places(columns, headers, k, Resolve(Some(columns[k].0), headers).value);
      }
      return Err(NothingToWrite);
    }
    var row := seq(last + 1, i => if i in cells && !Blank(cells[i]) then cells[i] else blank);
    return Ok(row);
  }

  // ----- headers

  /** Blank as the backend counts it: some spaces of Unicode are letters there. */
  predicate BlankHeader(h: string) {
    forall i | 0 <= i < |h| :: IsSpace(h[i]) && h[i] !in "\U{85}\U{a0}\U{2007}\U{202f}"
  }

  function Cleaned(row: seq<string>): (h: seq<string>)
    ensures |h| == |row| && forall i | 0 <= i < |row| :: h[i] == if BlankHeader(row[i]) then "" else row[i]
  {
    seq(|row|, i requires 0 <= i < |row| => if BlankHeader(row[i]) then "" else row[i])
  }

  /** `_header_range`: up to the last header with text; if there is none, blanks for at most 26 columns. */
  method HeaderRange(firstRow: seq<string>, columnCount: nat) returns (headers: seq<string>)
    ensures forall k | 0 <= k < |firstRow| && !BlankHeader(firstRow[k]) :: k < |headers| && headers[k] == firstRow[k]
    ensures (exists k :: 0 <= k < |firstRow| && !BlankHeader(firstRow[k])) ==>
      headers <= Cleaned(firstRow) && headers != [] && headers[|headers| - 1] != ""
    ensures (forall k | 0 <= k < |firstRow| :: BlankHeader(firstRow[k])) ==>
      |headers| == (if columnCount < 26 then columnCount else 26) && forall i | 0 <= i < |headers| :: headers[i] == ""
  {
    hide BlankHeader;
    headers := Cleaned(firstRow);
    assert forall k | 0 <= k < |firstRow| && !BlankHeader(firstRow[k]) :: firstRow[k] != "" by { EmptyIsBlank(); }
    while headers != [] && headers[|headers| - 1] == ""
      invariant headers <= Cleaned(firstRow)
      invariant forall k | |headers| <= k < |firstRow| :: BlankHeader(firstRow[k])
    {
      headers := headers[..|headers| - 1];
    }
    if headers == [] {
      headers := seq(if columnCount < 26 then columnCount else 26, i => "");
    } else {
      assert !BlankHeader(firstRow[|headers| - 1]);
    }
  }

  /** The spaces of a blank header, by their codes: no next-line, no non-breaking or figure space. */
  lemma BlankHeaders(h: string)
    ensures BlankHeader(h) <==> forall i | 0 <= i < |h| ::
      var n := h[i] as int;
      || 0x9 <= n <= 0xd || 0x1c <= n <= 0x20 || n == 0x1680
      || 0x2000 <= n <= 0x2006 || 0x2008 <= n <= 0x200a
      || n == 0x2028 || n == 0x2029 || n == 0x205f || n == 0x3000
  {
  }

  lemma EmptyIsBlank()
    ensures BlankHeader("")
  {
  }

  // ----- the search for a row

  function CellAt(row: seq<string>, i: nat): string {
    if i < |row| then row[i] else ""
  }

  predicate Matches(row: seq<string>, conditions: seq<(nat, string)>) {
    forall c | 0 <= c < |conditions| :: CellAt(row, conditions[c].0) == conditions[c].1
  }

  /** A row matches if each column asked for has the text asked for; past its end a row has empty cells. */
  lemma MatchesIf(row: seq<string>, conditions: seq<(nat, string)>)
    ensures Matches(row, conditions) <==>
      forall c | c in conditions :: if c.0 < |row| then row[c.0] == c.1 else c.1 == ""
  {
    assert forall i | 0 <= i < |conditions| :: conditions[i] in conditions;
  }

  /** The row as a map from column letters. */
  function ByLetters(row: seq<string>, width: nat): map<string, string> {
    if width == 0 then map[] else ByLetters(row, width - 1)[Col(width - 1) := CellAt(row, width - 1)]
  }

  /** No column hides another: each is found under its letters. */
  lemma {:induction false} ByLettersAt(row: seq<string>, width: nat, i: nat)
    requires i < width
    ensures Col(i) in ByLetters(row, width) && ByLetters(row, width)[Col(i)] == if i < |row| then row[i] else ""
  {
    ColumnsRoundTrip(i, "");
    ColumnsRoundTrip(width - 1, "");
    hide Col, ColIndex;
    if i < width - 1 { ByLettersAt(row, width - 1, i); }
  }

  /** The loop of `_lookup`: rows below the header, numbered from 2, from the top or from the bottom. */
  method FindRow(rows: seq<seq<string>>, width: nat, conditions: seq<(nat, string)>, fromBottom: bool)
    returns (n: Option<nat>, found: map<string, string>)
    requires rows != []
    ensures n.None? <==> forall k | 1 <= k < |rows| :: !Matches(rows[k], conditions)
    ensures n.None? ==> found == map[]
    ensures n.Some? ==>
      && 2 <= n.value <= |rows| && Matches(rows[n.value - 1], conditions)
      && found == ByLetters(rows[n.value - 1], width)
      && forall k | 1 <= k < |rows| && (if fromBottom then k > n.value - 1 else k < n.value - 1) ::
          !Matches(rows[k], conditions)
  {
    hide ByLetters;
    var count := |rows| - 1;
    for step := 0 to count
      invariant forall k | 1 <= k < |rows| && (if fromBottom then k > count - step else k <= step) ::
        !Matches(rows[k], conditions)
    {
      var k := if fromBottom then count - step else step + 1;
      if Matches(rows[k], conditions) {
        return Some(k + 1), ByLetters(rows[k], width);
      }
    }
    return None, map[];
  }
}
