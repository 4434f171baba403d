/** The model card of an AI node: its numbered choices, how a reply picks one, what a pick writes. */
module ModelPick {
  import opened Wrappers
  import opened Text
  import opened Json
  import opened Workflow

  datatype Choice = Choice(
    n: nat, provider: string, credentialId: string, model: string, title: string, key: string, recommended: bool)

  datatype Named = Named(id: string, name: string)

  const PROVIDERS := ["CLAUDE", "OPENAI", "GEMINI"]
  const MAX_PER_PROVIDER := 3
  const KEY_NAME := "AI 키"

  function OrElse(s: string, other: string): string {
    if s != "" then s else other
  }

  /** The chat provider first, the others in their fixed order. */
  function Order(chat: string): (order: seq<string>)
    ensures |order| == 3 && forall i, j | 0 <= i < j < 3 :: order[i] != order[j]
    ensures chat in PROVIDERS ==> order[0] == chat
  {
    if chat == "CLAUDE" then ["CLAUDE", "OPENAI", "GEMINI"]
    else if chat == "OPENAI" then ["OPENAI", "CLAUDE", "GEMINI"]
    else if chat == "GEMINI" then ["GEMINI", "CLAUDE", "OPENAI"]
    else PROVIDERS
  }

  function OtherIds(models: seq<Named>, default: string): (ids: seq<string>)
    ensures default !in ids
  {
    if models == [] then []
    else (if models[0].id != default then [models[0].id] else []) + OtherIds(models[1..], default)
  }

  /** At most three models of a provider; its default is the first. */
  function Offered(models: seq<Named>, default: string): (ids: seq<string>)
    ensures 1 <= |ids| <= MAX_PER_PROVIDER && ids[0] == default
    ensures forall i | 1 <= i < |ids| :: ids[i] != default
  {
    var ids := [default] + OtherIds(models, default);
    assert forall i | 1 <= i < |ids| :: ids[i] == OtherIds(models, default)[i - 1];
    if |ids| <= MAX_PER_PROVIDER then ids else ids[..MAX_PER_PROVIDER]
  }

  function NameOf(models: seq<Named>, id: string): string {
    if models == [] then ""
    else if models[|models| - 1].id == id then models[|models| - 1].name
    else NameOf(models[..|models| - 1], id)
  }

  /** What is known about one provider: its key, its models and its default model. */
  datatype Source = Source(provider: string, key: Named, models: seq<Named>, default: string)

  function Card(chat: string, src: Source, id: string, n: nat): Choice {
    Choice(n, src.provider, src.key.id, id, OrElse(NameOf(src.models, id), id), OrElse(src.key.name, KEY_NAME),
      src.provider == chat && id == src.default)
  }

  /** A provider's part of the card, numbered from the given number on. */
  function Cards(chat: string, src: Source, ids: seq<string>, from: nat): (cards: seq<Choice>)
    ensures |cards| == |ids|
    ensures forall i | 0 <= i < |cards| :: cards[i] == Card(chat, src, ids[i], from + i)
  {
    if ids == [] then []
    else Cards(chat, src, ids[..|ids| - 1], from) + [Card(chat, src, ids[|ids| - 1], from + |ids| - 1)]
  }

  function ModelsOf(models: map<string, seq<Named>>, p: string): seq<Named> {
    if p in models then models[p] else []
  }

  function CardOf(
    order: seq<string>, chat: string, keys: map<string, Named>, models: map<string, seq<Named>>,
    default: string -> string)
    : (cards: seq<Choice>)
    ensures |cards| <= MAX_PER_PROVIDER * |order|
  {
    if order == [] then []
    else
      var p := order[|order| - 1];
      var before := CardOf(order[..|order| - 1], chat, keys, models, default);
      if p !in keys then before
      else
        var src := Source(p, keys[p], ModelsOf(models, p), default(p));
        before + Cards(chat, src, Offered(src.models, src.default), |before| + 1)
  }

  /** `build_choices`: the whole card. */
  function ModelCard(
    provider: string, keys: map<string, Named>, models: map<string, seq<Named>>, default: string -> string
  ): (cards: seq<Choice>)
    ensures |cards| <= 9
  {
    CardOf(Order(Upper(provider)), Upper(provider), keys, models, default)
  }

  method AddCards(choices: seq<Choice>, chat: string, src: Source) returns (more: seq<Choice>)
    ensures more == choices + Cards(chat, src, Offered(src.models, src.default), |choices| + 1)
  {
    hide Card, Offered;
    var ids := Offered(src.models, src.default);
    more := choices;
    for j := 0 to |ids|
      invariant more == choices + Cards(chat, src, ids[..j], |choices| + 1)
    {
      assert ids[..j + 1][..j] == ids[..j];
      more := more + [Card(chat, src, ids[j], |more| + 1)];
    }
    assert ids[..|ids|] == ids;
  }

  method BuildChoices(
    provider: string, keys: map<string, Named>, models: map<string, seq<Named>>, default: string -> string)
    returns (choices: seq<Choice>)
    ensures choices == ModelCard(provider, keys, models, default)
    ensures |choices| <= 9
  {
    hide Card, Offered, Cards, Order, Upper;
    var chat := Upper(provider);
    var order := Order(chat);
    choices := [];
    for i := 0 to |order|
      invariant choices == CardOf(order[..i], chat, keys, models, default)
    {
      var p := order[i];
      assert order[..i + 1][..i] == order[..i];
      if p in keys {
        choices := AddCards(choices, chat, Source(p, keys[p], ModelsOf(models, p), default(p)));
      }
    }
    assert order[..|order|] == order;
  }

  ghost predicate Numbered(choices: seq<Choice>) {
    forall i | 0 <= i < |choices| :: choices[i].n == i + 1
  }

  /** The card numbers its choices 1, 2, 3, ... and every choice carries the key of its own provider. */
  lemma {:induction false} CardNumbered(
    order: seq<string>, chat: string, keys: map<string, Named>, models: map<string, seq<Named>>,
    default: string -> string)
    ensures Numbered(CardOf(order, chat, keys, models, default))
    ensures forall c | c in CardOf(order, chat, keys, models, default) ::
      c.provider in order && c.provider in keys && c.credentialId == keys[c.provider].id
  {
    if order != [] {
      CardNumbered(order[..|order| - 1], chat, keys, models, default);
    }
  }

  /** No choice but the first is recommended, and that one exactly under the condition. */
  ghost predicate OnlyFirst(cards: seq<Choice>, condition: bool) {
    forall i | 0 <= i < |cards| :: cards[i].recommended <==> i == 0 && condition
  }

  /** Only the chat provider's default model is recommended; with the chat provider in front it is choice 1. */
  lemma {:induction false} Recommended(
    order: seq<string>, chat: string, keys: map<string, Named>, models: map<string, seq<Named>>,
    default: string -> string)
    requires order != [] && chat !in order[1..]
    ensures var cards := CardOf(order, chat, keys, models, default);
      && (order[0] == chat && chat in keys ==>
          cards != [] && cards[0].provider == chat && cards[0].model == default(chat))
      && OnlyFirst(cards, order[0] == chat && chat in keys)
  {
    var init := order[..|order| - 1];
    if |order| > 1 {
      assert init[1..] <= order[1..] && order[|order| - 1] == order[1..][|order| - 2];
      Recommended(init, chat, keys, models, default);
    } else {
      assert CardOf(init, chat, keys, models, default) == [];
    }
  }

  /**
   * On the whole card: the first choice is recommended exactly if the user has a key for the chat's
   * provider, no other ever.
   */
  lemma CardRecommends(
    provider: string, keys: map<string, Named>, models: map<string, seq<Named>>, default: string -> string)
    ensures var chat, cards := Upper(provider), ModelCard(provider, keys, models, default);
      && (chat in PROVIDERS && chat in keys ==>
          cards != [] && cards[0].provider == chat && cards[0].model == default(chat))
      && OnlyFirst(cards, chat in PROVIDERS && chat in keys)
  {
    var chat := Upper(provider);
    var order, cards := Order(chat), ModelCard(provider, keys, models, default);
    assert cards == CardOf(order, chat, keys, models, default);
    ChatInFront(chat);
    hide Order, OnlyFirst;
    Recommended(order, chat, keys, models, default);
  }

  lemma ChatInFront(chat: string)
    ensures Order(chat)[0] == chat <==> chat in PROVIDERS
    ensures chat !in Order(chat)[1..]
  {
    assert forall i | 0 <= i < 2 :: Order(chat)[1..][i] == Order(chat)[i + 1];
  }

  /** The title of a model: its name in the list, the later one counting; or its id. */
  lemma {:induction false} NameIs(models: seq<Named>, id: string)
    ensures (forall m | m in models :: m.id != id) ==> NameOf(models, id) == ""
    ensures forall i: nat | i < |models| && models[i].id == id && forall j | i < j < |models| :: models[j].id != id ::
      NameOf(models, id) == models[i].name
  {
    if models != [] {
      var init, last := models[..|models| - 1], models[|models| - 1];
      assert models == init + [last];
      NameIs(init, id);
      forall i: nat | i < |models| && models[i].id == id && forall j | i < j < |models| :: models[j].id != id
        ensures NameOf(models, id) == models[i].name
      {
        if i < |init| { assert init[i] == models[i] && last.id != id; }
      }
    }
  }

  /** The other models keep the order of the list, without the default. */
  lemma {:induction false} OthersAre(models: seq<Named>, more: seq<Named>, default: string, id: string)
    ensures id in OtherIds(models, default) <==> id != default && exists m :: m in models && m.id == id
    ensures OtherIds(models + more, default) == OtherIds(models, default) + OtherIds(more, default)
  {
    if models == [] {
      assert models + more == more;
    } else {
      var rest := models[1..];
      assert models == [models[0]] + rest && (models + more)[1..] == rest + more;
      OthersAre(rest, more, default, id);
    }
  }

  /** A provider's choices: its default, then up to two others, each with the provider's key. */
  lemma ChoicesOf(chat: string, src: Source, from: nat, i: nat)
    requires i < |Offered(src.models, src.default)|
    ensures var ids := Offered(src.models, src.default);
      var cards := Cards(chat, src, ids, from);
      var all := [src.default] + OtherIds(src.models, src.default);
      && ids == (if |all| <= 3 then all else all[..3])
      && |cards| == |ids|
      && cards[i] == Choice(from + i, src.provider, src.key.id, ids[i],
           if NameOf(src.models, ids[i]) == "" then ids[i] else NameOf(src.models, ids[i]),
           if src.key.name == "" then "AI 키" else src.key.name, src.provider == chat && i == 0)
  {
    hide Cards, OtherIds;
  }

  /** The card is built provider by provider; one without a key of the user has no part in it. */
  lemma CardGrows(
    order: seq<string>, p: string, chat: string, keys: map<string, Named>, models: map<string, seq<Named>>,
    default: string -> string)
    ensures var before := CardOf(order, chat, keys, models, default);
      CardOf(order + [p], chat, keys, models, default) ==
        if p !in keys then before
        else
          var src := Source(p, keys[p], if p in models then models[p] else [], default(p));
          before + Cards(chat, src, Offered(src.models, src.default), |before| + 1)
  {
    var longer := order + [p];
    assert longer[..|longer| - 1] == order && longer[|longer| - 1] == p;
    LastProvider(longer, chat, keys, models, default);
    hide *;
  }

  lemma LastProvider(
    order: seq<string>, chat: string, keys: map<string, Named>, models: map<string, seq<Named>>,
    default: string -> string)
    requires order != []
    ensures var p, before := order[|order| - 1], CardOf(order[..|order| - 1], chat, keys, models, default);
      CardOf(order, chat, keys, models, default) ==
        if p !in keys then before
        else
          var src := Source(p, keys[p], if p in models then models[p] else [], default(p));
          before + Cards(chat, src, Offered(src.models, src.default), |before| + 1)
  {
    hide Cards, Offered;
  }

  /** The chat's provider first, then the others as they stand. */
  lemma OrderIs(chat: string)
    ensures Order(chat) ==
      if chat == "OPENAI" then ["OPENAI", "CLAUDE", "GEMINI"]
      else if chat == "GEMINI" then ["GEMINI", "CLAUDE", "OPENAI"]
      else ["CLAUDE", "OPENAI", "GEMINI"]
  {
  }

  // ----- replies

  function DropMarks(s: string): string {
    if s != "" && s[|s| - 1] in ".!" then DropMarks(s[..|s| - 1]) else s
  }

  /** One digit 1-9 or one circled digit, spaces, and perhaps the counter word. */
  function NumberOf(t: string): Option<nat> {
    if t == "" || StripLeft(t[1..]) !in ["", "번"] then None
    else if '1' <= t[0] <= '9' then Some(t[0] as nat - '0' as nat)
    else if '\U{2460}' <= t[0] <= '\U{2468}' then Some(t[0] as nat - 0x2460 + 1)
    else None
  }

  function WithNumber(choices: seq<Choice>, n: nat): (r: Option<Choice>)
    ensures r.Some? ==> r.value in choices && r.value.n == n
  {
    if choices == [] then None
    else if choices[0].n == n then Some(choices[0])
    else WithNumber(choices[1..], n)
  }

  function WithTitle(choices: seq<Choice>, title: string): (r: seq<Choice>)
    ensures forall c | c in r :: c in choices && c.title == title
  {
    if choices == [] then []
    else (if choices[0].title == title then [choices[0]] else []) + WithTitle(choices[1..], title)
  }

  function MatchChoice(text: string, choices: seq<Choice>): (r: Option<Choice>)
    ensures r.Some? ==> r.value in choices
  {
    var t := Strip(DropMarks(Strip(text)));
    if t == "" then None
    else match NumberOf(t)
      case Some(n) => WithNumber(choices, n)
      case None =>
        var same := WithTitle(choices, t);
        if |same| == 1 then Some(same[0]) else None
  }

  lemma {:induction false} NumberedLookup(choices: seq<Choice>, from: nat, n: nat)
    requires forall i | 0 <= i < |choices| :: choices[i].n == from + i
    requires from <= n < from + |choices|
    ensures WithNumber(choices, n) == Some(choices[n - from])
  {
    if n != from {
      NumberedLookup(choices[1..], from + 1, n);
    }
  }

  lemma OneMark(c: char)
    requires !IsSpace(c) && c != '.' && c != '!'
    ensures Strip(DropMarks(Strip([c]))) == [c]
  {
    assert StripLeft([c]) == [c];
    assert StripRight([c]) == [c];
    assert DropMarks([c]) == [c];
  }

  lemma DigitIsNumber(n: nat)
    requires 1 <= n <= 9
    ensures var t := Decimal(n);
      t != "" && Strip(DropMarks(Strip(t))) == t && NumberOf(t) == Some(n)
  {
    var c := ('0' as int + n) as char;
    assert Decimal(n) == [c];
    OneMark(c);
    assert StripLeft([c][1..]) == "";
    assert c as nat - '0' as nat == n;
  }

  /** The value a card option sends back (its number in decimal) picks exactly that choice. */
  lemma OptionPicksItsChoice(choices: seq<Choice>, i: nat)
    requires Numbered(choices) && i < |choices| <= 9
    ensures MatchChoice(Decimal(choices[i].n), choices) == Some(choices[i])
  {
    hide Decimal, Strip, DropMarks, NumberOf;
    DigitIsNumber(i + 1);
    NumberedLookup(choices, 1, i + 1);
  }

  /** The reply is n in one digit or one circled digit, then spaces, perhaps the counter word, and no more. */
  predicate Writes(t: string, n: nat) {
    && t != "" && 1 <= n <= 9 && (t[0] as int == 0x30 + n || t[0] as int == 0x2460 - 1 + n)
    && exists k :: 1 <= k <= |t| && AllSpace(t[1..k]) && t[k..] in {"", "번"}
  }

  lemma RestIs(t: string)
    requires t != ""
    ensures StripLeft(t[1..]) in {"", "번"} <==>
      exists k :: 1 <= k <= |t| && AllSpace(t[1..k]) && t[k..] in {"", "번"}
  {
    var rest, left := t[1..], StripLeft(t[1..]);
    StripLeftCuts(rest);
    var k0 := |t| - |left|;
    assert t[k0..] == left && t[1..k0] == rest[..|rest| - |left|];
    forall k | 1 <= k <= |t| && AllSpace(t[1..k]) && t[k..] in {"", "번"} ensures left in {"", "번"} {
      forall i | 1 <= i < k ensures IsSpace(t[i]) { assert t[1..k][i - 1] == t[i]; }
      assert left != "" ==> left[0] == t[k0];
      assert t[k..] != "" ==> t[k..][0] == t[k] && !IsSpace(t[k]);
      forall i | 1 <= i < k0 ensures IsSpace(t[i]) { assert t[1..k0][i - 1] == t[i]; }
    }
  }

  lemma NumberIs(t: string, n: nat)
    ensures NumberOf(t) == Some(n) <==> Writes(t, n)
  {
    if t != "" { RestIs(t); }
    hide StripLeft, AllSpace;
  }

  /** w is s without the full stops and exclamation marks at its end. */
  predicate Unmarked(s: string, w: string) {
    && w <= s && (forall i | |w| <= i < |s| :: s[i] == '.' || s[i] == '!')
    && (w != "" ==> w[|w| - 1] != '.' && w[|w| - 1] != '!')
  }

  lemma {:induction false} MarksDropped(s: string, w: string)
    ensures DropMarks(s) == w <==> Unmarked(s, w)
  {
    if s != "" && s[|s| - 1] in ".!" {
      var init := s[..|s| - 1];
      MarksDropped(init, w);
      assert Unmarked(s, w) ==> |w| < |s|;
      assert |w| < |s| ==> (w <= s <==> w <= init);
    } else if s != "" {
      assert Unmarked(s, w) ==> |w| == |s|;
    }
  }

  /** What is left of a reply: no space around it, no marks behind it. */
  ghost predicate Bare(text: string, t: string) {
    exists u, w :: Trimmed(text, u) && Unmarked(u, w) && Trimmed(w, t)
  }

  lemma BareIs(text: string, t: string)
    ensures Bare(text, t) <==> t == Strip(DropMarks(Strip(text)))
  {
    hide Strip, DropMarks, Trimmed, Unmarked;
    forall u, w | Trimmed(text, u) && Unmarked(u, w) && Trimmed(w, t) ensures t == Strip(DropMarks(Strip(text))) {
      StripIs(text, u);
      MarksDropped(u, w);
      StripIs(w, t);
    }
    var u := Strip(text);
    var w := DropMarks(u);
    StripIs(text, u);
    MarksDropped(u, w);
    StripIs(w, t);
  }

  predicate FirstNumbered(choices: seq<Choice>, n: nat, i: nat) {
    i < |choices| && choices[i].n == n && forall j | 0 <= j < i :: choices[j].n != n
  }

  predicate OnlyTitled(choices: seq<Choice>, title: string, i: nat) {
    i < |choices| && choices[i].title == title && forall j | 0 <= j < |choices| && j != i :: choices[j].title != title
  }

  lemma {:induction false} NumberLooked(choices: seq<Choice>, n: nat)
    ensures forall i: nat | FirstNumbered(choices, n, i) :: WithNumber(choices, n) == Some(choices[i])
    ensures (forall i: nat :: !FirstNumbered(choices, n, i)) ==> WithNumber(choices, n) == None
  {
    if choices != [] {
      var rest := choices[1..];
      NumberLooked(rest, n);
      if choices[0].n == n {
        assert FirstNumbered(choices, n, 0);
      } else {
        forall i: nat | FirstNumbered(choices, n, i) ensures WithNumber(choices, n) == Some(choices[i]) {
          assert forall j | 0 <= j < |rest| :: rest[j] == choices[j + 1];
          assert FirstNumbered(rest, n, i - 1);
        }
        forall i: nat ensures FirstNumbered(rest, n, i) ==> FirstNumbered(choices, n, i + 1) {
          assert forall j | 0 < j < |choices| :: choices[j] == rest[j - 1];
        }
      }
    }
  }

  lemma {:induction false} TitlesLooked(choices: seq<Choice>, title: string)
    ensures WithTitle(choices, title) == [] <==> forall i | 0 <= i < |choices| :: choices[i].title != title
    ensures forall i: nat | OnlyTitled(choices, title, i) :: WithTitle(choices, title) == [choices[i]]
    ensures |WithTitle(choices, title)| == 1 ==> exists i: nat :: OnlyTitled(choices, title, i)
  {
    if choices != [] {
      var rest := choices[1..];
      TitlesLooked(rest, title);
      assert forall j | 0 < j < |choices| :: choices[j] == rest[j - 1];
      if choices[0].title == title {
        if WithTitle(rest, title) == [] { assert OnlyTitled(choices, title, 0); }
      } else {
        forall i: nat | OnlyTitled(choices, title, i) ensures WithTitle(choices, title) == [choices[i]] {
          assert OnlyTitled(rest, title, i - 1);
        }
        if i: nat :| OnlyTitled(rest, title, i) { assert OnlyTitled(choices, title, i + 1); }
      }
    }
  }

  /** A number picks the first choice with it, and no other way; any other text the only choice of that title. */
  lemma ReplyPicks(text: string, choices: seq<Choice>, t: string, c: Choice)
    requires Bare(text, t)
    ensures MatchChoice(text, choices) == Some(c) <==>
      if t == "" then false
      else if exists n :: Writes(t, n) then
        exists n, i: nat :: Writes(t, n) && FirstNumbered(choices, n, i) && c == choices[i]
      else exists i: nat :: OnlyTitled(choices, t, i) && c == choices[i]
  {
    BareIs(text, t);
    forall n { NumberIs(t, n); }
    hide Strip, DropMarks, Writes, NumberOf, WithNumber, WithTitle, FirstNumbered, OnlyTitled;
    match NumberOf(t)
    case Some(n) => NumberLooked(choices, n); FirstIs(choices, n);
    case None => TitlesLooked(choices, t); OnlyIs(choices, t);
  }

  lemma FirstIs(choices: seq<Choice>, n: nat)
    ensures forall i: nat | FirstNumbered(choices, n, i) :: i < |choices|
  {
  }

  lemma OnlyIs(choices: seq<Choice>, title: string)
    ensures forall i: nat | OnlyTitled(choices, title, i) :: i < |choices|
  {
  }

  // ----- what a pick writes

  function ApplyChoice(n: Node, c: Choice): Node {
    var config := ConfigFields(n);
    n.(config := Obj(Put(Put(Put(config,
      "credentialId", Str(c.credentialId)), "llmProvider", Str(c.provider)), "model", Str(c.model))))
  }

  /** Exactly the three model fields are written; every other field and attribute stays. */
  lemma ApplyChoiceWrites(n: Node, c: Choice, k: string)
    ensures var m := ApplyChoice(n, c);
      && m == n.(config := m.config)
      && m.config.Obj?
      && Lookup(m.config.fields, k) ==
         (if k == "credentialId" then Some(Str(c.credentialId))
          else if k == "llmProvider" then Some(Str(c.provider))
          else if k == "model" then Some(Str(c.model))
          else Lookup(ConfigFields(n), k))
  {
    var f0 := ConfigFields(n);
    var f1 := Put(f0, "credentialId", Str(c.credentialId));
    var f2 := Put(f1, "llmProvider", Str(c.provider));
    LookupPut(f0, "credentialId", Str(c.credentialId), k);
    LookupPut(f1, "llmProvider", Str(c.provider), k);
    LookupPut(f2, "model", Str(c.model), k);
  }
}
