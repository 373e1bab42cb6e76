/** The rendering pipeline on tokens and its meaning on trees
    (engine/composition/renderer.py, _process_each_blocks and _render_slots). */
module TemplateEngine {
  import opened Options
  import opened TemplateData
  import opened Conditionals
  import opened EachBlocks
  import opened EachTurns

  // ---- The expansion loop ----

  /** _process_each_blocks on the tokens of any well-nested template: thirty turns, and an each tag is left
      exactly if it needs more. */
  method ProcessEachBlocks(tokens: seq<Token>, data: Data, fmt: Format, ghost f: Forest) returns (r: seq<Token>)
    requires tokens == Print(f)
    ensures r == Print(ExpandTimes(f, data, fmt, MAX_EACH_PER_LEVEL))
    ensures Turns(f, data, fmt) <= MAX_EACH_PER_LEVEL ==> r == Print(ExpandAll(f, data, fmt))
    ensures (exists t :: t in r && t.EachOpen?) <==> Turns(f, data, fmt) > MAX_EACH_PER_LEVEL
    decreases LargestBody(f), 3, 0
  {
    ExpandTimesResult(f, data, fmt, MAX_EACH_PER_LEVEL);
    NoBlockNoTag(ExpandTimes(f, data, fmt, MAX_EACH_PER_LEVEL));
    r := ExpandBlocks(tokens, MAX_EACH_PER_LEVEL, data, fmt, f);
  }

  /** The loop, with its bound as a parameter. */
  method ExpandBlocks(tokens: seq<Token>, bound: nat, data: Data, fmt: Format, ghost f: Forest) returns (r: seq<Token>)
    requires tokens == Print(f)
    ensures r == Print(ExpandTimes(f, data, fmt, bound))
    decreases LargestBody(f), 2, 0
  {
    r := tokens;
    ghost var g := f;
    for n := 0 to bound
      invariant r == Print(g) && LargestBody(g) <= LargestBody(f)
      invariant ExpandTimes(g, data, fmt, bound - n) == ExpandTimes(f, data, fmt, bound)
    {
      NoBlockNoTag(g);
      var open := FindTag(r, 0, true);
      if open == None {
        return;
      }
      r := ExpandOne(r, open.value, data, fmt, g);
      g := ExpandFirst(g, data, fmt);
    }
  }

  /** The body of the loop: the block that opens at position open is replaced by its rendered items. */
  method ExpandOne(tokens: seq<Token>, open: nat, data: Data, fmt: Format, ghost f: Forest) returns (r: seq<Token>)
    requires tokens == Print(f) && Outer(f) > 0
    requires open < |tokens| && tokens[open].EachOpen? && forall i :: 0 <= i < open ==> !tokens[i].EachOpen?
    ensures r == Print(ExpandFirst(f, data, fmt))
    decreases LargestBody(f), 1, 0
  {
    ghost var before, key, b, after := LocateFirstBlock(f, data, fmt);
    FirstBlockInTokens(tokens, before, key, b, after, open);
    var bodyEnd := FindPartner(tokens, open + 1);
    var body := tokens[open + 1..bodyEnd.value];
    var items := Resolve(tokens[open].key, data);
    var parts: seq<Token> := [];
    if items.List? {
      parts := RenderParts(body, items.items, data, fmt, b);
    }
    r := tokens[..open] + parts + tokens[bodyEnd.value + 1..];
  }

  /** The parts so far, followed by what is still to render, make the whole. */
  ghost predicate RenderedUpTo(parts: seq<Token>, b: Forest, items: seq<Value>, i: nat, data: Data, fmt: Format)
    requires i <= |items|
  {
    parts + Print(RenderItems(b, items, i, data, fmt)) == Print(RenderItems(b, items, 0, data, fmt))
  }

  lemma RenderedOneMore(parts: seq<Token>, b: Forest, items: seq<Value>, i: nat, data: Data, fmt: Format)
    requires i < |items| && RenderedUpTo(parts, b, items, i, data, fmt)
    ensures RenderedUpTo(parts + Print(RenderItem(b, ItemData(data, items[i], i), fmt)), b, items, i + 1, data, fmt)
  {
    var item, rest := RenderItem(b, ItemData(data, items[i], i), fmt), RenderItems(b, items, i + 1, data, fmt);
    PrintJoin(item, rest);
    Regroup3(parts, Print(item), Print(rest));
  }

  /** The rendered items of one block, joined. */
  method RenderParts(body: seq<Token>, items: seq<Value>, data: Data, fmt: Format, ghost b: Forest)
    returns (parts: seq<Token>)
    requires body == Print(b)
    ensures parts == Print(RenderItems(b, items, 0, data, fmt))
    decreases Size(b), 5, 0
  {
    parts := [];
    for i := 0 to |items|
      invariant RenderedUpTo(parts, b, items, i, data, fmt)
    {
      var rendered := RenderOne(body, ItemData(data, items[i], i), fmt, b);
      RenderedOneMore(parts, b, items, i, data, fmt);
      parts := parts + rendered;
    }
    assert Print(Nil) == [];
  }

  /** One item: its ifs, then its each blocks, then its slots. */
  method RenderOne(body: seq<Token>, d: Data, fmt: Format, ghost b: Forest) returns (rendered: seq<Token>)
    requires body == Print(b)
    ensures rendered == Print(RenderItem(b, d, fmt))
    decreases Size(b), 4, 0
  {
    ItemMeasures(b, d);
    rendered := ProcessConditionals(body, d, b);
    rendered := ProcessEachBlocks(rendered, d, fmt, Rounds(b, d, MAX_IF_ROUNDS));
    FillOnTokens(ExpandTimes(Rounds(b, d, MAX_IF_ROUNDS), d, fmt, MAX_EACH_PER_LEVEL), d, fmt);
    rendered := FillTokens(rendered, d, fmt);
  }

  // ---- The whole pipeline ----

  /** The last step of _render_slots: every slot becomes text, unresolved ones become empty. */
  function FinishToken(t: Token, data: Data, fmt: Format): Token
  {
    if t.Slot? then
      var v := Resolve(t.key, data);
      Text(if v == Null then "" else fmt.outer(t.key, v))
    else t
  }

  function FinishTokens(ts: seq<Token>, data: Data, fmt: Format): (r: seq<Token>)
    ensures |r| == |ts|
  {
    seq(|ts|, i requires 0 <= i < |ts| => FinishToken(ts[i], data, fmt))
  }

  /** What a slot shows, given the data of the enclosing items from the innermost outwards and the top-level
      data last: the innermost binding that is not None. */
  function Show(key: Key, envs: seq<Data>, fmt: Format): string
    requires envs != []
  {
    var v := Resolve(key, envs[0]);
    if |envs| == 1 then (if v == Null then "" else fmt.outer(key, v))
    else if v != Null then fmt.inner(v)
    else Show(key, envs[1..], fmt)
  }

  /** The meaning of a template: ifs look at the top-level data, each blocks iterate over the list found from
      the innermost item, and slots show their innermost binding. */
  function Evaluate(f: Forest, top: Data, envs: seq<Data>, fmt: Format): seq<Token>
    requires envs != []
    decreases f, 0, 0
  {
    match f
    case Nil => []
    case TextThen(s, rest) => [Text(s)] + Evaluate(rest, top, envs, fmt)
    case SlotThen(key, rest) => [Text(Show(key, envs, fmt))] + Evaluate(rest, top, envs, fmt)
    case IfThen(key, body, rest) =>
      (if Truthy(Resolve(key, top)) then Evaluate(body, top, envs, fmt) else []) + Evaluate(rest, top, envs, fmt)
    case EachThen(key, body, rest) =>
      var v := Resolve(key, envs[0]);
      (if v.List? then EvaluateItems(body, v.items, 0, top, envs, fmt) else []) + Evaluate(rest, top, envs, fmt)
  }

  function EvaluateItems(body: Forest, items: seq<Value>, i: nat, top: Data, envs: seq<Data>, fmt: Format): seq<Token>
    requires envs != [] && i <= |items|
    decreases body, 1, |items| - i
  {
    if i == |items| then [] else
      Evaluate(body, top, [ItemData(envs[0], items[i], i)] + envs, fmt) + EvaluateItems(body, items, i + 1, top,
                                                                                        envs, fmt)
  }

  /** Printing with every slot shown. */
  function ShowAll(f: Forest, envs: seq<Data>, fmt: Format): seq<Token>
    requires envs != []
  {
    match f
    case Nil => []
    case TextThen(s, rest) => [Text(s)] + ShowAll(rest, envs, fmt)
    case SlotThen(key, rest) => [Text(Show(key, envs, fmt))] + ShowAll(rest, envs, fmt)
    case IfThen(key, body, rest) => [IfOpen(key)] + ShowAll(body, envs, fmt) + [IfClose] + ShowAll(rest, envs, fmt)
    case EachThen(key, body, rest) => [EachOpen(key)] + ShowAll(body, envs, fmt) + [EachClose] + ShowAll(rest, envs,
                                                                                                         fmt)
  }

  lemma {:induction false} ShowJoin(f: Forest, g: Forest, envs: seq<Data>, fmt: Format)
    requires envs != []
    ensures ShowAll(Join(f, g), envs, fmt) == ShowAll(f, envs, fmt) + ShowAll(g, envs, fmt)
  {
    match f
    case Nil =>
    case TextThen(s, rest) =>
      ShowJoin(rest, g, envs, fmt);
      Regroup3([Text(s)], ShowAll(rest, envs, fmt), ShowAll(g, envs, fmt));
    case SlotThen(key, rest) =>
      ShowJoin(rest, g, envs, fmt);
      Regroup3([Text(Show(key, envs, fmt))], ShowAll(rest, envs, fmt), ShowAll(g, envs, fmt));
    case IfThen(key, body, rest) =>
      ShowJoin(rest, g, envs, fmt);
      Regroup3([IfOpen(key)] + ShowAll(body, envs, fmt) + [IfClose], ShowAll(rest, envs, fmt), ShowAll(g, envs, fmt));
    case EachThen(key, body, rest) =>
      ShowJoin(rest, g, envs, fmt);
      Regroup3([EachOpen(key)] + ShowAll(body, envs, fmt) + [EachClose], ShowAll(rest, envs, fmt), ShowAll(g, envs,
                                                                                                           fmt));
  }

  /** Filling with an item's data and showing outside is showing with the item in front. */
  lemma {:induction false} ShowFilled(f: Forest, d: Data, envs: seq<Data>, fmt: Format)
    requires envs != []
    ensures ShowAll(FillSlots(f, d, fmt), envs, fmt) == ShowAll(f, [d] + envs, fmt)
  {
    assert ([d] + envs)[1..] == envs;
    match f
    case Nil =>
    case TextThen(s, rest) => ShowFilled(rest, d, envs, fmt);
    case SlotThen(key, rest) => ShowFilled(rest, d, envs, fmt);
    case IfThen(key, body, rest) => ShowFilled(body, d, envs, fmt); ShowFilled(rest, d, envs, fmt);
    case EachThen(key, body, rest) => ShowFilled(body, d, envs, fmt); ShowFilled(rest, d, envs, fmt);
  }

  // ---- The meaning of any template, however deep its ifs nest ----

  function Copies(d: Data, n: nat): seq<Data>
  {
    seq(n, _ => d)
  }

  /** What a template means whatever its nesting. An if whose body nests h further ifs is decided in round h + 1
      that reaches it, and rounds come in tens: first ten against the top-level data, then, inside an each body,
      ten more against every item on the way in. deciders[h] is the data of round h + 1; an if that outlasts
      the rounds keeps its tags. */
  function Meaning(f: Forest, deciders: seq<Data>, envs: seq<Data>, fmt: Format): seq<Token>
    requires envs != []
    decreases f, 0, 0
  {
    match f
    case Nil => []
    case TextThen(s, rest) => [Text(s)] + Meaning(rest, deciders, envs, fmt)
    case SlotThen(key, rest) => [Text(Show(key, envs, fmt))] + Meaning(rest, deciders, envs, fmt)
    case IfThen(key, body, rest) =>
      DecidedIf(key, IfHeight(body), deciders, Meaning(body, deciders, envs, fmt)) + Meaning(rest, deciders, envs, fmt)
    case EachThen(key, body, rest) =>
      var v := Resolve(key, envs[0]);
      (if v.List? then MeaningOfItems(body, v.items, 0, deciders, envs, fmt) else [])
      + Meaning(rest, deciders, envs, fmt)
  }

  function MeaningOfItems(body: Forest, items: seq<Value>, i: nat, deciders: seq<Data>, envs: seq<Data>,
                          fmt: Format): seq<Token>
    requires envs != [] && i <= |items|
    decreases body, 1, |items| - i
  {
    if i == |items| then [] else
      var d := ItemData(envs[0], items[i], i);
      Meaning(body, deciders + Copies(d, MAX_IF_ROUNDS), [d] + envs, fmt)
      + MeaningOfItems(body, items, i + 1, deciders, envs, fmt)
  }

  function DecidedIf(key: Key, h: nat, deciders: seq<Data>, content: seq<Token>): seq<Token>
  {
    if h >= |deciders| then [IfOpen(key)] + content + [IfClose]
    else if Truthy(Resolve(key, deciders[h])) then content
    else []
  }

  lemma {:induction false} MeaningJoin(f: Forest, g: Forest, deciders: seq<Data>, envs: seq<Data>, fmt: Format)
    requires envs != []
    ensures Meaning(Join(f, g), deciders, envs, fmt) ==
      Meaning(f, deciders, envs, fmt) + Meaning(g, deciders, envs, fmt)
  {
    match f
    case Nil =>
    case TextThen(s, rest) =>
      MeaningJoin(rest, g, deciders, envs, fmt);
      Regroup3([Text(s)], Meaning(rest, deciders, envs, fmt), Meaning(g, deciders, envs, fmt));
    case SlotThen(key, rest) =>
      MeaningJoin(rest, g, deciders, envs, fmt);
      Regroup3([Text(Show(key, envs, fmt))], Meaning(rest, deciders, envs, fmt), Meaning(g, deciders, envs, fmt));
    case IfThen(key, body, rest) =>
      MeaningJoin(rest, g, deciders, envs, fmt);
      Regroup3(DecidedIf(key, IfHeight(body), deciders, Meaning(body, deciders, envs, fmt)),
               Meaning(rest, deciders, envs, fmt), Meaning(g, deciders, envs, fmt));
    case EachThen(key, body, rest) =>
      MeaningJoin(rest, g, deciders, envs, fmt);
      var v := Resolve(key, envs[0]);
      Regroup3(if v.List? then MeaningOfItems(body, v.items, 0, deciders, envs, fmt) else [],
               Meaning(rest, deciders, envs, fmt), Meaning(g, deciders, envs, fmt));
  }

  lemma {:induction false} StripFree(f: Forest, data: Data)
    requires IfFree(f)
    ensures StripInnermost(f, data) == f
  {
    match f
    case Nil =>
    case TextThen(s, rest) => StripFree(rest, data);
    case SlotThen(key, rest) => StripFree(rest, data);
    case EachThen(key, body, rest) => StripFree(body, data); StripFree(rest, data);
  }

  /** A round uses up the first decider and keeps the meaning. */
  lemma {:induction false} RoundKeepsMeaning(f: Forest, deciders: seq<Data>, envs: seq<Data>, fmt: Format)
    requires envs != [] && deciders != []
    ensures Meaning(StripInnermost(f, deciders[0]), deciders[1..], envs, fmt) == Meaning(f, deciders, envs, fmt)
    decreases f, 0, 0
  {
    match f
    case Nil =>
    case TextThen(s, rest) => RoundKeepsMeaning(rest, deciders, envs, fmt);
    case SlotThen(key, rest) => RoundKeepsMeaning(rest, deciders, envs, fmt);
    case IfThen(key, body, rest) =>
      RoundKeepsMeaning(body, deciders, envs, fmt);
      RoundKeepsMeaning(rest, deciders, envs, fmt);
      RoundProgress(body, deciders[0]);
      if IfFree(body) {
        StripFree(body, deciders[0]);
        MeaningJoin(body, StripInnermost(rest, deciders[0]), deciders[1..], envs, fmt);
      }
    case EachThen(key, body, rest) =>
      RoundKeepsMeaning(rest, deciders, envs, fmt);
      if Resolve(key, envs[0]).List? {
        RoundKeepsItems(body, Resolve(key, envs[0]).items, 0, deciders, envs, fmt);
      }
  }

  lemma {:induction false} RoundKeepsItems(body: Forest, items: seq<Value>, i: nat, deciders: seq<Data>,
                                           envs: seq<Data>, fmt: Format)
    requires envs != [] && deciders != [] && i <= |items|
    ensures MeaningOfItems(StripInnermost(body, deciders[0]), items, i, deciders[1..], envs, fmt)
         == MeaningOfItems(body, items, i, deciders, envs, fmt)
    decreases body, 1, |items| - i
  {
    if i < |items| {
      var d := ItemData(envs[0], items[i], i);
      var all := deciders + Copies(d, MAX_IF_ROUNDS);
      assert all[0] == deciders[0] && all[1..] == deciders[1..] + Copies(d, MAX_IF_ROUNDS);
      RoundKeepsMeaning(body, all, [d] + envs, fmt);
      RoundKeepsItems(body, items, i + 1, deciders, envs, fmt);
    }
  }

  lemma {:induction false} RoundsKeepMeaning(f: Forest, d: Data, n: nat, later: seq<Data>, envs: seq<Data>, fmt: Format)
    requires envs != []
    ensures Meaning(Rounds(f, d, n), later, envs, fmt) == Meaning(f, Copies(d, n) + later, envs, fmt)
    decreases n
  {
    var deciders := Copies(d, n) + later;
    if n == 0 {
      assert deciders == later;
    } else {
      assert deciders[0] == d && deciders[1..] == Copies(d, n - 1) + later;
      RoundsKeepMeaning(StripInnermost(f, d), d, n - 1, later, envs, fmt);
      RoundKeepsMeaning(f, deciders, envs, fmt);
    }
  }

  /** Expanding a template that has been through its rounds, and showing it, is its meaning with no round left
      on this level, if every item finishes its own blocks: nested expansion gives every item its own ten rounds
      and shows each slot by its innermost binding. */
  lemma {:induction false} ShowExpanded(f: Forest, envs: seq<Data>, fmt: Format)
    requires envs != [] && Contained(f, envs[0])
    ensures ShowAll(ExpandAll(f, envs[0], fmt), envs, fmt) == Meaning(f, [], envs, fmt)
    decreases Size(f), 0, 0
  {
    match f
    case Nil =>
    case TextThen(s, rest) => ShowExpanded(rest, envs, fmt);
    case SlotThen(key, rest) => ShowExpanded(rest, envs, fmt);
    case IfThen(key, body, rest) => ShowExpanded(body, envs, fmt); ShowExpanded(rest, envs, fmt);
    case EachThen(key, body, rest) =>
      ShowExpanded(rest, envs, fmt);
      var r := RenderEach(key, body, envs[0], fmt);
      if Resolve(key, envs[0]).List? {
        ContainedItemsAreFree(body, Resolve(key, envs[0]).items, 0, envs[0], fmt);
        ShowItems(body, Resolve(key, envs[0]).items, 0, envs, fmt);
      }
      NoBlockNoTurn(r, envs[0], fmt);
      ShowJoin(r, ExpandAll(rest, envs[0], fmt), envs, fmt);
  }

  lemma {:induction false} ShowItems(body: Forest, items: seq<Value>, i: nat, envs: seq<Data>, fmt: Format)
    requires envs != [] && i <= |items| && ContainedItems(body, items, i, envs[0])
    ensures ShowAll(RenderItems(body, items, i, envs[0], fmt), envs, fmt) ==
      MeaningOfItems(body, items, i, [], envs, fmt)
    decreases Size(body), 2, |items| - i
  {
    if i < |items| {
      var d := ItemData(envs[0], items[i], i);
      ShowItem(body, d, envs, fmt);
      assert [] + Copies(d, MAX_IF_ROUNDS) == Copies(d, MAX_IF_ROUNDS);
      ShowItems(body, items, i + 1, envs, fmt);
      ShowJoin(RenderItem(body, d, fmt), RenderItems(body, items, i + 1, envs[0], fmt), envs, fmt);
    }
  }

  lemma {:induction false} ShowItem(body: Forest, d: Data, envs: seq<Data>, fmt: Format)
    requires envs != []
    requires var b := Rounds(body, d, MAX_IF_ROUNDS); Outer(b) <= MAX_EACH_PER_LEVEL && Contained(b, d)
    ensures ShowAll(RenderItem(body, d, fmt), envs, fmt) == Meaning(body, Copies(d, MAX_IF_ROUNDS), [d] + envs, fmt)
    decreases Size(body), 1, 0
  {
    var b := Rounds(body, d, MAX_IF_ROUNDS);
    RoundsResult(body, d, MAX_IF_ROUNDS);
    ContainedItemIsFree(body, d, fmt);
    ShowExpanded(b, [d] + envs, fmt);
    ShowFilled(ExpandAll(b, d, fmt), d, envs, fmt);
    RoundsKeepMeaning(body, d, MAX_IF_ROUNDS, [], [d] + envs, fmt);
    assert Copies(d, MAX_IF_ROUNDS) + [] == Copies(d, MAX_IF_ROUNDS);
  }

  /** While ifs nest no deeper than the rounds against the top-level data, this is the plain evaluator. */
  lemma {:induction false} MeaningIsEvaluation(f: Forest, deciders: seq<Data>, top: Data, envs: seq<Data>, fmt: Format)
    requires envs != [] && IfHeight(f) <= |deciders| && forall h :: 0 <= h < IfHeight(f) ==> deciders[h] == top
    ensures Meaning(f, deciders, envs, fmt) == Evaluate(f, top, envs, fmt)
    decreases f, 0, 0
  {
    match f
    case Nil =>
    case TextThen(s, rest) => MeaningIsEvaluation(rest, deciders, top, envs, fmt);
    case SlotThen(key, rest) => MeaningIsEvaluation(rest, deciders, top, envs, fmt);
    case IfThen(key, body, rest) =>
      MeaningIsEvaluation(body, deciders, top, envs, fmt);
      MeaningIsEvaluation(rest, deciders, top, envs, fmt);
    case EachThen(key, body, rest) =>
      MeaningIsEvaluation(rest, deciders, top, envs, fmt);
      if Resolve(key, envs[0]).List? {
        ItemsMeanEvaluation(body, Resolve(key, envs[0]).items, 0, deciders, top, envs, fmt);
      }
  }

  lemma {:induction false} ItemsMeanEvaluation(body: Forest, items: seq<Value>, i: nat, deciders: seq<Data>, top: Data,
                                               envs: seq<Data>, fmt: Format)
    requires envs != [] && i <= |items|
    requires IfHeight(body) <= |deciders| && forall h :: 0 <= h < IfHeight(body) ==> deciders[h] == top
    ensures MeaningOfItems(body, items, i, deciders, envs, fmt) == EvaluateItems(body, items, i, top, envs, fmt)
    decreases body, 1, |items| - i
  {
    if i < |items| {
      var d := ItemData(envs[0], items[i], i);
      MeaningIsEvaluation(body, deciders + Copies(d, MAX_IF_ROUNDS), top, [d] + envs, fmt);
      ItemsMeanEvaluation(body, items, i + 1, deciders, top, envs, fmt);
    }
  }

  // ---- Which ifs outlast their rounds ----

  /** Every if is reached by one of the rounds it goes through: n on this level, ten more in each body. */
  predicate Settles(f: Forest, n: nat)
  {
    match f
    case Nil => true
    case TextThen(_, rest) => Settles(rest, n)
    case SlotThen(_, rest) => Settles(rest, n)
    case IfThen(_, body, rest) => IfHeight(body) < n && Settles(body, n) && Settles(rest, n)
    case EachThen(_, body, rest) => Settles(body, n + MAX_IF_ROUNDS) && Settles(rest, n)
  }

  /** The same for the ifs inside each bodies only. */
  predicate BodiesSettle(f: Forest, n: nat)
  {
    match f
    case Nil => true
    case TextThen(_, rest) => BodiesSettle(rest, n)
    case SlotThen(_, rest) => BodiesSettle(rest, n)
    case IfThen(_, body, rest) => BodiesSettle(body, n) && BodiesSettle(rest, n)
    case EachThen(_, body, rest) => Settles(body, n + MAX_IF_ROUNDS) && BodiesSettle(rest, n)
  }

  /** Nesting depth of the ifs outside every each block, counting all they hold. */
  function OutsideHeight(f: Forest): nat
  {
    match f
    case Nil => 0
    case TextThen(_, rest) => OutsideHeight(rest)
    case SlotThen(_, rest) => OutsideHeight(rest)
    case IfThen(_, body, rest) => Max(1 + IfHeight(body), OutsideHeight(rest))
    case EachThen(_, _, rest) => OutsideHeight(rest)
  }

  lemma {:induction false} OutsideWithinHeight(f: Forest)
    ensures OutsideHeight(f) <= IfHeight(f)
  {
    match f
    case Nil =>
    case TextThen(_, rest) => OutsideWithinHeight(rest);
    case SlotThen(_, rest) => OutsideWithinHeight(rest);
    case IfThen(_, _, rest) => OutsideWithinHeight(rest);
    case EachThen(_, _, rest) => OutsideWithinHeight(rest);
  }

  /** The two ways to outlast the rounds: outside the each blocks, or inside a body. */
  lemma {:induction false} SettlesExactly(f: Forest, n: nat)
    ensures Settles(f, n) <==> OutsideHeight(f) <= n && BodiesSettle(f, n)
  {
    match f
    case Nil =>
    case TextThen(_, rest) => SettlesExactly(rest, n);
    case SlotThen(_, rest) => SettlesExactly(rest, n);
    case IfThen(_, body, rest) => SettlesExactly(body, n); SettlesExactly(rest, n); OutsideWithinHeight(body);
    case EachThen(_, _, rest) => SettlesExactly(rest, n);
  }

  lemma {:induction false} ShallowSettles(f: Forest, n: nat)
    requires IfHeight(f) <= n
    ensures Settles(f, n)
  {
    match f
    case Nil =>
    case TextThen(_, rest) => ShallowSettles(rest, n);
    case SlotThen(_, rest) => ShallowSettles(rest, n);
    case IfThen(_, body, rest) => ShallowSettles(body, n); ShallowSettles(rest, n);
    case EachThen(_, body, rest) => ShallowSettles(body, n + MAX_IF_ROUNDS); ShallowSettles(rest, n);
  }

  lemma {:induction false} SettlesJoin(f: Forest, g: Forest, n: nat)
    ensures Settles(Join(f, g), n) <==> Settles(f, n) && Settles(g, n)
  {
    match f
    case Nil =>
    case TextThen(_, rest) => SettlesJoin(rest, g, n);
    case SlotThen(_, rest) => SettlesJoin(rest, g, n);
    case IfThen(_, _, rest) => SettlesJoin(rest, g, n);
    case EachThen(_, _, rest) => SettlesJoin(rest, g, n);
  }

  lemma {:induction false} RoundSettles(f: Forest, data: Data, n: nat)
    requires n > 0 && Settles(f, n)
    ensures Settles(StripInnermost(f, data), n - 1)
  {
    match f
    case Nil =>
    case TextThen(_, rest) => RoundSettles(rest, data, n);
    case SlotThen(_, rest) => RoundSettles(rest, data, n);
    case IfThen(_, body, rest) =>
      RoundSettles(rest, data, n);
      RoundSettles(body, data, n);
      RoundProgress(body, data);
      if IfFree(body) {
        StripFree(body, data);
        SettlesJoin(body, StripInnermost(rest, data), n - 1);
      }
    case EachThen(_, body, rest) => RoundSettles(body, data, n + MAX_IF_ROUNDS); RoundSettles(rest, data, n);
  }

  lemma {:induction false} RoundsSettle(f: Forest, data: Data, n: nat)
    requires Settles(f, n)
    ensures Settles(Rounds(f, data, n), 0)
    decreases n
  {
    if n > 0 {
      RoundSettles(f, data, n);
      RoundsSettle(StripInnermost(f, data), data, n - 1);
    }
  }

  lemma {:induction false} FillSettles(f: Forest, data: Data, fmt: Format, n: nat)
    requires Settles(f, n)
    ensures Settles(FillSlots(f, data, fmt), n)
  {
    match f
    case Nil =>
    case TextThen(_, rest) => FillSettles(rest, data, fmt, n);
    case SlotThen(_, rest) => FillSettles(rest, data, fmt, n);
    case IfThen(_, body, rest) => FillSettles(body, data, fmt, n); FillSettles(rest, data, fmt,
                                                                               n); FillMeasures(body, data, fmt);
    case EachThen(_, body, rest) => FillSettles(body, data, fmt, n + MAX_IF_ROUNDS); FillSettles(rest, data, fmt, n);
  }

  /** Where every if has been reached, expanding a block brings none back, whatever its items leave over. */
  lemma {:induction false} ExpandFirstSettles(f: Forest, data: Data, fmt: Format)
    requires Settles(f, 0)
    ensures Settles(ExpandFirst(f, data, fmt), 0)
    decreases LargestBody(f), 2, f
  {
    match f
    case Nil =>
    case TextThen(_, rest) => ExpandFirstSettles(rest, data, fmt);
    case SlotThen(_, rest) => ExpandFirstSettles(rest, data, fmt);
    case EachThen(key, body, rest) =>
      if Resolve(key, data).List? {
        ItemsSettle(body, Resolve(key, data).items, 0, data, fmt);
      }
      SettlesJoin(RenderEach(key, body, data, fmt), rest, 0);
  }

  lemma {:induction false} ItemsSettle(body: Forest, items: seq<Value>, i: nat, data: Data, fmt: Format)
    requires i <= |items| && Settles(body, MAX_IF_ROUNDS)
    ensures Settles(RenderItems(body, items, i, data, fmt), 0)
    decreases Size(body), 4, |items| - i
  {
    if i < |items| {
      var d := ItemData(data, items[i], i);
      var b := Rounds(body, d, MAX_IF_ROUNDS);
      ItemMeasures(body, d);
      RoundsSettle(body, d, MAX_IF_ROUNDS);
      ExpandTimesSettles(b, d, fmt, MAX_EACH_PER_LEVEL);
      FillSettles(ExpandTimes(b, d, fmt, MAX_EACH_PER_LEVEL), d, fmt, 0);
      ItemsSettle(body, items, i + 1, data, fmt);
      SettlesJoin(RenderItem(body, d, fmt), RenderItems(body, items, i + 1, data, fmt), 0);
    }
  }

  lemma {:induction false} ExpandTimesSettles(f: Forest, data: Data, fmt: Format, n: nat)
    requires Settles(f, 0)
    ensures Settles(ExpandTimes(f, data, fmt, n), 0)
    decreases LargestBody(f), 3, n
  {
    if n > 0 && !EachFree(f) {
      ExpandFirstSettles(f, data, fmt);
      ExpandTimesSettles(ExpandFirst(f, data, fmt), data, fmt, n - 1);
    }
  }

  lemma {:induction false} SettledAndFree(f: Forest)
    requires Settles(f, 0) && EachFree(f)
    ensures forall t :: t in Print(f) ==> t.Text? || t.Slot?
  {
    match f
    case Nil =>
    case TextThen(_, rest) => SettledAndFree(rest);
    case SlotThen(_, rest) => SettledAndFree(rest);
  }

  lemma {:induction false} OutsideJoin(f: Forest, g: Forest)
    ensures OutsideHeight(Join(f, g)) == Max(OutsideHeight(f), OutsideHeight(g))
  {
    match f
    case Nil =>
    case TextThen(_, rest) => OutsideJoin(rest, g);
    case SlotThen(_, rest) => OutsideJoin(rest, g);
    case IfThen(_, _, rest) => OutsideJoin(rest, g);
    case EachThen(_, _, rest) => OutsideJoin(rest, g);
  }

  lemma {:induction false} RoundOutside(f: Forest, data: Data)
    ensures OutsideHeight(StripInnermost(f, data)) == if OutsideHeight(f) == 0 then 0 else OutsideHeight(f) - 1
  {
    match f
    case Nil =>
    case TextThen(_, rest) => RoundOutside(rest, data);
    case SlotThen(_, rest) => RoundOutside(rest, data);
    case IfThen(_, body, rest) =>
      RoundOutside(rest, data);
      RoundProgress(body, data);
      if IfFree(body) {
        OutsideWithinHeight(body);
        OutsideJoin(body, StripInnermost(rest, data));
      }
    case EachThen(_, _, rest) => RoundOutside(rest, data);
  }

  /** Of the ifs outside the each blocks, n rounds leave exactly those that nest deeper than n. */
  lemma {:induction false} RoundsOutside(f: Forest, data: Data, n: nat)
    ensures OutsideHeight(Rounds(f, data, n)) == if OutsideHeight(f) <= n then 0 else OutsideHeight(f) - n
    decreases n
  {
    if n > 0 {
      RoundOutside(f, data);
      RoundsOutside(StripInnermost(f, data), data, n - 1);
    }
  }

  lemma {:induction false} ExpandFirstKeepsOutside(f: Forest, data: Data, fmt: Format)
    requires OutsideHeight(f) > 0
    ensures OutsideHeight(ExpandFirst(f, data, fmt)) > 0
  {
    match f
    case TextThen(_, rest) => ExpandFirstKeepsOutside(rest, data, fmt);
    case SlotThen(_, rest) => ExpandFirstKeepsOutside(rest, data, fmt);
    case IfThen(_, _, _) =>
    case EachThen(key, body, rest) => OutsideJoin(RenderEach(key, body, data, fmt), rest);
  }

  lemma {:induction false} ExpandTimesKeepsOutside(f: Forest, data: Data, fmt: Format, n: nat)
    requires OutsideHeight(f) > 0
    ensures OutsideHeight(ExpandTimes(f, data, fmt, n)) > 0
    decreases n
  {
    if n > 0 && !EachFree(f) {
      ExpandFirstKeepsOutside(f, data, fmt);
      ExpandTimesKeepsOutside(ExpandFirst(f, data, fmt), data, fmt, n - 1);
    }
  }

  lemma {:induction false} OutsideShows(f: Forest) returns (i: nat)
    requires OutsideHeight(f) > 0
    ensures i < |Print(f)| && Print(f)[i].IfOpen?
  {
    match f
    case TextThen(_, rest) => var j := OutsideShows(rest); i := 1 + j;
    case SlotThen(_, rest) => var j := OutsideShows(rest); i := 1 + j;
    case IfThen(_, _, _) => i := 0;
    case EachThen(_, body, rest) => var j := OutsideShows(rest); i := 1 + |Print(body)| + 1 + j;
  }

  lemma {:induction false} EvaluateJoin(f: Forest, g: Forest, top: Data, envs: seq<Data>, fmt: Format)
    requires envs != []
    ensures Evaluate(Join(f, g), top, envs, fmt) == Evaluate(f, top, envs, fmt) + Evaluate(g, top, envs, fmt)
  {
    match f
    case Nil =>
    case TextThen(s, rest) =>
      EvaluateJoin(rest, g, top, envs, fmt);
      Regroup3([Text(s)], Evaluate(rest, top, envs, fmt), Evaluate(g, top, envs, fmt));
    case SlotThen(key, rest) =>
      EvaluateJoin(rest, g, top, envs, fmt);
      Regroup3([Text(Show(key, envs, fmt))], Evaluate(rest, top, envs, fmt), Evaluate(g, top, envs, fmt));
    case IfThen(key, body, rest) =>
      EvaluateJoin(rest, g, top, envs, fmt);
      assert Join(f, g) == IfThen(key, body, Join(rest, g));
      EvaluateIf(key, body, rest, top, envs, fmt);
      EvaluateIf(key, body, Join(rest, g), top, envs, fmt);
      Regroup3(EvaluateIfPart(key, body, top, envs, fmt), Evaluate(rest, top, envs, fmt), Evaluate(g, top, envs, fmt));
    case EachThen(key, body, rest) =>
      EvaluateJoin(rest, g, top, envs, fmt);
      assert Join(f, g) == EachThen(key, body, Join(rest, g));
      EvaluateEach(key, body, rest, top, envs, fmt);
      EvaluateEach(key, body, Join(rest, g), top, envs, fmt);
      Regroup3(EvaluateEachPart(key, body, top, envs, fmt), Evaluate(rest, top, envs, fmt), Evaluate(g, top, envs,
                                                                                                     fmt));
  }

  ghost function EvaluateIfPart(key: Key, body: Forest, top: Data, envs: seq<Data>, fmt: Format): seq<Token>
    requires envs != []
  {
    if Truthy(Resolve(key, top)) then Evaluate(body, top, envs, fmt) else []
  }

  ghost function EvaluateEachPart(key: Key, body: Forest, top: Data, envs: seq<Data>, fmt: Format): seq<Token>
    requires envs != []
  {
    if Resolve(key, envs[0]).List? then EvaluateItems(body, Resolve(key, envs[0]).items, 0, top, envs, fmt) else []
  }

  lemma EvaluateIf(key: Key, body: Forest, rest: Forest, top: Data, envs: seq<Data>, fmt: Format)
    requires envs != []
    ensures Evaluate(IfThen(key, body, rest), top, envs, fmt)
         == EvaluateIfPart(key, body, top, envs, fmt) + Evaluate(rest, top, envs, fmt)
  {}

  lemma EvaluateEach(key: Key, body: Forest, rest: Forest, top: Data, envs: seq<Data>, fmt: Format)
    requires envs != []
    ensures Evaluate(EachThen(key, body, rest), top, envs, fmt)
         == EvaluateEachPart(key, body, top, envs, fmt) + Evaluate(rest, top, envs, fmt)
  {}

  /** Deciding the ifs first against the top-level data does not change the meaning. */
  lemma {:induction false} EvaluateDecided(f: Forest, top: Data, envs: seq<Data>, fmt: Format)
    requires envs != []
    ensures Evaluate(DecideIfs(f, top), top, envs, fmt) == Evaluate(f, top, envs, fmt)
    decreases f, 0, 0
  {
    match f
    case Nil =>
    case TextThen(s, rest) => EvaluateDecided(rest, top, envs, fmt);
    case SlotThen(key, rest) => EvaluateDecided(rest, top, envs, fmt);
    case IfThen(key, body, rest) =>
      EvaluateDecided(rest, top, envs, fmt);
      EvaluateDecided(body, top, envs, fmt);
      EvaluateJoin(DecideIfs(body, top), DecideIfs(rest, top), top, envs, fmt);
    case EachThen(key, body, rest) =>
      EvaluateDecided(rest, top, envs, fmt);
      if Resolve(key, envs[0]).List? {
        EvaluateDecidedItems(body, Resolve(key, envs[0]).items, 0, top, envs, fmt);
      }
  }

  lemma {:induction false} EvaluateDecidedItems(body: Forest, items: seq<Value>, i: nat, top: Data, envs: seq<Data>,
                                                fmt: Format)
    requires envs != [] && i <= |items|
    ensures EvaluateItems(DecideIfs(body, top), items, i, top, envs, fmt) ==
      EvaluateItems(body, items, i, top, envs, fmt)
    decreases body, 1, |items| - i
  {
    if i < |items| {
      EvaluateDecided(body, top, [ItemData(envs[0], items[i], i)] + envs, fmt);
      EvaluateDecidedItems(body, items, i + 1, top, envs, fmt);
    }
  }

  /** A template without blocks is finished token by token. */
  lemma {:induction false} FinishIsShow(f: Forest, top: Data, fmt: Format)
    ensures FinishTokens(Print(f), top, fmt) == ShowAll(f, [top], fmt)
  {
    match f
    case Nil =>
    case TextThen(s, rest) => FinishIsShow(rest, top, fmt);
    case SlotThen(key, rest) => FinishIsShow(rest, top, fmt);
    case IfThen(key, body, rest) =>
      FinishIsShow(body, top, fmt);
      FinishIsShow(rest, top, fmt);
      FinishBlock(IfOpen(key), Print(body), IfClose, Print(rest), top, fmt);
    case EachThen(key, body, rest) =>
      FinishIsShow(body, top, fmt);
      FinishIsShow(rest, top, fmt);
      FinishBlock(EachOpen(key), Print(body), EachClose, Print(rest), top, fmt);
  }

  lemma FinishBlock(open: Token, body: seq<Token>, close: Token, rest: seq<Token>, top: Data, fmt: Format)
    requires !open.Slot? && !close.Slot?
    ensures FinishTokens([open] + body + [close] + rest, top, fmt) ==
            [open] + FinishTokens(body, top, fmt) + [close] + FinishTokens(rest, top, fmt)
  {}

  /** What _render_slots makes of a well-nested template. */
  function Rendered(f: Forest, data: Data, fmt: Format): seq<Token>
  {
    FinishTokens(Print(ExpandTimes(Rounds(f, data, MAX_IF_ROUNDS), data, fmt, MAX_EACH_PER_LEVEL)), data, fmt)
  }

  /** _render_slots, for every well-nested template. An each tag stays exactly if the template needs more than
      thirty turns after its ifs. If there are at most thirty outermost blocks and every item finishes its own,
      the result is the template's meaning. An if outside the each blocks keeps its tags if it nests deeper than
      ten; where every if is reached by its rounds, only too many turns leave a tag. */
  method RenderSlots(template: seq<Token>, data: Data, fmt: Format, ghost f: Forest) returns (r: seq<Token>)
    requires template == Print(f)
    ensures r == Rendered(f, data, fmt)
    ensures var g := Rounds(f, data, MAX_IF_ROUNDS);
      && ((exists t :: t in r && t.EachOpen?) <==> Turns(g, data, fmt) > MAX_EACH_PER_LEVEL)
      && (Contained(g, data) && Outer(g) <= MAX_EACH_PER_LEVEL ==>
        r == Meaning(f, Copies(data, MAX_IF_ROUNDS), [data], fmt))
      && (OutsideHeight(f) <= MAX_IF_ROUNDS && BodiesSettle(f, MAX_IF_ROUNDS) ==>
          ((forall t :: t in r ==> t.Text?) <==> Turns(g, data, fmt) <= MAX_EACH_PER_LEVEL))
      && (LevelsOk(f) ==> Contained(g, data) && Turns(g, data, fmt) == Outer(g) <= Outer(f))
    ensures OutsideHeight(f) > MAX_IF_ROUNDS ==> exists t :: t in r && t.IfOpen?
    ensures var g := DecideIfs(f, data);
      IfHeight(f) <= MAX_IF_ROUNDS && Contained(g, data) && Outer(g) <= MAX_EACH_PER_LEVEL ==>
        r == Evaluate(f, data, [data], fmt) && forall t :: t in r ==> t.Text?
  {
    RoundsResult(f, data, MAX_IF_ROUNDS);
    var decided := ProcessConditionals(template, data, f);
    var expanded := ProcessEachBlocks(decided, data, fmt, Rounds(f, data, MAX_IF_ROUNDS));
    r := FinishTokens(expanded, data, fmt);
    FinishKeepsTags(expanded, data, fmt);
    if Contained(Rounds(f, data, MAX_IF_ROUNDS), data) && Outer(Rounds(f, data, MAX_IF_ROUNDS)) <= MAX_EACH_PER_LEVEL {
      RenderedMeaning(f, data, fmt);
    }
    if OutsideHeight(f) > MAX_IF_ROUNDS {
      OutsideTagStays(f, data, fmt);
    } else if BodiesSettle(f, MAX_IF_ROUNDS) && Turns(Rounds(f, data, MAX_IF_ROUNDS), data, fmt) <= MAX_EACH_PER_LEVEL {
      SettledIsText(f, data, fmt);
    }
    if LevelsOk(f) {
      LevelsOkIsContained(Rounds(f, data, MAX_IF_ROUNDS), data);
      ContainedTurns(Rounds(f, data, MAX_IF_ROUNDS), data, fmt);
    }
    if IfHeight(f) <= MAX_IF_ROUNDS && Contained(DecideIfs(f, data), data)
      && Outer(DecideIfs(f, data)) <= MAX_EACH_PER_LEVEL {
      RenderedWithinLimits(f, data, fmt);
    }
  }

  lemma FinishKeepsTags(ts: seq<Token>, data: Data, fmt: Format)
    ensures (exists t :: t in FinishTokens(ts, data, fmt) && t.EachOpen?) <==> (exists t :: t in ts && t.EachOpen?)
    ensures (exists t :: t in FinishTokens(ts, data, fmt) && t.IfOpen?) <==> (exists t :: t in ts && t.IfOpen?)
  {
    var r := FinishTokens(ts, data, fmt);
    assert forall i :: 0 <= i < |ts| ==> (ts[i].Slot? || r[i] == ts[i]) && (ts[i].Slot? ==> r[i].Text?);
    if t :| t in ts && t.EachOpen? { var i :| 0 <= i < |ts| && ts[i] == t; assert r[i] == t; }
    if t :| t in ts && t.IfOpen? { var i :| 0 <= i < |ts| && ts[i] == t; assert r[i] == t; }
  }

  lemma RenderedMeaning(f: Forest, data: Data, fmt: Format)
    requires var g := Rounds(f, data, MAX_IF_ROUNDS); Contained(g, data) && Outer(g) <= MAX_EACH_PER_LEVEL
    ensures Rendered(f, data, fmt) == Meaning(f, Copies(data, MAX_IF_ROUNDS), [data], fmt)
  {
    var g := Rounds(f, data, MAX_IF_ROUNDS);
    ContainedTurns(g, data, fmt);
    ExpandTimesResult(g, data, fmt, MAX_EACH_PER_LEVEL);
    FinishIsShow(ExpandAll(g, data, fmt), data, fmt);
    ShowExpanded(g, [data], fmt);
    RoundsKeepMeaning(f, data, MAX_IF_ROUNDS, [], [data], fmt);
    assert Copies(data, MAX_IF_ROUNDS) + [] == Copies(data, MAX_IF_ROUNDS);
  }

  lemma SettledIsText(f: Forest, data: Data, fmt: Format)
    requires OutsideHeight(f) <= MAX_IF_ROUNDS && BodiesSettle(f, MAX_IF_ROUNDS)
    requires Turns(Rounds(f, data, MAX_IF_ROUNDS), data, fmt) <= MAX_EACH_PER_LEVEL
    ensures forall t :: t in Rendered(f, data, fmt) ==> t.Text?
  {
    var g := Rounds(f, data, MAX_IF_ROUNDS);
    SettlesExactly(f, MAX_IF_ROUNDS);
    RoundsSettle(f, data, MAX_IF_ROUNDS);
    ExpandTimesSettles(g, data, fmt, MAX_EACH_PER_LEVEL);
    ExpandTimesResult(g, data, fmt, MAX_EACH_PER_LEVEL);
    SettledAndFree(ExpandTimes(g, data, fmt, MAX_EACH_PER_LEVEL));
  }

  lemma OutsideTagStays(f: Forest, data: Data, fmt: Format)
    requires OutsideHeight(f) > MAX_IF_ROUNDS
    ensures var e := ExpandTimes(Rounds(f, data, MAX_IF_ROUNDS), data, fmt, MAX_EACH_PER_LEVEL);
      exists t :: t in Print(e) && t.IfOpen?
  {
    RoundsOutside(f, data, MAX_IF_ROUNDS);
    var g := Rounds(f, data, MAX_IF_ROUNDS);
    ExpandTimesKeepsOutside(g, data, fmt, MAX_EACH_PER_LEVEL);
    var i := OutsideShows(ExpandTimes(g, data, fmt, MAX_EACH_PER_LEVEL));
  }

  /** Within all limits rendering is the plain evaluator, and no tag is left. */
  lemma RenderedWithinLimits(f: Forest, data: Data, fmt: Format)
    requires IfHeight(f) <= MAX_IF_ROUNDS
    requires Contained(DecideIfs(f, data), data) && Outer(DecideIfs(f, data)) <= MAX_EACH_PER_LEVEL
    ensures Rendered(f, data, fmt) == Evaluate(f, data, [data], fmt)
    ensures forall t :: t in Rendered(f, data, fmt) ==> t.Text?
  {
    RoundsResult(f, data, MAX_IF_ROUNDS);
    RenderedMeaning(f, data, fmt);
    MeaningIsEvaluation(f, Copies(data, MAX_IF_ROUNDS), data, [data], fmt);
    ShallowSettles(f, MAX_IF_ROUNDS);
    SettlesExactly(f, MAX_IF_ROUNDS);
    ContainedTurns(DecideIfs(f, data), data, fmt);
    SettledIsText(f, data, fmt);
  }
}
