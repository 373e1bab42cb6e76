/** How many turns of the expansion loop a template needs, and when every item finishes its own
    (engine/composition/renderer.py, _process_each_blocks). */
module EachTurns {
  import opened TemplateData
  import opened Conditionals
  import opened EachBlocks

  /** The turns until no each block is left: one for every outermost block, and then those of what its
      rendered items leave over. */
  function Turns(f: Forest, data: Data, fmt: Format): nat
    decreases LargestBody(f), f
  {
    match f
    case Nil => 0
    case TextThen(_, rest) => Turns(rest, data, fmt)
    case SlotThen(_, rest) => Turns(rest, data, fmt)
    case IfThen(_, body, rest) => Turns(body, data, fmt) + Turns(rest, data, fmt)
    case EachThen(key, body, rest) => 1 + Turns(RenderEach(key, body, data, fmt), data, fmt) + Turns(rest, data, fmt)
  }

  /** What is left after that many turns. */
  function ExpandAll(f: Forest, data: Data, fmt: Format): Forest
    decreases LargestBody(f), f
  {
    match f
    case Nil => Nil
    case TextThen(s, rest) => TextThen(s, ExpandAll(rest, data, fmt))
    case SlotThen(key, rest) => SlotThen(key, ExpandAll(rest, data, fmt))
    case IfThen(key, body, rest) => IfThen(key, ExpandAll(body, data, fmt), ExpandAll(rest, data, fmt))
    case EachThen(key, body, rest) =>
      Join(ExpandAll(RenderEach(key, body, data, fmt), data, fmt), ExpandAll(rest, data, fmt))
  }

  lemma {:induction false} TurnsJoin(f: Forest, g: Forest, data: Data, fmt: Format)
    ensures Turns(Join(f, g), data, fmt) == Turns(f, data, fmt) + Turns(g, data, fmt)
  {
    match f
    case Nil =>
    case TextThen(_, rest) => TurnsJoin(rest, g, data, fmt);
    case SlotThen(_, rest) => TurnsJoin(rest, g, data, fmt);
    case IfThen(_, _, rest) => TurnsJoin(rest, g, data, fmt);
    case EachThen(_, _, rest) => TurnsJoin(rest, g, data, fmt);
  }

  lemma {:induction false} ExpandJoin(f: Forest, g: Forest, data: Data, fmt: Format)
    ensures ExpandAll(Join(f, g), data, fmt) == Join(ExpandAll(f, data, fmt), ExpandAll(g, data, fmt))
  {
    match f
    case Nil =>
    case TextThen(_, rest) => ExpandJoin(rest, g, data, fmt);
    case SlotThen(_, rest) => ExpandJoin(rest, g, data, fmt);
    case IfThen(_, _, rest) => ExpandJoin(rest, g, data, fmt);
    case EachThen(key, body, rest) =>
      ExpandJoin(rest, g, data, fmt);
      JoinAssociative(ExpandAll(RenderEach(key, body, data, fmt), data, fmt),
                      ExpandAll(rest, data, fmt), ExpandAll(g, data, fmt));
  }

  lemma {:induction false} NoBlockNoTurn(f: Forest, data: Data, fmt: Format)
    ensures Outer(f) <= Turns(f, data, fmt)
    ensures EachFree(f) ==> Turns(f, data, fmt) == 0 && ExpandAll(f, data, fmt) == f
  {
    match f
    case Nil =>
    case TextThen(_, rest) => NoBlockNoTurn(rest, data, fmt);
    case SlotThen(_, rest) => NoBlockNoTurn(rest, data, fmt);
    case IfThen(_, body, rest) => NoBlockNoTurn(body, data, fmt); NoBlockNoTurn(rest, data, fmt);
    case EachThen(_, _, rest) => NoBlockNoTurn(rest, data, fmt);
  }

  /** Expanding the first block is one turn less and has the same end. */
  lemma {:induction false} ExpandFirstProgress(f: Forest, data: Data, fmt: Format)
    requires Outer(f) > 0
    ensures var g := ExpandFirst(f, data, fmt);
      Turns(g, data, fmt) == Turns(f, data, fmt) - 1 && ExpandAll(g, data, fmt) == ExpandAll(f, data, fmt)
  {
    match f
    case TextThen(_, rest) => ExpandFirstProgress(rest, data, fmt);
    case SlotThen(_, rest) => ExpandFirstProgress(rest, data, fmt);
    case IfThen(_, body, rest) =>
      if Outer(body) > 0 { ExpandFirstProgress(body, data, fmt); } else { ExpandFirstProgress(rest, data, fmt); }
    case EachThen(key, body, rest) =>
      TurnsJoin(RenderEach(key, body, data, fmt), rest, data, fmt);
      ExpandJoin(RenderEach(key, body, data, fmt), rest, data, fmt);
  }

  /** n turns leave all but n of the turns; enough of them leave the full expansion, without each blocks. */
  lemma {:induction false} ExpandTimesResult(f: Forest, data: Data, fmt: Format, n: nat)
    ensures var g := ExpandTimes(f, data, fmt, n);
      && Turns(g, data, fmt) == (if Turns(f, data, fmt) <= n then 0 else Turns(f, data, fmt) - n)
      && (EachFree(g) <==> Turns(f, data, fmt) <= n)
      && (Turns(f, data, fmt) <= n ==> g == ExpandAll(f, data, fmt))
    decreases n
  {
    NoBlockNoTurn(f, data, fmt);
    if n > 0 && !EachFree(f) {
      ExpandFirstProgress(f, data, fmt);
      ExpandTimesResult(ExpandFirst(f, data, fmt), data, fmt, n - 1);
    } else if !EachFree(f) {
      assert Turns(f, data, fmt) > 0;
    }
  }

  // ---- Items that finish their own blocks ----

  /** The body of every item reached holds at most thirty blocks once its ifs have been through their rounds. */
  predicate Contained(f: Forest, data: Data)
    decreases Size(f), 0, 0
  {
    match f
    case Nil => true
    case TextThen(_, rest) => Contained(rest, data)
    case SlotThen(_, rest) => Contained(rest, data)
    case IfThen(_, body, rest) => Contained(body, data) && Contained(rest, data)
    case EachThen(key, body, rest) =>
      var v := Resolve(key, data);
      (v.List? ==> ContainedItems(body, v.items, 0, data)) && Contained(rest, data)
  }

  predicate ContainedItems(body: Forest, items: seq<Value>, i: nat, data: Data)
    requires i <= |items|
    decreases Size(body), 1, |items| - i
  {
    i == |items| ||
    (var d := ItemData(data, items[i], i);
     var b := Rounds(body, d, MAX_IF_ROUNDS);
     RoundsResult(body, d, MAX_IF_ROUNDS);
     Outer(b) <= MAX_EACH_PER_LEVEL && Contained(b, d) && ContainedItems(body, items, i + 1, data))
  }

  /** Then every item finishes its own blocks, and a template needs one turn for each outermost block. */
  lemma {:induction false} ContainedTurns(f: Forest, data: Data, fmt: Format)
    requires Contained(f, data)
    ensures Turns(f, data, fmt) == Outer(f)
    decreases Size(f), 0, 0
  {
    match f
    case Nil =>
    case TextThen(_, rest) => ContainedTurns(rest, data, fmt);
    case SlotThen(_, rest) => ContainedTurns(rest, data, fmt);
    case IfThen(_, body, rest) => ContainedTurns(body, data, fmt); ContainedTurns(rest, data, fmt);
    case EachThen(key, body, rest) =>
      ContainedTurns(rest, data, fmt);
      if Resolve(key, data).List? {
        ContainedItemsAreFree(body, Resolve(key, data).items, 0, data, fmt);
      }
      NoBlockNoTurn(RenderEach(key, body, data, fmt), data, fmt);
  }

  lemma {:induction false} ContainedItemsAreFree(body: Forest, items: seq<Value>, i: nat, data: Data, fmt: Format)
    requires i <= |items| && ContainedItems(body, items, i, data)
    ensures EachFree(RenderItems(body, items, i, data, fmt))
    decreases Size(body), 2, |items| - i
  {
    if i < |items| {
      var d := ItemData(data, items[i], i);
      ContainedItemIsFree(body, d, fmt);
      ContainedItemsAreFree(body, items, i + 1, data, fmt);
      JoinMeasures(RenderItem(body, d, fmt), RenderItems(body, items, i + 1, data, fmt));
    }
  }

  lemma {:induction false} ContainedItemIsFree(body: Forest, d: Data, fmt: Format)
    requires var b := Rounds(body, d, MAX_IF_ROUNDS); Outer(b) <= MAX_EACH_PER_LEVEL && Contained(b, d)
    ensures EachFree(RenderItem(body, d, fmt))
    ensures RenderItem(body, d, fmt) == FillSlots(ExpandAll(Rounds(body, d, MAX_IF_ROUNDS), d, fmt), d, fmt)
    decreases Size(body), 1, 0
  {
    var b := Rounds(body, d, MAX_IF_ROUNDS);
    RoundsResult(body, d, MAX_IF_ROUNDS);
    ContainedTurns(b, d, fmt);
    ExpandTimesResult(b, d, fmt, MAX_EACH_PER_LEVEL);
    FillMeasures(ExpandAll(b, d, fmt), d, fmt);
  }

  /** Whatever the data, that holds for templates in which no each body has more than thirty blocks. */
  lemma {:induction false} LevelsOkIsContained(f: Forest, data: Data)
    requires LevelsOk(f)
    ensures Contained(f, data)
    decreases Size(f), 0, 0
  {
    match f
    case Nil =>
    case TextThen(_, rest) => LevelsOkIsContained(rest, data);
    case SlotThen(_, rest) => LevelsOkIsContained(rest, data);
    case IfThen(_, body, rest) => LevelsOkIsContained(body, data); LevelsOkIsContained(rest, data);
    case EachThen(key, body, rest) =>
      LevelsOkIsContained(rest, data);
      if Resolve(key, data).List? {
        LevelsOkItems(body, Resolve(key, data).items, 0, data);
      }
  }

  lemma {:induction false} LevelsOkItems(body: Forest, items: seq<Value>, i: nat, data: Data)
    requires i <= |items| && Outer(body) <= MAX_EACH_PER_LEVEL && LevelsOk(body)
    ensures ContainedItems(body, items, i, data)
    decreases Size(body), 1, |items| - i
  {
    if i < |items| {
      var d := ItemData(data, items[i], i);
      RoundsResult(body, d, MAX_IF_ROUNDS);
      LevelsOkIsContained(Rounds(body, d, MAX_IF_ROUNDS), d);
      LevelsOkItems(body, items, i + 1, data);
    }
  }
}
