/** Concrete templates for which rendering is not what the evaluator shows (engine/composition/renderer.py). */
module TemplateExamples {
  import opened Options
  import opened TemplateData
  import opened Conditionals
  import opened EachBlocks
  import opened EachTurns
  import opened TemplateEngine

  // ---- Beyond ten: an if that reads the item ----

  function Nested(key: Key, n: nat, inner: Forest): Forest
  {
    if n == 0 then inner else IfThen(key, Nested(key, n - 1, inner), Nil)
  }

  lemma {:induction false} NestedMeasures(key: Key, n: nat, inner: Forest)
    ensures IfHeight(Nested(key, n, inner)) == n + IfHeight(inner) && Outer(Nested(key, n, inner)) == Outer(inner)
    ensures LevelsOk(Nested(key, n, inner)) <==> LevelsOk(inner)
    decreases n
  {
    if n > 0 { NestedMeasures(key, n - 1, inner); }
  }

  lemma {:induction false} NestedEvaluation(key: Key, n: nat, inner: Forest, top: Data, envs: seq<Data>, fmt: Format)
    requires envs != [] && Truthy(Resolve(key, top))
    ensures Evaluate(Nested(key, n, inner), top, envs, fmt) == Evaluate(inner, top, envs, fmt)
    decreases n
  {
    if n > 0 { NestedEvaluation(key, n - 1, inner, top, envs, fmt); }
  }

  const LIST_KEY: Key := [Part("k", Option.None)]
  const IF_KEY: Key := [Part("a", Option.None)]
  const ITEM := Dict(map["a" := Bool(false)])
  const TOP: Data := map["k" := List([ITEM]), "a" := Bool(true)]

  /** An each block over the one item, around n nested ifs. */
  function DeepTemplate(n: nat): Forest
  {
    EachThen(LIST_KEY, Nested(IF_KEY, n, TextThen("x", Nil)), Nil)
  }

  lemma ExampleLookups()
    ensures Resolve(LIST_KEY, TOP) == List([ITEM]) && Resolve(IF_KEY, TOP) == Bool(true)
    ensures Resolve(IF_KEY, ItemData(TOP, ITEM, 0)) == Bool(false)
  {
    var d := ItemData(TOP, ITEM, 0);
    assert "a" in d && d["a"] == Bool(false);
  }

  lemma OneItem(key: Key, body: Forest, item: Value, top: Data, fmt: Format)
    requires Resolve(key, top) == List([item])
    ensures var f, d := EachThen(key, body, Nil), ItemData(top, item, 0);
      && Meaning(f, Copies(top, MAX_IF_ROUNDS), [top], fmt)
         == Meaning(body, Copies(top, MAX_IF_ROUNDS) + Copies(d, MAX_IF_ROUNDS), [d] + [top], fmt)
      && Evaluate(f, top, [top], fmt) == Evaluate(body, top, [d] + [top], fmt)
  {
    assert MeaningOfItems(body, [item], 1, Copies(top, MAX_IF_ROUNDS), [top], fmt) == [];
    assert EvaluateItems(body, [item], 1, top, [top], fmt) == [];
  }

  lemma DecidedByItem(key: Key, n: nat, inner: Forest, top: Data, d: Data, fmt: Format)
    requires MAX_IF_ROUNDS < n <= 2 * MAX_IF_ROUNDS && IfHeight(inner) == 0 && !Truthy(Resolve(key, d))
    ensures Meaning(Nested(key, n, inner), Copies(top, MAX_IF_ROUNDS) + Copies(d, MAX_IF_ROUNDS), [d] + [top], fmt)
         == []
  {
    NestedMeasures(key, n - 1, inner);
    assert (Copies(top, MAX_IF_ROUNDS) + Copies(d, MAX_IF_ROUNDS))[n - 1] == d;
  }

  /** Eleven to twenty ifs inside an each body: the outer ones are left over by the rounds against the top-level
      data and then decided against the item. No tag stays, but the text the top-level data asks for is lost. */
  lemma DeepIfReadsTheItem(n: nat, fmt: Format)
    requires 10 < n <= 20
    ensures var f := DeepTemplate(n);
      && IfHeight(f) == n && OutsideHeight(f) == 0 && Outer(f) == 1 && LevelsOk(f)
      && Rendered(f, TOP, fmt) == []
      && Evaluate(f, TOP, [TOP], fmt) == [Text("x")]
  {
    var inner, d := TextThen("x", Nil), ItemData(TOP, ITEM, 0);
    var body := Nested(IF_KEY, n, inner);
    ExampleLookups();
    NestedMeasures(IF_KEY, n, inner);
    OneItem(LIST_KEY, body, ITEM, TOP, fmt);
    DecidedByItem(IF_KEY, n, inner, TOP, d, fmt);
    RoundsResult(DeepTemplate(n), TOP, MAX_IF_ROUNDS);
    LevelsOkIsContained(Rounds(DeepTemplate(n), TOP, MAX_IF_ROUNDS), TOP);
    RenderedMeaning(DeepTemplate(n), TOP, fmt);
    NestedEvaluation(IF_KEY, n, inner, TOP, [d] + [TOP], fmt);
    assert Evaluate(inner, TOP, [d] + [TOP], fmt) == [Text("x")] + Evaluate(Nil, TOP, [d] + [TOP], fmt);
  }

  // ---- Beyond thirty: blocks that an item leaves over ----

  /** n texts in front of f. */
  function Texts(n: nat, f: Forest): Forest
  {
    if n == 0 then f else TextThen("x", Texts(n - 1, f))
  }

  /** n each blocks over m around one text. */
  function Blocks(n: nat): Forest
  {
    if n == 0 then Nil else EachThen(INNER_KEY, Texts(1, Nil), Blocks(n - 1))
  }

  const INNER_KEY: Key := [Part("m", Option.None)]
  const CROWDED_ITEM := Dict(map["m" := List([Null])])

  /** One item, whose m is a list of one; the m of the top-level data is a list of w. */
  function CrowdedTop(w: nat): Data
  {
    map["k" := List([CROWDED_ITEM]), "m" := List(seq(w, _ => Null))]
  }

  function CrowdedTemplate(n: nat): Forest
  {
    EachThen(LIST_KEY, Blocks(n), Nil)
  }

  lemma CrowdedLookups(w: nat)
    ensures Resolve(LIST_KEY, CrowdedTop(w)) == List([CROWDED_ITEM])
    ensures Resolve(INNER_KEY, CrowdedTop(w)) == List(seq(w, _ => Null))
    ensures Resolve(INNER_KEY, ItemData(CrowdedTop(w), CROWDED_ITEM, 0)) == List([Null])
  {
    var d := ItemData(CrowdedTop(w), CROWDED_ITEM, 0);
    assert "m" in d && d["m"] == List([Null]);
  }

  lemma {:induction false} TextsAdd(a: nat, b: nat, f: Forest)
    ensures Texts(a, Texts(b, f)) == Texts(a + b, f) && Join(Texts(a, Nil), f) == Texts(a, f)
  {
    if a > 0 { TextsAdd(a - 1, b, f); }
  }

  lemma {:induction false} TextsMeasures(n: nat, f: Forest)
    ensures IfHeight(Texts(n, f)) == IfHeight(f) && Outer(Texts(n, f)) == Outer(f)
  {
    if n > 0 { TextsMeasures(n - 1, f); }
  }

  lemma {:induction false} BlocksMeasures(n: nat)
    ensures IfHeight(Blocks(n)) == 0 && Outer(Blocks(n)) == n
  {
    TextsMeasures(1, Nil);
    if n > 0 { BlocksMeasures(n - 1); }
  }

  lemma {:induction false} FillTexts(n: nat, f: Forest, d: Data, fmt: Format)
    ensures FillSlots(Texts(n, f), d, fmt) == Texts(n, FillSlots(f, d, fmt))
  {
    if n > 0 { FillTexts(n - 1, f, d, fmt); }
  }

  lemma {:induction false} FillBlocks(n: nat, d: Data, fmt: Format)
    ensures FillSlots(Blocks(n), d, fmt) == Blocks(n)
  {
    FillTexts(1, Nil, d, fmt);
    if n > 0 { FillBlocks(n - 1, d, fmt); }
  }

  lemma TextItem(d: Data, fmt: Format)
    ensures RenderItem(Texts(1, Nil), d, fmt) == Texts(1, Nil)
  {
    TextsMeasures(1, Nil);
    RoundsIdle(Texts(1, Nil), d, MAX_IF_ROUNDS);
    ExpandTimesResult(Texts(1, Nil), d, fmt, MAX_EACH_PER_LEVEL);
    NoBlockNoTurn(Texts(1, Nil), d, fmt);
    FillTexts(1, Nil, d, fmt);
  }

  lemma {:induction false} TextItems(items: seq<Value>, i: nat, data: Data, fmt: Format)
    requires i <= |items|
    ensures RenderItems(Texts(1, Nil), items, i, data, fmt) == Texts(|items| - i, Nil)
    decreases |items| - i
  {
    if i < |items| {
      TextItem(ItemData(data, items[i], i), fmt);
      TextItems(items, i + 1, data, fmt);
      TextsAdd(1, |items| - i - 1, Nil);
      TextsAdd(1, 0, Texts(|items| - i - 1, Nil));
    }
  }

  /** One turn: the first block becomes as many texts as its list has items. */
  lemma {:induction false} FirstOfBlocks(a: nat, n: nat, w: nat, data: Data, fmt: Format)
    requires n > 0 && Resolve(INNER_KEY, data).List? && |Resolve(INNER_KEY, data).items| == w
    ensures ExpandFirst(Texts(a, Blocks(n)), data, fmt) == Texts(a + w, Blocks(n - 1))
    decreases a
  {
    if a > 0 {
      FirstOfBlocks(a - 1, n, w, data, fmt);
    } else {
      TextItems(Resolve(INNER_KEY, data).items, 0, data, fmt);
      TextsAdd(w, 0, Blocks(n - 1));
    }
  }

  lemma {:induction false} TurnsOnBlocks(a: nat, n: nat, w: nat, k: nat, data: Data, fmt: Format)
    requires k <= n && Resolve(INNER_KEY, data).List? && |Resolve(INNER_KEY, data).items| == w
    ensures ExpandTimes(Texts(a, Blocks(n)), data, fmt, k) == Texts(a + k * w, Blocks(n - k))
    decreases k
  {
    if k > 0 {
      BlocksMeasures(n);
      TextsMeasures(a, Blocks(n));
      FirstOfBlocks(a, n, w, data, fmt);
      TurnsOnBlocks(a + w, n - 1, w, k - 1, data, fmt);
      assert w + (k - 1) * w == k * w;
    }
  }

  /** An item whose list has one entry fills thirty texts in and leaves the other blocks over. */
  lemma CrowdedItem(n: nat, d: Data, fmt: Format)
    requires n > MAX_EACH_PER_LEVEL && Resolve(INNER_KEY, d) == List([Null])
    ensures RenderItem(Blocks(n), d, fmt) == Texts(MAX_EACH_PER_LEVEL, Blocks(n - MAX_EACH_PER_LEVEL))
  {
    BlocksMeasures(n);
    RoundsIdle(Blocks(n), d, MAX_IF_ROUNDS);
    TurnsOnBlocks(0, n, 1, MAX_EACH_PER_LEVEL, d, fmt);
    FillTexts(MAX_EACH_PER_LEVEL, Blocks(n - MAX_EACH_PER_LEVEL), d, fmt);
    FillBlocks(n - MAX_EACH_PER_LEVEL, d, fmt);
  }

  lemma OnlyItem(key: Key, body: Forest, item: Value, data: Data, fmt: Format)
    requires Resolve(key, data) == List([item])
    ensures RenderEach(key, body, data, fmt) == RenderItem(body, ItemData(data, item, 0), fmt)
  {
    assert RenderItems(body, [item], 1, data, fmt) == Nil;
    JoinNil(RenderItem(body, ItemData(data, item, 0), fmt));
  }

  /** After one turn thirty texts and the other blocks stand in the outer text. */
  lemma CrowdedFirstTurn(n: nat, w: nat, fmt: Format)
    requires n > MAX_EACH_PER_LEVEL
    ensures ExpandFirst(CrowdedTemplate(n), CrowdedTop(w), fmt)
         == Texts(MAX_EACH_PER_LEVEL, Blocks(n - MAX_EACH_PER_LEVEL))
  {
    var left := Texts(MAX_EACH_PER_LEVEL, Blocks(n - MAX_EACH_PER_LEVEL));
    CrowdedLookups(w);
    OnlyItem(LIST_KEY, Blocks(n), CROWDED_ITEM, CrowdedTop(w), fmt);
    CrowdedItem(n, ItemData(CrowdedTop(w), CROWDED_ITEM, 0), fmt);
    JoinNil(left);
  }

  lemma {:induction false} TurnsOfBlocks(n: nat, a: nat, data: Data, fmt: Format)
    requires Resolve(INNER_KEY, data).List?
    ensures Turns(Texts(a, Blocks(n)), data, fmt) == n
    decreases n, a
  {
    if a > 0 {
      TurnsOfBlocks(n, a - 1, data, fmt);
    } else if n > 0 {
      TurnsOfBlocks(n - 1, 0, data, fmt);
      TextItems(Resolve(INNER_KEY, data).items, 0, data, fmt);
      TextsMeasures(|Resolve(INNER_KEY, data).items|, Nil);
      NoBlockNoTurn(Texts(|Resolve(INNER_KEY, data).items|, Nil), data, fmt);
    }
  }

  /** What n texts show. */
  function Line(n: nat): seq<Token>
  {
    seq(n, _ => Text("x"))
  }

  lemma {:induction false} TextsPrint(n: nat, data: Data, fmt: Format)
    ensures FinishTokens(Print(Texts(n, Nil)), data, fmt) == Line(n)
  {
    if n > 0 {
      TextsPrint(n - 1, data, fmt);
      assert Line(n) == [Text("x")] + Line(n - 1);
    }
  }

  lemma {:induction false} EvaluateBlocks(n: nat, top: Data, envs: seq<Data>, fmt: Format)
    requires envs != [] && Resolve(INNER_KEY, envs[0]) == List([Null])
    ensures Evaluate(Blocks(n), top, envs, fmt) == Line(n)
  {
    if n > 0 {
      EvaluateBlocks(n - 1, top, envs, fmt);
      var inner := [ItemData(envs[0], Null, 0)] + envs;
      assert Evaluate(Texts(1, Nil), top, inner, fmt) == [Text("x")] + Evaluate(Texts(0, Nil), top, inner, fmt);
      assert EvaluateItems(Texts(1, Nil), [Null], 1, top, envs, fmt) == [];
      assert Line(n) == [Text("x")] + Line(n - 1);
    }
  }

  lemma CrowdedMeasures(n: nat)
    ensures Outer(CrowdedTemplate(n)) == 1 && IfHeight(CrowdedTemplate(n)) == 0 && IfFree(CrowdedTemplate(n))
  {
    BlocksMeasures(n);
  }

  lemma CrowdedEvaluation(n: nat, w: nat, fmt: Format)
    ensures Evaluate(CrowdedTemplate(n), CrowdedTop(w), [CrowdedTop(w)], fmt) == Line(n)
  {
    var top := CrowdedTop(w);
    var envs := [ItemData(top, CROWDED_ITEM, 0)] + [top];
    CrowdedLookups(w);
    EvaluateBlocks(n, top, envs, fmt);
    assert EvaluateItems(Blocks(n), [CROWDED_ITEM], 1, top, [top], fmt) == [];
  }

  lemma CrowdedTurns(n: nat, w: nat, fmt: Format)
    requires n > MAX_EACH_PER_LEVEL
    ensures Turns(CrowdedTemplate(n), CrowdedTop(w), fmt) == n - MAX_EACH_PER_LEVEL + 1
  {
    CrowdedLookups(w);
    CrowdedFirstTurn(n, w, fmt);
    TurnsOfBlocks(n - MAX_EACH_PER_LEVEL, MAX_EACH_PER_LEVEL, CrowdedTop(w), fmt);
    ExpandFirstProgress(CrowdedTemplate(n), CrowdedTop(w), fmt);
  }

  lemma EnoughTurns(f: Forest, n: nat, k: nat, data: Data, fmt: Format)
    requires Outer(f) > 0 && Turns(f, data, fmt) == k + 1 <= n
    ensures ExpandTimes(f, data, fmt, n) == ExpandTimes(ExpandFirst(f, data, fmt), data, fmt, k)
  {
    ExpandFirstProgress(f, data, fmt);
    ExpandTimesResult(f, data, fmt, n);
    ExpandTimesResult(ExpandFirst(f, data, fmt), data, fmt, k);
  }

  /** Thirty texts from the item and w from each block it left over. */
  function Spilled(n: nat, w: nat): nat
    requires n >= MAX_EACH_PER_LEVEL
  {
    MAX_EACH_PER_LEVEL + (n - MAX_EACH_PER_LEVEL) * w
  }

  lemma CrowdedExpanded(n: nat, w: nat, fmt: Format)
    requires MAX_EACH_PER_LEVEL < n < 2 * MAX_EACH_PER_LEVEL
    ensures ExpandTimes(CrowdedTemplate(n), CrowdedTop(w), fmt, MAX_EACH_PER_LEVEL)
         == Texts(Spilled(n, w), Nil)
  {
    var f, top, k := CrowdedTemplate(n), CrowdedTop(w), n - MAX_EACH_PER_LEVEL;
    CrowdedMeasures(n);
    CrowdedTurns(n, w, fmt);
    EnoughTurns(f, MAX_EACH_PER_LEVEL, k, top, fmt);
    CrowdedFirstTurn(n, w, fmt);
    CrowdedLookups(w);
    TurnsOnBlocks(MAX_EACH_PER_LEVEL, k, w, k, top, fmt);
  }

  /** An each body with more than thirty blocks, in a template with one outermost block. The item leaves all
      but thirty to the outer loop, which expands them by the top-level list: no tag tells that texts are lost
      (w = 0) or doubled (w > 1) while that takes at most thirty turns, and from sixty blocks on tags stay. */
  lemma CrowdedBodySpills(n: nat, w: nat, fmt: Format)
    requires n > 30
    ensures var f, top := CrowdedTemplate(n), CrowdedTop(w);
      && Outer(f) == 1 && IfHeight(f) == 0 && Turns(f, top, fmt) == n - 29
      && Evaluate(f, top, [top], fmt) == Line(n)
      && (n < 60 ==>
          Rendered(f, top, fmt) == Line(Spilled(n, w)))
      && (n >= 60 ==> exists t :: t in Rendered(f, top, fmt) && t.EachOpen?)
  {
    var f, top := CrowdedTemplate(n), CrowdedTop(w);
    CrowdedMeasures(n);
    CrowdedEvaluation(n, w, fmt);
    CrowdedTurns(n, w, fmt);
    RoundsIdle(f, top, MAX_IF_ROUNDS);
    if n < 2 * MAX_EACH_PER_LEVEL {
      CrowdedExpanded(n, w, fmt);
      TextsPrint(Spilled(n, w), top, fmt);
    } else {
      ExpandTimesResult(f, top, fmt, MAX_EACH_PER_LEVEL);
      NoBlockNoTag(ExpandTimes(f, top, fmt, MAX_EACH_PER_LEVEL));
      FinishKeepsTags(Print(ExpandTimes(f, top, fmt, MAX_EACH_PER_LEVEL)), top, fmt);
    }
  }
}
