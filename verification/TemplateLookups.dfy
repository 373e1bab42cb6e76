/** What paths and item bindings mean, and what an each block shows of its items
    (engine/composition/renderer.py, _resolve_path, _process_each_blocks, _render_slots). */
module TemplateLookups {
  import opened Options
  import opened TemplateData
  import opened Conditionals
  import opened EachBlocks
  import opened EachTurns
  import opened TemplateEngine

  // ---- Paths ----

  /** A path is followed part by part: what comes after reads the value found so far. */
  lemma {:induction false} PathsCompose(k: Key, l: Key, v: Value)
    ensures ResolveIn(k + l, v) == ResolveIn(l, ResolveIn(k, v))
    decreases |k|
  {
    if k == [] {
      assert k + l == l;
    } else {
      assert (k + l)[0] == k[0] && (k + l)[1..] == k[1..] + l;
      NothingInNull(l);
      match v
      case Dict(entries) => if k[0].text in entries { PathsCompose(k[1..], l, entries[k[0].text]); }
      case List(items) =>
        if k[0].index.Some? {
          var i := k[0].index.value;
          if 0 <= i < |items| { PathsCompose(k[1..], l, items[i]); }
          else if -|items| <= i < 0 { PathsCompose(k[1..], l, items[|items| + i]); }
        }
      case _ =>
    }
  }

  lemma NothingInNull(l: Key)
    ensures ResolveIn(l, Null) == Null
  {}

  /** One step into a dictionary reads the entry of that name, one step into a list the item at that index, counted
      from the end if it is negative, and there is nothing in any other value. */
  lemma OneStep(p: Part, v: Value)
    ensures v.Dict? && p.text in v.entries ==> ResolveIn([p], v) == v.entries[p.text]
    ensures v.List? && p.index.Some? ==> forall i :: 0 <= i < |v.items| ==>
      p.index.value == i || p.index.value == i - |v.items| ==> ResolveIn([p], v) == v.items[i]
    ensures ResolveIn([p], v) != Null ==>
      || (v.Dict? && p.text in v.entries)
      || (v.List? && p.index.Some? && -|v.items| <= p.index.value < |v.items|)
  {
    assert [p][1..] == [];
  }

  /** False in Python: None, false, zero, and what is empty. */
  lemma FalsyExactly(v: Value)
    ensures !Truthy(v) <==> v in {Null, Bool(false), Num(0), Str(""), List([]), Dict(map[])}
  {}

  // ---- Items ----

  const ITEM_KEY: Key := [Part("_item", Option.None)]
  const INDEX_KEY: Key := [Part("_index", Option.None)]

  /** Inside an item, _item is the item and _index its position; any other name is the item's own entry if it is a
      dictionary that has it, and what it is outside otherwise. */
  lemma NameInItem(p: Part, data: Data, item: Value, i: nat)
    ensures Resolve([p], ItemData(data, item, i)) ==
      if p.text == "_item" then item
      else if p.text == "_index" then Num(i)
      else if item.Dict? && p.text in item.entries then item.entries[p.text]
      else Resolve([p], data)
  {
    var d := ItemData(data, item, i);
    assert "_item" in d;
    NameIn(p, d);
    NameIn(p, data);
  }

  lemma NameIn(p: Part, data: Data)
    ensures Resolve([p], data) == if p.text in data then data[p.text] else Null
  {
    assert [p][1..] == [];
    if p.text in data {
      assert ResolveIn([p], Dict(data)) == ResolveIn([], data[p.text]);
    }
  }

  /** A longer path that begins with _item continues in the item. */
  lemma PathInItem(rest: Key, data: Data, item: Value, i: nat)
    ensures Resolve(ITEM_KEY + rest, ItemData(data, item, i)) == ResolveIn(rest, item)
  {
    var d := ItemData(data, item, i);
    assert "_item" in d && d["_item"] == item;
    assert (ITEM_KEY + rest)[0] == ITEM_KEY[0] && (ITEM_KEY + rest)[1..] == rest;
  }

  // ---- An each block around one slot ----

  /** A block over a list, around one slot between two texts. */
  function ListTemplate(list: Key, before: string, slot: Key, after: string): Forest
  {
    EachThen(list, TextThen(before, SlotThen(slot, TextThen(after, Nil))), Nil)
  }

  /** The shown strings from i on, each between the two texts. */
  function Lines(before: string, shown: seq<string>, i: nat, after: string): seq<Token>
    requires i <= |shown|
    decreases |shown| - i
  {
    if i == |shown| then [] else [Text(before), Text(shown[i]), Text(after)] + Lines(before, shown, i + 1, after)
  }

  lemma OneLine(before: string, slot: Key, after: string, top: Data, envs: seq<Data>, fmt: Format)
    requires envs != []
    ensures Evaluate(TextThen(before, SlotThen(slot, TextThen(after, Nil))), top, envs, fmt)
         == [Text(before), Text(Show(slot, envs, fmt)), Text(after)]
  {
    assert Evaluate(TextThen(after, Nil), top, envs, fmt) == [Text(after)] + Evaluate(Nil, top, envs, fmt);
  }

  lemma {:induction false} LinesOfItems(before: string, slot: Key, after: string, items: seq<Value>, i: nat, data: Data,
                                        shown: seq<string>, fmt: Format)
    requires |shown| == |items| && i <= |items|
    requires forall k :: 0 <= k < |items| ==> shown[k] == Show(slot, [ItemData(data, items[k], k)] + [data], fmt)
    ensures EvaluateItems(TextThen(before, SlotThen(slot, TextThen(after, Nil))), items, i, data, [data], fmt)
         == Lines(before, shown, i, after)
    decreases |items| - i
  {
    if i < |items| {
      OneLine(before, slot, after, data, [ItemData(data, items[i], i)] + [data], fmt);
      LinesOfItems(before, slot, after, items, i + 1, data, shown, fmt);
    }
  }

  lemma ListTemplateRendered(list: Key, before: string, slot: Key, after: string, items: seq<Value>, data: Data,
                             shown: seq<string>, fmt: Format)
    requires Resolve(list, data) == List(items) && |shown| == |items|
    requires forall k :: 0 <= k < |items| ==> shown[k] == Show(slot, [ItemData(data, items[k], k)] + [data], fmt)
    ensures Rendered(ListTemplate(list, before, slot, after), data, fmt) == Lines(before, shown, 0, after)
  {
    var f := ListTemplate(list, before, slot, after);
    ListTemplateWithinLimits(list, before, slot, after, data);
    RenderedWithinLimits(f, data, fmt);
    LinesOfItems(before, slot, after, items, 0, data, shown, fmt);
  }

  lemma ListTemplateWithinLimits(list: Key, before: string, slot: Key, after: string, data: Data)
    ensures var f := ListTemplate(list, before, slot, after);
      IfHeight(f) == 0 && Contained(DecideIfs(f, data), data) && Outer(DecideIfs(f, data)) <= MAX_EACH_PER_LEVEL
  {
    var f, body := ListTemplate(list, before, slot, after), TextThen(before, SlotThen(slot, TextThen(after, Nil)));
    var last := TextThen(after, Nil);
    var tail := SlotThen(slot, last);
    assert Outer(last) == 0 && IfHeight(last) == 0 && LevelsOk(last);
    assert Outer(tail) == 0 && IfHeight(tail) == 0 && LevelsOk(tail);
    assert Outer(body) == 0 && IfHeight(body) == 0 && LevelsOk(body);
    RoundsResult(f, data, MAX_IF_ROUNDS);
    LevelsOkIsContained(DecideIfs(f, data), data);
  }

  /** What a slot shows at the top level. */
  function ShownOutside(slot: Key, data: Data, fmt: Format): string
  {
    if Resolve(slot, data) != Null then fmt.outer(slot, Resolve(slot, data)) else ""
  }

  /** Around a _item slot, an each block shows the items of the list, in order and formatted as inside an item; where
      an item is None, what _item is outside. */
  lemma ItemsAreShown(list: Key, before: string, after: string, items: seq<Value>, data: Data, shown: seq<string>,
                      fmt: Format)
    requires Resolve(list, data) == List(items) && |shown| == |items|
    requires forall i :: 0 <= i < |items| ==>
      shown[i] == (if items[i] != Null then fmt.inner(items[i]) else ShownOutside(ITEM_KEY, data, fmt))
    ensures Rendered(ListTemplate(list, before, ITEM_KEY, after), data, fmt) == Lines(before, shown, 0, after)
  {
    forall i | 0 <= i < |items| ensures shown[i] == Show(ITEM_KEY, [ItemData(data, items[i], i)] + [data], fmt) {
      NameInItem(ITEM_KEY[0], data, items[i], i);
      ShowInItem(ITEM_KEY, ItemData(data, items[i], i), data, fmt);
    }
    ListTemplateRendered(list, before, ITEM_KEY, after, items, data, shown, fmt);
  }

  /** Around an _index slot it shows the positions, from zero. */
  lemma PositionsAreShown(list: Key, before: string, after: string, items: seq<Value>, data: Data, shown: seq<string>,
                          fmt: Format)
    requires Resolve(list, data) == List(items) && |shown| == |items|
    requires forall i :: 0 <= i < |items| ==> shown[i] == fmt.inner(Num(i))
    ensures Rendered(ListTemplate(list, before, INDEX_KEY, after), data, fmt) == Lines(before, shown, 0, after)
  {
    forall i | 0 <= i < |items| ensures shown[i] == Show(INDEX_KEY, [ItemData(data, items[i], i)] + [data], fmt) {
      NameInItem(INDEX_KEY[0], data, items[i], i);
      ShowInItem(INDEX_KEY, ItemData(data, items[i], i), data, fmt);
    }
    ListTemplateRendered(list, before, INDEX_KEY, after, items, data, shown, fmt);
  }

  lemma ShowInItem(slot: Key, d: Data, data: Data, fmt: Format)
    ensures Show(slot, [d] + [data], fmt) ==
      if Resolve(slot, d) != Null then fmt.inner(Resolve(slot, d))
      else ShownOutside(slot, data, fmt)
  {
    assert ([d] + [data])[1..] == [data];
  }
}
