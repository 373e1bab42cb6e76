/** Repeated blocks and slots: expanding the first each block over and over, with recursion into its items
    (engine/composition/renderer.py, _process_each_blocks, _replace_simple_slots, _render_slots). */
module EachBlocks {
  import opened Options
  import opened TemplateData
  import opened Conditionals

  // ---- Slots ----

  /** _replace_simple_slots: unresolved slots stay for an outer level. */
  function FillToken(t: Token, data: Data, fmt: Format): Token
  {
    if t.Slot? && Resolve(t.key, data) != Null then Text(fmt.inner(Resolve(t.key, data))) else t
  }

  function FillTokens(ts: seq<Token>, data: Data, fmt: Format): (r: seq<Token>)
    ensures |r| == |ts|
  {
    seq(|ts|, i requires 0 <= i < |ts| => FillToken(ts[i], data, fmt))
  }

  function FillSlots(f: Forest, data: Data, fmt: Format): Forest
  {
    match f
    case Nil => Nil
    case TextThen(s, rest) => TextThen(s, FillSlots(rest, data, fmt))
    case SlotThen(key, rest) =>
      var v := Resolve(key, data);
      if v == Null then SlotThen(key, FillSlots(rest, data, fmt))
      else TextThen(fmt.inner(v), FillSlots(rest, data, fmt))
    case IfThen(key, body, rest) => IfThen(key, FillSlots(body, data, fmt), FillSlots(rest, data, fmt))
    case EachThen(key, body, rest) => EachThen(key, FillSlots(body, data, fmt), FillSlots(rest, data, fmt))
  }

  lemma FillConcat(a: seq<Token>, b: seq<Token>, data: Data, fmt: Format)
    ensures FillTokens(a + b, data, fmt) == FillTokens(a, data, fmt) + FillTokens(b, data, fmt)
  {}

  lemma FillOne(t: Token, data: Data, fmt: Format)
    ensures FillTokens([t], data, fmt) == [FillToken(t, data, fmt)]
  {}

  lemma {:induction false} FillOnTokens(f: Forest, data: Data, fmt: Format)
    ensures FillTokens(Print(f), data, fmt) == Print(FillSlots(f, data, fmt))
  {
    match f
    case Nil =>
    case TextThen(s, rest) =>
      FillOnTokens(rest, data, fmt);
      FillConcat([Text(s)], Print(rest), data, fmt);
      FillOne(Text(s), data, fmt);
    case SlotThen(key, rest) =>
      FillOnTokens(rest, data, fmt);
      FillConcat([Slot(key)], Print(rest), data, fmt);
      FillOne(Slot(key), data, fmt);
    case IfThen(key, body, rest) =>
      FillOnTokens(body, data, fmt);
      FillOnTokens(rest, data, fmt);
      FillBlock(IfOpen(key), body, IfClose, rest, data, fmt);
    case EachThen(key, body, rest) =>
      FillOnTokens(body, data, fmt);
      FillOnTokens(rest, data, fmt);
      FillBlock(EachOpen(key), body, EachClose, rest, data, fmt);
  }

  lemma FillBlock(open: Token, body: Forest, close: Token, rest: Forest, data: Data, fmt: Format)
    requires !open.Slot? && !close.Slot?
    ensures FillTokens([open] + Print(body) + [close] + Print(rest), data, fmt) ==
            [open] + FillTokens(Print(body), data, fmt) + [close] + FillTokens(Print(rest), data, fmt)
  {
    FillConcat([open] + Print(body) + [close], Print(rest), data, fmt);
    FillConcat([open] + Print(body), [close], data, fmt);
    FillConcat([open], Print(body), data, fmt);
    FillOne(open, data, fmt);
    FillOne(close, data, fmt);
  }

  lemma {:induction false} FillMeasures(f: Forest, data: Data, fmt: Format)
    ensures var g := FillSlots(f, data, fmt);
      Outer(g) == Outer(f) && IfHeight(g) == IfHeight(f) && Size(g) == Size(f) && LargestBody(g) == LargestBody(f)
  {
    match f
    case Nil =>
    case TextThen(s, rest) => FillMeasures(rest, data, fmt);
    case SlotThen(key, rest) => FillMeasures(rest, data, fmt);
    case IfThen(key, body, rest) => FillMeasures(body, data, fmt); FillMeasures(rest, data, fmt);
    case EachThen(key, body, rest) => FillMeasures(body, data, fmt); FillMeasures(rest, data, fmt);
  }

  // ---- Expansion on trees ----

  /** Bound on the bodies the expansion loop hands to its recursive calls. */
  function LargestBody(f: Forest): nat
  {
    match f
    case Nil => 0
    case TextThen(_, rest) => LargestBody(rest)
    case SlotThen(_, rest) => LargestBody(rest)
    case IfThen(_, body, rest) => Max(LargestBody(body), LargestBody(rest))
    case EachThen(_, body, rest) => Max(1 + Size(body), LargestBody(rest))
  }

  lemma {:induction false} LargestBodyBounds(f: Forest)
    ensures LargestBody(f) <= Size(f) && (EachFree(f) ==> LargestBody(f) == 0)
  {
    match f
    case Nil =>
    case TextThen(_, rest) => LargestBodyBounds(rest);
    case SlotThen(_, rest) => LargestBodyBounds(rest);
    case IfThen(_, body, rest) => LargestBodyBounds(body); LargestBodyBounds(rest);
    case EachThen(_, body, rest) => LargestBodyBounds(rest);
  }

  lemma {:induction false} LargestBodyJoin(f: Forest, g: Forest)
    ensures LargestBody(Join(f, g)) == Max(LargestBody(f), LargestBody(g))
  {
    match f
    case Nil =>
    case TextThen(_, rest) => LargestBodyJoin(rest, g);
    case SlotThen(_, rest) => LargestBodyJoin(rest, g);
    case IfThen(_, body, rest) => LargestBodyJoin(rest, g);
    case EachThen(_, body, rest) => LargestBodyJoin(rest, g);
  }

  /** One item of an each block: ifs of the body against the item, then thirty of its each blocks, then its
      slots. Blocks left over stay in the result. */
  function RenderItem(body: Forest, data: Data, fmt: Format): (r: Forest)
    ensures LargestBody(r) <= Size(body)
    decreases Size(body), 4, 0
  {
    var b := Rounds(body, data, MAX_IF_ROUNDS);
    ItemMeasures(body, data);
    var e := ExpandTimes(b, data, fmt, MAX_EACH_PER_LEVEL);
    FillMeasures(e, data, fmt);
    FillSlots(e, data, fmt)
  }

  lemma ItemMeasures(body: Forest, data: Data)
    ensures var b := Rounds(body, data, MAX_IF_ROUNDS); LargestBody(b) <= Size(b) <= Size(body)
  {
    RoundsResult(body, data, MAX_IF_ROUNDS);
    LargestBodyBounds(Rounds(body, data, MAX_IF_ROUNDS));
  }

  /** Items i and following of an each block. */
  function RenderItems(body: Forest, items: seq<Value>, i: nat, data: Data, fmt: Format): (r: Forest)
    requires i <= |items|
    ensures LargestBody(r) <= Size(body)
    decreases Size(body), 5, |items| - i
  {
    if i == |items| then Nil
    else
      var item := RenderItem(body, ItemData(data, items[i], i), fmt);
      var others := RenderItems(body, items, i + 1, data, fmt);
      LargestBodyJoin(item, others);
      Join(item, others)
  }

  function RenderEach(key: Key, body: Forest, data: Data, fmt: Format): (r: Forest)
    ensures LargestBody(r) <= Size(body)
    decreases Size(body), 6, 0
  {
    match Resolve(key, data)
    case List(items) => RenderItems(body, items, 0, data, fmt)
    case _ => Nil
  }

  /** The first outermost each block replaced by its rendered items. */
  function ExpandFirst(f: Forest, data: Data, fmt: Format): (r: Forest)
    ensures LargestBody(r) <= LargestBody(f)
    decreases LargestBody(f), 2, f
  {
    match f
    case Nil => Nil
    case TextThen(s, rest) => TextThen(s, ExpandFirst(rest, data, fmt))
    case SlotThen(key, rest) => SlotThen(key, ExpandFirst(rest, data, fmt))
    case IfThen(key, body, rest) =>
      if Outer(body) > 0 then IfThen(key, ExpandFirst(body, data, fmt), rest)
      else IfThen(key, body, ExpandFirst(rest, data, fmt))
    case EachThen(key, body, rest) =>
      LargestBodyJoin(RenderEach(key, body, data, fmt), rest);
      Join(RenderEach(key, body, data, fmt), rest)
  }

  /** n turns of the expansion loop. What a rendered item left over is expanded in a later turn, like any block. */
  function ExpandTimes(f: Forest, data: Data, fmt: Format, n: nat): (r: Forest)
    ensures LargestBody(r) <= LargestBody(f)
    decreases LargestBody(f), 3, n
  {
    if n == 0 || EachFree(f) then f else ExpandTimes(ExpandFirst(f, data, fmt), data, fmt, n - 1)
  }

  predicate EachFree(f: Forest)
  {
    Outer(f) == 0
  }

  // ---- The depth-counting scan ----

  /** The closing tag that brings the depth to 0. */
  function Partner(ts: seq<Token>, pos: nat, depth: nat): Option<nat>
    requires pos <= |ts| && depth > 0
    decreases |ts| - pos
  {
    if pos == |ts| then None
    else if ts[pos].EachOpen? then Partner(ts, pos + 1, depth + 1)
    else if ts[pos].EachClose? then (if depth == 1 then Some(pos) else Partner(ts, pos + 1, depth - 1))
    else Partner(ts, pos + 1, depth)
  }

  predicate IsEachTag(t: Token)
  {
    t.EachOpen? || t.EachClose?
  }

  lemma {:induction false} PartnerSkips(ts: seq<Token>, pos: nat, q: nat, depth: nat)
    requires pos <= q <= |ts| && depth > 0
    requires forall i :: pos <= i < q ==> !IsEachTag(ts[i])
    ensures Partner(ts, pos, depth) == Partner(ts, q, depth)
    decreases q - pos
  {
    if pos < q { PartnerSkips(ts, pos + 1, q, depth); }
  }

  lemma {:induction false} NoCloseNoPartner(ts: seq<Token>, pos: nat, depth: nat)
    requires pos <= |ts| && depth > 0
    requires forall i :: pos <= i < |ts| ==> !ts[i].EachClose?
    ensures Partner(ts, pos, depth) == None
    decreases |ts| - pos
  {
    if pos < |ts| { NoCloseNoPartner(ts, pos + 1, if ts[pos].EachOpen? then depth + 1 else depth); }
  }

  /** m occurs in ts at position pos. */
  ghost predicate At(ts: seq<Token>, pos: nat, m: seq<Token>)
  {
    pos + |m| <= |ts| && ts[pos..pos + |m|] == m
  }

  lemma AtSplit(ts: seq<Token>, pos: nat, m: seq<Token>, n: seq<Token>)
    requires At(ts, pos, m + n)
    ensures At(ts, pos, m) && At(ts, pos + |m|, n)
  {
    var w := ts[pos..pos + |m + n|];
    assert ts[pos..pos + |m|] == w[..|m|] == (m + n)[..|m|];
    assert ts[pos + |m|..pos + |m| + |n|] == w[|m|..] == (m + n)[|m|..];
  }

  lemma AtOne(ts: seq<Token>, pos: nat, t: Token)
    requires At(ts, pos, [t])
    ensures pos < |ts| && ts[pos] == t
  {
    assert ts[pos..pos + 1][0] == t;
  }

  /** The parts of a block that occurs in ts. */
  lemma AtBlock(ts: seq<Token>, pos: nat, open: Token, body: seq<Token>, close: Token, rest: seq<Token>)
    requires At(ts, pos, [open] + body + [close] + rest)
    ensures pos + 1 + |body| < |ts| && ts[pos] == open && ts[pos + 1 + |body|] == close
    ensures At(ts, pos + 1, body) && At(ts, pos + 1 + |body| + 1, rest)
  {
    AtSplit(ts, pos, [open] + body + [close], rest);
    AtSplit(ts, pos, [open] + body, [close]);
    AtSplit(ts, pos, [open], body);
    AtOne(ts, pos, open);
    AtOne(ts, pos + 1 + |body|, close);
  }

  lemma PassPlain(ts: seq<Token>, pos: nat, depth: nat)
    requires pos < |ts| && depth > 0 && !IsEachTag(ts[pos])
    ensures Partner(ts, pos, depth) == Partner(ts, pos + 1, depth)
  {}

  lemma PassPiece(ts: seq<Token>, pos: nat, t: Token, rest: Forest, depth: nat)
    requires depth > 0 && !IsEachTag(t) && At(ts, pos, [t] + Print(rest))
    ensures pos < |ts| && At(ts, pos + 1, Print(rest))
    ensures Partner(ts, pos, depth) == Partner(ts, pos + 1, depth)
  {
    AtSplit(ts, pos, [t], Print(rest));
    AtOne(ts, pos, t);
    PassPlain(ts, pos, depth);
  }

  /** Anywhere, the scan passes over a whole well-nested template without changing its depth. */
  lemma {:induction false} PartnerPasses(ts: seq<Token>, pos: nat, f: Forest, depth: nat)
    requires depth > 0 && At(ts, pos, Print(f))
    ensures Partner(ts, pos, depth) == Partner(ts, pos + |Print(f)|, depth)
    decreases f, 1
  {
    match f
    case Nil =>
    case TextThen(s, rest) =>
      PassPiece(ts, pos, Text(s), rest, depth);
      PartnerPasses(ts, pos + 1, rest, depth);
    case SlotThen(key, rest) =>
      PassPiece(ts, pos, Slot(key), rest, depth);
      PartnerPasses(ts, pos + 1, rest, depth);
    case IfThen(key, body, rest) =>
      PartnerPassesIf(ts, pos, key, body, rest, depth);
    case EachThen(key, body, rest) =>
      PartnerPassesEach(ts, pos, key, body, rest, depth);
  }

  lemma {:induction false} PartnerPassesIf(ts: seq<Token>, pos: nat, key: Key, body: Forest, rest: Forest, depth: nat)
    requires depth > 0 && At(ts, pos, Print(IfThen(key, body, rest)))
    ensures Partner(ts, pos, depth) == Partner(ts, pos + |Print(IfThen(key, body, rest))|, depth)
    decreases IfThen(key, body, rest), 0
  {
    var b, r := |Print(body)|, |Print(rest)|;
    AtIf(ts, pos, key, body, rest);
    PartnerPasses(ts, pos + 1, body, depth);
    PartnerPasses(ts, pos + 1 + b + 1, rest, depth);
    PassIfTags(ts, pos, b, r, depth);
  }

  lemma AtIf(ts: seq<Token>, pos: nat, key: Key, body: Forest, rest: Forest)
    requires At(ts, pos, Print(IfThen(key, body, rest)))
    ensures var b, r := |Print(body)|, |Print(rest)|;
      && |Print(IfThen(key, body, rest))| == 1 + b + 1 + r && pos + 1 + b + 1 + r <= |ts|
      && ts[pos].IfOpen? && ts[pos + 1 + b].IfClose?
      && At(ts, pos + 1, Print(body)) && At(ts, pos + 1 + b + 1, Print(rest))
  {
    AtBlock(ts, pos, IfOpen(key), Print(body), IfClose, Print(rest));
    BlockLength(IfOpen(key), Print(body), IfClose, Print(rest));
  }

  lemma AtEach(ts: seq<Token>, pos: nat, key: Key, body: Forest, rest: Forest)
    requires At(ts, pos, Print(EachThen(key, body, rest)))
    ensures var b, r := |Print(body)|, |Print(rest)|;
      && |Print(EachThen(key, body, rest))| == 1 + b + 1 + r && pos + 1 + b + 1 + r <= |ts|
      && ts[pos].EachOpen? && ts[pos + 1 + b].EachClose?
      && At(ts, pos + 1, Print(body)) && At(ts, pos + 1 + b + 1, Print(rest))
  {
    AtBlock(ts, pos, EachOpen(key), Print(body), EachClose, Print(rest));
    BlockLength(EachOpen(key), Print(body), EachClose, Print(rest));
  }

  lemma BlockLength(open: Token, body: seq<Token>, close: Token, rest: seq<Token>)
    ensures |[open] + body + [close] + rest| == 1 + |body| + 1 + |rest|
  {}

  lemma PassIfTags(ts: seq<Token>, pos: nat, m: nat, n: nat, depth: nat)
    requires depth > 0 && pos + 1 + m + 1 + n <= |ts| && ts[pos].IfOpen? && ts[pos + 1 + m].IfClose?
    requires Partner(ts, pos + 1, depth) == Partner(ts, pos + 1 + m, depth)
    requires Partner(ts, pos + 1 + m + 1, depth) == Partner(ts, pos + 1 + m + 1 + n, depth)
    ensures Partner(ts, pos, depth) == Partner(ts, pos + 1 + m + 1 + n, depth)
  {
    PassPlain(ts, pos, depth);
    PassPlain(ts, pos + 1 + m, depth);
  }

  lemma PassEachTags(ts: seq<Token>, pos: nat, m: nat, n: nat, depth: nat)
    requires depth > 0 && pos + 1 + m + 1 + n <= |ts| && ts[pos].EachOpen? && ts[pos + 1 + m].EachClose?
    requires Partner(ts, pos + 1, depth + 1) == Partner(ts, pos + 1 + m, depth + 1)
    requires Partner(ts, pos + 1 + m + 1, depth) == Partner(ts, pos + 1 + m + 1 + n, depth)
    ensures Partner(ts, pos, depth) == Partner(ts, pos + 1 + m + 1 + n, depth)
  {
    assert Partner(ts, pos + 1 + m, depth + 1) == Partner(ts, pos + 1 + m + 1, depth);
  }

  lemma {:induction false} PartnerPassesEach(ts: seq<Token>, pos: nat, key: Key, body: Forest, rest: Forest, depth: nat)
    requires depth > 0 && At(ts, pos, Print(EachThen(key, body, rest)))
    ensures Partner(ts, pos, depth) == Partner(ts, pos + |Print(EachThen(key, body, rest))|, depth)
    decreases EachThen(key, body, rest), 0
  {
    var b, r, inner := |Print(body)|, |Print(rest)|, depth + 1;
    AtEach(ts, pos, key, body, rest);
    PartnerPasses(ts, pos + 1, body, inner);
    PartnerPasses(ts, pos + 1 + b + 1, rest, depth);
    PassEachTags(ts, pos, b, r, depth);
  }

  /** The scan from behind an opening tag finds the tag that really closes it. */
  lemma PartnerIsTheTrueOne(ts: seq<Token>, pos: nat, key: Key, body: Forest, after: seq<Token>)
    requires At(ts, pos, [EachOpen(key)] + Print(body) + [EachClose] + after)
    ensures pos + 1 <= |ts| && Partner(ts, pos + 1, 1) == Some(pos + 1 + |Print(body)|)
  {
    AtBlock(ts, pos, EachOpen(key), Print(body), EachClose, after);
    PartnerPasses(ts, pos + 1, body, 1);
  }

  lemma OpenedContext(ts: seq<Token>, before: seq<Token>, open: Token, body: seq<Token>, close: Token,
                      after: seq<Token>)
    requires ts == before + [open] + body + [close] + after
    ensures |ts| == |before| + 1 + |body| + 1 + |after|
    ensures ts[|before|] == open && ts[..|before|] == before
    ensures ts[|before| + 1..|before| + 1 + |body|] == body
    ensures ts[|before| + 1 + |body| + 1..] == after
    ensures At(ts, |before|, [open] + body + [close] + after)
  {
    assert ts[|before|..] == [open] + body + [close] + after;
  }

  /** First opening (or closing) each tag at or after pos. */
  method FindTag(ts: seq<Token>, pos: nat, opening: bool) returns (r: Option<nat>)
    requires pos <= |ts|
    ensures r.Some? ==> pos <= r.value < |ts| && (if opening then ts[r.value].EachOpen? else ts[r.value].EachClose?)
    ensures forall i :: pos <= i < (if r.Some? then r.value else |ts|) ==>
      if opening then !ts[i].EachOpen? else !ts[i].EachClose?
  {
    var i := pos;
    while i < |ts|
      invariant pos <= i <= |ts|
      invariant forall j :: pos <= j < i ==> if opening then !ts[j].EachOpen? else !ts[j].EachClose?
    {
      if opening && ts[i].EachOpen? { return Some(i); }
      if !opening && ts[i].EachClose? { return Some(i); }
      i := i + 1;
    }
    return None;
  }

  /** The depth-counting scan: jumps from tag to tag and stops where the depth reaches 0. */
  method FindPartner(ts: seq<Token>, start: nat) returns (bodyEnd: Option<nat>)
    requires start <= |ts|
    ensures bodyEnd == Partner(ts, start, 1)
    ensures bodyEnd.Some? ==> start <= bodyEnd.value < |ts|
  {
    var depth: nat, pos := 1, start;
    bodyEnd := None;
    while depth > 0 && pos < |ts|
      invariant start <= pos <= |ts|
      invariant depth > 0 ==> bodyEnd == None && Partner(ts, pos, depth) == Partner(ts, start, 1)
      invariant depth == 0 ==> bodyEnd.Some? && start <= bodyEnd.value < |ts| && bodyEnd == Partner(ts, start, 1)
      decreases |ts| - pos
    {
      var nextOpen := FindTag(ts, pos, true);
      var nextClose := FindTag(ts, pos, false);
      if nextClose == None {
        NoCloseNoPartner(ts, pos, depth);
        return;
      }
      if nextOpen.Some? && nextOpen.value < nextClose.value {
        PartnerSkips(ts, pos, nextOpen.value, depth);
        depth := depth + 1;
        pos := nextOpen.value + 1;
      } else {
        PartnerSkips(ts, pos, nextClose.value, depth);
        depth := depth - 1;
        if depth == 0 {
          bodyEnd := nextClose;
        }
        pos := nextClose.value + 1;
      }
    }
  }

  // ---- One turn of the expansion loop, on tokens ----

  /** Where the first each block of a printed template sits. */
  ghost predicate FirstBlockAt(f: Forest, data: Data, fmt: Format, before: seq<Token>, key: Key, body: Forest,
                               after: seq<Token>)
  {
    && Print(f) == before + [EachOpen(key)] + Print(body) + [EachClose] + after
    && (forall t :: t in before ==> !t.EachOpen?)
    && Print(ExpandFirst(f, data, fmt)) == before + Print(RenderEach(key, body, data, fmt)) + after
    && Size(body) < LargestBody(f)
  }

  lemma {:induction false} EachFreePrint(f: Forest)
    requires EachFree(f)
    ensures forall t :: t in Print(f) ==> !IsEachTag(t)
  {
    match f
    case Nil =>
    case TextThen(s, rest) => EachFreePrint(rest);
    case SlotThen(key, rest) => EachFreePrint(rest);
    case IfThen(key, body, rest) => EachFreePrint(body); EachFreePrint(rest);
  }

  lemma TextInFront(s: string, rest: Forest, data: Data, fmt: Format,
                    before: seq<Token>, key: Key, body: Forest, after: seq<Token>)
    requires FirstBlockAt(rest, data, fmt, before, key, body, after)
    ensures FirstBlockAt(TextThen(s, rest), data, fmt, [Text(s)] + before, key, body, after)
  {
    FrontGroups([Text(s)], before, [EachOpen(key)], Print(body), [EachClose], after);
    FrontGroups([Text(s)], before, [], Print(RenderEach(key, body, data, fmt)), [], after);
  }

  lemma SlotInFront(k: Key, rest: Forest, data: Data, fmt: Format,
                    before: seq<Token>, key: Key, body: Forest, after: seq<Token>)
    requires FirstBlockAt(rest, data, fmt, before, key, body, after)
    ensures FirstBlockAt(SlotThen(k, rest), data, fmt, [Slot(k)] + before, key, body, after)
  {
    FrontGroups([Slot(k)], before, [EachOpen(key)], Print(body), [EachClose], after);
    FrontGroups([Slot(k)], before, [], Print(RenderEach(key, body, data, fmt)), [], after);
  }

  lemma FrontGroups(a: seq<Token>, b: seq<Token>, e: seq<Token>, m: seq<Token>, z: seq<Token>, c: seq<Token>)
    ensures a + (b + e + m + z + c) == (a + b) + e + m + z + c
    ensures a + (b + m + c) == (a + b) + m + c
  {}

  lemma InsideGroups(a: seq<Token>, b: seq<Token>, e: seq<Token>, m: seq<Token>, z: seq<Token>, c: seq<Token>,
                     close: seq<Token>, r: seq<Token>)
    ensures a + (b + e + m + z + c) + close + r == (a + b) + e + m + z + (c + close + r)
    ensures a + (b + m + c) + close + r == (a + b) + m + (c + close + r)
  {}

  lemma BlockInside(k: Key, inner: Forest, rest: Forest, data: Data, fmt: Format,
                    before: seq<Token>, key: Key, body: Forest, after: seq<Token>)
    requires Outer(inner) > 0 && FirstBlockAt(inner, data, fmt, before, key, body, after)
    ensures FirstBlockAt(IfThen(k, inner, rest), data, fmt, [IfOpen(k)] + before, key, body,
                         after + [IfClose] + Print(rest))
  {
    InsideGroups([IfOpen(k)], before, [EachOpen(key)], Print(body), [EachClose], after, [IfClose], Print(rest));
    InsideGroups([IfOpen(k)], before, [], Print(RenderEach(key, body, data, fmt)), [], after, [IfClose], Print(rest));
  }

  lemma FreeBlockAddsNothing(k: Key, inner: Forest, rest: Forest)
    requires EachFree(inner)
    ensures LargestBody(IfThen(k, inner, rest)) == LargestBody(rest)
  {
    LargestBodyBounds(inner);
  }

  lemma BlockBehind(k: Key, inner: Forest, rest: Forest, data: Data, fmt: Format,
                    before: seq<Token>, key: Key, body: Forest, after: seq<Token>)
    requires EachFree(inner) && FirstBlockAt(rest, data, fmt, before, key, body, after)
    ensures FirstBlockAt(IfThen(k, inner, rest), data, fmt, [IfOpen(k)] + Print(inner) + [IfClose] + before, key,
                         body, after)
  {
    var front := [IfOpen(k)] + Print(inner) + [IfClose];
    FreeBlockAddsNothing(k, inner, rest);
    NoOpenTagInFront(k, inner, before);
    assert Print(IfThen(k, inner, rest)) == front + Print(rest);
    assert Print(ExpandFirst(IfThen(k, inner, rest), data, fmt)) == front + Print(ExpandFirst(rest, data, fmt));
    FrontGroups(front, before, [EachOpen(key)], Print(body), [EachClose], after);
    FrontGroups(front, before, [], Print(RenderEach(key, body, data, fmt)), [], after);
  }

  lemma NoOpenTagInFront(k: Key, inner: Forest, before: seq<Token>)
    requires EachFree(inner) && forall t :: t in before ==> !t.EachOpen?
    ensures forall t :: t in [IfOpen(k)] + Print(inner) + [IfClose] + before ==> !t.EachOpen?
  {
    EachFreePrint(inner);
  }

  lemma {:induction false} LocateFirstBlock(f: Forest, data: Data, fmt: Format)
    returns (before: seq<Token>, key: Key, body: Forest, after: seq<Token>)
    requires Outer(f) > 0
    ensures FirstBlockAt(f, data, fmt, before, key, body, after)
  {
    match f
    case TextThen(s, rest) =>
      before, key, body, after := LocateFirstBlock(rest, data, fmt);
      TextInFront(s, rest, data, fmt, before, key, body, after);
      before := [Text(s)] + before;
    case SlotThen(k, rest) =>
      before, key, body, after := LocateFirstBlock(rest, data, fmt);
      SlotInFront(k, rest, data, fmt, before, key, body, after);
      before := [Slot(k)] + before;
    case IfThen(k, inner, rest) =>
      if Outer(inner) > 0 {
        before, key, body, after := LocateFirstBlock(inner, data, fmt);
        BlockInside(k, inner, rest, data, fmt, before, key, body, after);
        before, after := [IfOpen(k)] + before, after + [IfClose] + Print(rest);
      } else {
        before, key, body, after := LocateFirstBlock(rest, data, fmt);
        BlockBehind(k, inner, rest, data, fmt, before, key, body, after);
        before := [IfOpen(k)] + Print(inner) + [IfClose] + before;
      }
    case EachThen(k, b, rest) =>
      before, key, body, after := [], k, b, Print(rest);
      PrintJoin(RenderEach(k, b, data, fmt), rest);
      assert [] + [EachOpen(k)] == [EachOpen(k)];
      assert [] + Print(RenderEach(k, b, data, fmt)) == Print(RenderEach(k, b, data, fmt));
  }

  lemma FirstOpenTag(ts: seq<Token>, before: seq<Token>, i: nat)
    requires before <= ts && |before| < |ts| && ts[|before|].EachOpen?
    requires forall t :: t in before ==> !t.EachOpen?
    requires i < |ts| && ts[i].EachOpen? && forall j :: 0 <= j < i ==> !ts[j].EachOpen?
    ensures i == |before|
  {
    assert forall j :: 0 <= j < |before| ==> ts[j] == before[j];
  }

  /** The first opening tag of the tokens and its partner delimit the first block. */
  lemma FirstBlockInTokens(ts: seq<Token>, before: seq<Token>, key: Key, body: Forest, after: seq<Token>, i: nat)
    requires ts == before + [EachOpen(key)] + Print(body) + [EachClose] + after
    requires forall t :: t in before ==> !t.EachOpen?
    requires i < |ts| && ts[i].EachOpen? && forall j :: 0 <= j < i ==> !ts[j].EachOpen?
    ensures i == |before| && ts[i] == EachOpen(key) && ts[..i] == before
    ensures i + 1 + |Print(body)| < |ts| && ts[i + 1..i + 1 + |Print(body)|] == Print(body)
    ensures ts[i + 1 + |Print(body)| + 1..] == after
    ensures Partner(ts, i + 1, 1) == Some(i + 1 + |Print(body)|)
  {
    OpenedContext(ts, before, EachOpen(key), Print(body), EachClose, after);
    FirstOpenTag(ts, before, i);
    PartnerIsTheTrueOne(ts, i, key, body, after);
  }

  lemma NoBlockNoTag(f: Forest)
    ensures EachFree(f) <==> forall t :: t in Print(f) ==> !t.EachOpen?
  {
    if EachFree(f) {
      EachFreePrint(f);
    } else {
      var fmt := Format(_ => "", (_, _) => "");
      var before, key, body, after := LocateFirstBlock(f, map[], fmt);
      OpenedContext(Print(f), before, EachOpen(key), Print(body), EachClose, after);
    }
  }
}
