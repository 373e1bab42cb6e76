/** Conditional blocks: up to ten rounds of replacing the innermost ones
    (engine/composition/renderer.py, _process_conditionals). */
module Conditionals {
  import opened Options
  import opened TemplateData

  // ---- One round on tokens, as re.sub scans it ----

  /** Position of the first if tag, opening or closing. */
  function NextIfTag(ts: seq<Token>): (r: Option<nat>)
    ensures r.Some? ==> r.value < |ts| && (ts[r.value].IfOpen? || ts[r.value].IfClose?)
  {
    if ts == [] then None
    else if ts[0].IfOpen? || ts[0].IfClose? then Some(0)
    else
      var r := NextIfTag(ts[1..]);
      if r.Some? then Some(r.value + 1) else None
  }

  /** Whether the opening tag in front of ts has its closing tag before any other if tag. */
  predicate ClosesFirst(ts: seq<Token>)
  {
    NextIfTag(ts).Some? && ts[NextIfTag(ts).value].IfClose?
  }

  /** All innermost if blocks, left to right, replaced by their content or by nothing. */
  function ReplaceInnermost(ts: seq<Token>, data: Data): seq<Token>
    decreases |ts|
  {
    if ts == [] then []
    else if ts[0].IfOpen? && ClosesFirst(ts[1..]) then
      var j := NextIfTag(ts[1..]).value;
      (if Truthy(Resolve(ts[0].key, data)) then ts[1..][..j] else []) + ReplaceInnermost(ts[1..][j + 1..], data)
    else [ts[0]] + ReplaceInnermost(ts[1..], data)
  }

  predicate HasInnermost(ts: seq<Token>)
    decreases |ts|
  {
    ts != [] && ((ts[0].IfOpen? && ClosesFirst(ts[1..])) || HasInnermost(ts[1..]))
  }

  // ---- One round on trees ----

  predicate IfFree(f: Forest)
  {
    IfHeight(f) == 0
  }

  function StripInnermost(f: Forest, data: Data): Forest
  {
    match f
    case Nil => Nil
    case TextThen(s, rest) => TextThen(s, StripInnermost(rest, data))
    case SlotThen(key, rest) => SlotThen(key, StripInnermost(rest, data))
    case IfThen(key, body, rest) =>
      if !IfFree(body) then IfThen(key, StripInnermost(body, data), StripInnermost(rest, data))
      else if Truthy(Resolve(key, data)) then Join(body, StripInnermost(rest, data))
      else StripInnermost(rest, data)
    case EachThen(key, body, rest) => EachThen(key, StripInnermost(body, data), StripInnermost(rest, data))
  }

  /** All if blocks decided at once. */
  function DecideIfs(f: Forest, data: Data): Forest
  {
    match f
    case Nil => Nil
    case TextThen(s, rest) => TextThen(s, DecideIfs(rest, data))
    case SlotThen(key, rest) => SlotThen(key, DecideIfs(rest, data))
    case IfThen(key, body, rest) =>
      if Truthy(Resolve(key, data)) then Join(DecideIfs(body, data), DecideIfs(rest, data)) else DecideIfs(rest, data)
    case EachThen(key, body, rest) => EachThen(key, DecideIfs(body, data), DecideIfs(rest, data))
  }

  function Rounds(f: Forest, data: Data, n: nat): Forest
    decreases n
  {
    if n == 0 then f else Rounds(StripInnermost(f, data), data, n - 1)
  }

  // ---- The scan finds the right closing tag ----

  function Shift(r: Option<nat>, k: nat): Option<nat>
  {
    if r.Some? then Some(r.value + k) else None
  }

  lemma NextIfTagCons(t: Token, ts: seq<Token>)
    ensures NextIfTag([t] + ts) == if t.IfOpen? || t.IfClose? then Some(0) else Shift(NextIfTag(ts), 1)
  {
    assert ([t] + ts)[1..] == ts;
  }

  predicate IsIfTag(t: Token)
  {
    t.IfOpen? || t.IfClose?
  }

  lemma {:induction false} IfFreePrint(f: Forest)
    requires IfFree(f)
    ensures forall t :: t in Print(f) ==> !IsIfTag(t)
  {
    match f
    case Nil =>
    case TextThen(s, rest) => IfFreePrint(rest);
    case SlotThen(key, rest) => IfFreePrint(rest);
    case EachThen(key, body, rest) => IfFreePrint(body); IfFreePrint(rest);
  }

  lemma HeadInFront(s: seq<Token>, tail: seq<Token>)
    requires s != []
    ensures s + tail == [s[0]] + (s[1..] + tail)
  {}

  lemma {:induction false} SkipPlain(plain: seq<Token>, tail: seq<Token>)
    requires forall t :: t in plain ==> !IsIfTag(t)
    ensures NextIfTag(plain + tail) == Shift(NextIfTag(tail), |plain|)
    decreases |plain|
  {
    if plain == [] {
      assert plain + tail == tail;
    } else {
      var rest := plain[1..];
      assert plain[0] in plain && forall t :: t in rest ==> t in plain;
      SkipPlain(rest, tail);
      NextIfTagCons(plain[0], rest + tail);
      HeadInFront(plain, tail);
    }
  }

  lemma NextIfTagSkips(f: Forest, tail: seq<Token>)
    requires IfFree(f)
    ensures NextIfTag(Print(f) + tail) == Shift(NextIfTag(tail), |Print(f)|)
  {
    IfFreePrint(f);
    SkipPlain(Print(f), tail);
  }

  predicate OpensFirst(ts: seq<Token>)
  {
    NextIfTag(ts).Some? && ts[NextIfTag(ts).value].IfOpen?
  }

  lemma OpensFirstCons(t: Token, ts: seq<Token>)
    requires !t.IfClose?
    ensures OpensFirst([t] + ts) <==> t.IfOpen? || OpensFirst(ts)
  {
    NextIfTagCons(t, ts);
  }

  lemma OpensFirstAfter(f: Forest, tail: seq<Token>)
    requires IfFree(f) && OpensFirst(tail)
    ensures OpensFirst(Print(f) + tail)
  {
    NextIfTagSkips(f, tail);
  }

  /** In front of anything, a template with an if block shows an opening tag first. */
  lemma {:induction false} NextIfTagOpens(f: Forest, tail: seq<Token>)
    requires !IfFree(f)
    ensures OpensFirst(Print(f) + tail)
  {
    match f
    case TextThen(s, rest) =>
      NextIfTagOpens(rest, tail);
      UnfoldPiece(Text(s), rest, tail);
      OpensFirstCons(Text(s), Print(rest) + tail);
    case SlotThen(key, rest) =>
      NextIfTagOpens(rest, tail);
      UnfoldPiece(Slot(key), rest, tail);
      OpensFirstCons(Slot(key), Print(rest) + tail);
    case IfThen(key, body, rest) =>
      UnfoldBlock(IfOpen(key), body, IfClose, rest, tail);
      OpensFirstCons(IfOpen(key), Print(body) + ([IfClose] + (Print(rest) + tail)));
    case EachThen(key, body, rest) =>
      var after := [EachClose] + (Print(rest) + tail);
      UnfoldBlock(EachOpen(key), body, EachClose, rest, tail);
      OpensFirstCons(EachOpen(key), Print(body) + after);
      if IfFree(body) {
        NextIfTagOpens(rest, tail);
        OpensFirstCons(EachClose, Print(rest) + tail);
        OpensFirstAfter(body, after);
      } else {
        NextIfTagOpens(body, after);
      }
  }

  /** Copying a tag that is not an opening if tag. */
  lemma CopyTag(t: Token, tail: seq<Token>, data: Data)
    requires !t.IfOpen?
    ensures ReplaceInnermost([t] + tail, data) == [t] + ReplaceInnermost(tail, data)
    ensures HasInnermost([t] + tail) <==> HasInnermost(tail)
  {
    assert ([t] + tail)[1..] == tail;
  }

  /** Copying an opening if tag whose block holds another one. */
  lemma CopyOuterIf(key: Key, body: Forest, tail: seq<Token>, data: Data)
    requires !IfFree(body)
    ensures var ts := Print(body) + ([IfClose] + tail);
      && ReplaceInnermost([IfOpen(key)] + ts, data) == [IfOpen(key)] + ReplaceInnermost(ts, data)
      && (HasInnermost([IfOpen(key)] + ts) <==> HasInnermost(ts))
  {
    var ts := Print(body) + ([IfClose] + tail);
    NextIfTagOpens(body, [IfClose] + tail);
    assert ([IfOpen(key)] + ts)[1..] == ts;
  }

  lemma ReplaceInnerIf(key: Key, body: Forest, tail: seq<Token>, data: Data)
    requires IfFree(body)
    ensures var ts := Print(body) + ([IfClose] + tail);
      && ReplaceInnermost([IfOpen(key)] + ts, data) ==
           (if Truthy(Resolve(key, data)) then Print(body) else []) + ReplaceInnermost(tail, data)
      && HasInnermost([IfOpen(key)] + ts)
  {
    IfFreePrint(body);
    ReplacePlainIf(key, Print(body), tail, data);
  }

  lemma ClosingTagFound(plain: seq<Token>, tail: seq<Token>)
    requires forall t :: t in plain ==> !IsIfTag(t)
    ensures NextIfTag(plain + ([IfClose] + tail)) == Some(|plain|)
  {
    SkipPlain(plain, [IfClose] + tail);
    NextIfTagCons(IfClose, tail);
  }

  lemma ReplacePlainIf(key: Key, plain: seq<Token>, tail: seq<Token>, data: Data)
    requires forall t :: t in plain ==> !IsIfTag(t)
    ensures var ts := plain + ([IfClose] + tail);
      && ReplaceInnermost([IfOpen(key)] + ts, data) ==
           (if Truthy(Resolve(key, data)) then plain else []) + ReplaceInnermost(tail, data)
      && HasInnermost([IfOpen(key)] + ts)
  {
    ClosingTagFound(plain, tail);
    AroundTag(plain, IfClose, tail);
    ReplaceFound(key, plain + ([IfClose] + tail), plain, tail, data);
  }

  lemma AroundTag(plain: seq<Token>, t: Token, tail: seq<Token>)
    ensures var ts := plain + ([t] + tail);
      ts[|plain|] == t && ts[..|plain|] == plain && ts[|plain| + 1..] == tail
  {}

  lemma ReplaceFound(key: Key, ts: seq<Token>, plain: seq<Token>, tail: seq<Token>, data: Data)
    requires NextIfTag(ts) == Some(|plain|) && ts[|plain|].IfClose?
    requires ts[..|plain|] == plain && ts[|plain| + 1..] == tail
    ensures ReplaceInnermost([IfOpen(key)] + ts, data)
         == (if Truthy(Resolve(key, data)) then plain else []) + ReplaceInnermost(tail, data)
    ensures HasInnermost([IfOpen(key)] + ts)
  {
    assert ([IfOpen(key)] + ts)[1..] == ts;
  }

  lemma Regroup(a: seq<Token>, b: seq<Token>, c: seq<Token>, d: seq<Token>, e: seq<Token>)
    ensures a + (b + (c + (d + e))) == a + b + c + d + e
  {}

  /** One round of the token rewriting is one round on the tree, in any context. */
  lemma {:induction false} RoundOnTokens(f: Forest, tail: seq<Token>, data: Data)
    ensures ReplaceInnermost(Print(f) + tail, data) == Print(StripInnermost(f, data)) + ReplaceInnermost(tail, data)
    decreases f, 1
  {
    match f
    case Nil =>
      assert Print(f) + tail == tail;
    case TextThen(s, rest) =>
      RoundOnTokens(rest, tail, data);
      UnfoldPiece(Text(s), rest, tail);
      CopyTag(Text(s), Print(rest) + tail, data);
    case SlotThen(key, rest) =>
      RoundOnTokens(rest, tail, data);
      UnfoldPiece(Slot(key), rest, tail);
      CopyTag(Slot(key), Print(rest) + tail, data);
    case EachThen(key, body, rest) =>
      RoundOnTokens(body, [EachClose] + (Print(rest) + tail), data);
      RoundOnTokens(rest, tail, data);
      RoundOnEach(key, body, rest, tail, data);
      PrintEach(key, body, rest, tail);
    case IfThen(key, body, rest) => RoundOnIf(key, body, rest, tail, data);
  }

  lemma RoundOnEach(key: Key, body: Forest, rest: Forest, tail: seq<Token>, data: Data)
    requires ReplaceInnermost(Print(rest) + tail, data) ==
      Print(StripInnermost(rest, data)) + ReplaceInnermost(tail, data)
    requires ReplaceInnermost(Print(body) + ([EachClose] + (Print(rest) + tail)), data)
          == Print(StripInnermost(body, data)) + ReplaceInnermost([EachClose] + (Print(rest) + tail), data)
    ensures ReplaceInnermost([EachOpen(key)] + (Print(body) + ([EachClose] + (Print(rest) + tail))), data)
         == Print(StripInnermost(EachThen(key, body, rest), data)) + ReplaceInnermost(tail, data)
  {
    StrippedEach(key, body, rest, data);
    CopyBlock(EachOpen(key), Print(body), EachClose, Print(rest) + tail, Print(StripInnermost(body, data)),
              Print(StripInnermost(rest, data)), ReplaceInnermost(tail, data),
              Print(StripInnermost(EachThen(key, body, rest), data)), data);
  }

  lemma StrippedEach(key: Key, body: Forest, rest: Forest, data: Data)
    ensures Print(StripInnermost(EachThen(key, body, rest), data))
         == [EachOpen(key)] + Print(StripInnermost(body, data)) + [EachClose] + Print(StripInnermost(rest, data))
  {}

  /** A block whose tags are copied, given what becomes of its content and of what follows. */
  lemma CopyBlock(open: Token, body: seq<Token>, close: Token, after: seq<Token>,
                  body': seq<Token>, rest': seq<Token>, tail': seq<Token>, whole: seq<Token>, data: Data)
    requires !open.IfOpen? && !close.IfOpen?
    requires ReplaceInnermost(body + ([close] + after), data) == body' + ReplaceInnermost([close] + after, data)
    requires ReplaceInnermost(after, data) == rest' + tail' && whole == [open] + body' + [close] + rest'
    ensures ReplaceInnermost([open] + (body + ([close] + after)), data) == whole + tail'
  {
    CopyTag(open, body + ([close] + after), data);
    CopyTag(close, after, data);
    Regroup([open], body', [close], rest', tail');
  }

  lemma Regroup3(a: seq<Token>, b: seq<Token>, c: seq<Token>)
    ensures a + (b + c) == a + b + c
  {}

  lemma {:induction false} RoundOnIf(key: Key, body: Forest, rest: Forest, tail: seq<Token>, data: Data)
    ensures var f := IfThen(key, body, rest);
      ReplaceInnermost(Print(f) + tail, data) == Print(StripInnermost(f, data)) + ReplaceInnermost(tail, data)
    decreases IfThen(key, body, rest), 0
  {
    PrintIf(key, body, rest, tail);
    RoundOnTokens(rest, tail, data);
    if IfFree(body) {
      RoundOnInnerIf(key, body, rest, tail, data);
    } else {
      RoundOnTokens(body, [IfClose] + (Print(rest) + tail), data);
      RoundOnOuterIf(key, body, rest, tail, data);
    }
  }

  lemma PrintEach(key: Key, body: Forest, rest: Forest, tail: seq<Token>)
    ensures Print(EachThen(key, body, rest)) + tail
         == [EachOpen(key)] + (Print(body) + ([EachClose] + (Print(rest) + tail)))
  {
    UnfoldBlock(EachOpen(key), body, EachClose, rest, tail);
  }

  lemma PrintIf(key: Key, body: Forest, rest: Forest, tail: seq<Token>)
    ensures Print(IfThen(key, body, rest)) + tail == [IfOpen(key)] + (Print(body) + ([IfClose] + (Print(rest) + tail)))
  {
    UnfoldBlock(IfOpen(key), body, IfClose, rest, tail);
  }

  lemma PrintStripped(key: Key, body: Forest, rest: Forest, data: Data)
    requires IfFree(body)
    ensures Print(StripInnermost(IfThen(key, body, rest), data))
         == (if Truthy(Resolve(key, data)) then Print(body) else []) + Print(StripInnermost(rest, data))
  {
    PrintJoin(body, StripInnermost(rest, data));
  }

  lemma RoundOnInnerIf(key: Key, body: Forest, rest: Forest, tail: seq<Token>, data: Data)
    requires IfFree(body)
    requires ReplaceInnermost(Print(rest) + tail, data) ==
      Print(StripInnermost(rest, data)) + ReplaceInnermost(tail, data)
    ensures ReplaceInnermost([IfOpen(key)] + (Print(body) + ([IfClose] + (Print(rest) + tail))), data)
         == Print(StripInnermost(IfThen(key, body, rest), data)) + ReplaceInnermost(tail, data)
  {
    ReplaceInnerIf(key, body, Print(rest) + tail, data);
    PrintStripped(key, body, rest, data);
    Regroup3(if Truthy(Resolve(key, data)) then Print(body) else [], Print(StripInnermost(rest, data)),
             ReplaceInnermost(tail, data));
  }

  lemma RoundOnOuterIf(key: Key, body: Forest, rest: Forest, tail: seq<Token>, data: Data)
    requires !IfFree(body)
    requires ReplaceInnermost(Print(rest) + tail, data) ==
      Print(StripInnermost(rest, data)) + ReplaceInnermost(tail, data)
    requires ReplaceInnermost(Print(body) + ([IfClose] + (Print(rest) + tail)), data)
          == Print(StripInnermost(body, data)) + ReplaceInnermost([IfClose] + (Print(rest) + tail), data)
    ensures ReplaceInnermost([IfOpen(key)] + (Print(body) + ([IfClose] + (Print(rest) + tail))), data)
         == Print(StripInnermost(IfThen(key, body, rest), data)) + ReplaceInnermost(tail, data)
  {
    CopyOuterIf(key, body, Print(rest) + tail, data);
    CopyTag(IfClose, Print(rest) + tail, data);
    Regroup([IfOpen(key)], Print(StripInnermost(body, data)), [IfClose], Print(StripInnermost(rest, data)),
            ReplaceInnermost(tail, data));
  }

  lemma {:induction false} InnermostExists(f: Forest, tail: seq<Token>)
    ensures HasInnermost(Print(f) + tail) <==> !IfFree(f) || HasInnermost(tail)
  {
    match f
    case Nil =>
      assert Print(f) + tail == tail;
    case TextThen(s, rest) =>
      InnermostExists(rest, tail);
      UnfoldPiece(Text(s), rest, tail);
      CopyTag(Text(s), Print(rest) + tail, map[]);
    case SlotThen(key, rest) =>
      InnermostExists(rest, tail);
      UnfoldPiece(Slot(key), rest, tail);
      CopyTag(Slot(key), Print(rest) + tail, map[]);
    case EachThen(key, body, rest) =>
      var after := Print(rest) + tail;
      UnfoldBlock(EachOpen(key), body, EachClose, rest, tail);
      InnermostExists(rest, tail);
      CopyTag(EachClose, after, map[]);
      InnermostExists(body, [EachClose] + after);
      CopyTag(EachOpen(key), Print(body) + ([EachClose] + after), map[]);
    case IfThen(key, body, rest) =>
      var after := Print(rest) + tail;
      UnfoldBlock(IfOpen(key), body, IfClose, rest, tail);
      if IfFree(body) {
        ReplaceInnerIf(key, body, after, map[]);
      } else {
        InnermostExists(body, [IfClose] + after);
        CopyOuterIf(key, body, after, map[]);
      }
  }

  // ---- What a round does to the tree ----

  /** A round lowers the nesting by one, adds no each block, and does not change what the ifs decide. */
  lemma {:induction false} RoundProgress(f: Forest, data: Data)
    ensures var g := StripInnermost(f, data);
      && IfHeight(g) == (if IfHeight(f) == 0 then 0 else IfHeight(f) - 1)
      && Outer(g) <= Outer(f) && Size(g) <= Size(f) && (LevelsOk(f) ==> LevelsOk(g))
  {
    match f
    case Nil =>
    case TextThen(s, rest) => RoundProgress(rest, data);
    case SlotThen(key, rest) => RoundProgress(rest, data);
    case EachThen(key, body, rest) => RoundProgress(body, data); RoundProgress(rest, data);
    case IfThen(key, body, rest) =>
      RoundProgress(rest, data);
      if IfFree(body) {
        JoinMeasures(body, StripInnermost(rest, data));
      } else {
        RoundProgress(body, data);
      }
  }

  lemma {:induction false} DecidedIsIfFree(f: Forest, data: Data)
    ensures IfFree(DecideIfs(f, data))
    ensures IfFree(f) ==> DecideIfs(f, data) == f
    ensures Outer(DecideIfs(f, data)) <= Outer(f) && (LevelsOk(f) ==> LevelsOk(DecideIfs(f, data)))
  {
    match f
    case Nil =>
    case TextThen(s, rest) => DecidedIsIfFree(rest, data);
    case SlotThen(key, rest) => DecidedIsIfFree(rest, data);
    case EachThen(key, body, rest) => DecidedIsIfFree(body, data); DecidedIsIfFree(rest, data);
    case IfThen(key, body, rest) =>
      DecidedIsIfFree(rest, data);
      DecidedIsIfFree(body, data);
      JoinMeasures(DecideIfs(body, data), DecideIfs(rest, data));
  }

  lemma {:induction false} DecideJoin(f: Forest, g: Forest, data: Data)
    ensures DecideIfs(Join(f, g), data) == Join(DecideIfs(f, data), DecideIfs(g, data))
  {
    match f
    case Nil =>
    case TextThen(s, rest) => DecideJoin(rest, g, data);
    case SlotThen(key, rest) => DecideJoin(rest, g, data);
    case EachThen(key, body, rest) => DecideJoin(rest, g, data);
    case IfThen(key, body, rest) =>
      DecideJoin(rest, g, data);
      JoinAssociative(DecideIfs(body, data), DecideIfs(rest, data), DecideIfs(g, data));
  }

  lemma {:induction false} RoundKeepsDecisions(f: Forest, data: Data)
    ensures DecideIfs(StripInnermost(f, data), data) == DecideIfs(f, data)
  {
    match f
    case Nil =>
    case TextThen(s, rest) => RoundKeepsDecisions(rest, data);
    case SlotThen(key, rest) => RoundKeepsDecisions(rest, data);
    case EachThen(key, body, rest) => RoundKeepsDecisions(body, data); RoundKeepsDecisions(rest, data);
    case IfThen(key, body, rest) =>
      RoundKeepsDecisions(rest, data);
      RoundKeepsDecisions(body, data);
      DecideJoin(body, StripInnermost(rest, data), data);
  }

  lemma {:induction false} RoundsResult(f: Forest, data: Data, n: nat)
    ensures var g := Rounds(f, data, n);
      && IfHeight(g) == (if IfHeight(f) <= n then 0 else IfHeight(f) - n)
      && Outer(g) <= Outer(f) && Size(g) <= Size(f) && (LevelsOk(f) ==> LevelsOk(g))
      && (IfHeight(f) <= n ==> g == DecideIfs(f, data))
    decreases n
  {
    if n == 0 {
      DecidedIsIfFree(f, data);
    } else {
      RoundProgress(f, data);
      RoundKeepsDecisions(f, data);
      RoundsResult(StripInnermost(f, data), data, n - 1);
    }
  }

  lemma {:induction false} RoundsIdle(f: Forest, data: Data, n: nat)
    requires IfFree(f)
    ensures Rounds(f, data, n) == f
  {
    RoundsResult(f, data, n);
    DecidedIsIfFree(f, data);
  }

  /** _process_conditionals on the tokens of a well-nested template: exactly the if blocks nested at most ten
      deep, counted from the inside, are decided; none is left exactly when the template nests no deeper. */
  method ProcessConditionals(tokens: seq<Token>, data: Data, ghost f: Forest) returns (r: seq<Token>)
    requires tokens == Print(f)
    ensures r == Print(Rounds(f, data, MAX_IF_ROUNDS))
    ensures IfHeight(f) <= MAX_IF_ROUNDS ==> r == Print(DecideIfs(f, data))
    ensures HasInnermost(r) <==> IfHeight(f) > MAX_IF_ROUNDS
  {
    r := tokens;
    ghost var g := f;
    var i := 0;
    RoundsResult(f, data, MAX_IF_ROUNDS);
    while i < MAX_IF_ROUNDS
      invariant 0 <= i <= MAX_IF_ROUNDS && r == Print(g)
      invariant Rounds(g, data, MAX_IF_ROUNDS - i) == Rounds(f, data, MAX_IF_ROUNDS)
    {
      InnermostExists(g, []);
      assert Print(g) + [] == Print(g);
      if !HasInnermost(r) {
        RoundsIdle(g, data, MAX_IF_ROUNDS - i);
        break;
      }
      RoundOnTokens(g, [], data);
      r := ReplaceInnermost(r, data);
      g := StripInnermost(g, data);
      assert Print(g) + [] == Print(g);
      i := i + 1;
    }
    InnermostExists(g, []);
    assert Print(g) + [] == Print(g);
  }
}
