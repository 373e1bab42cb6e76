/** Values, paths and templates of the composition renderer (engine/composition/renderer.py).
    Templates are token sequences; value formatting is a parameter. */
module TemplateData {
  import opened Options

  /** JSON-like data; Null is Python's None. */
  datatype Value =
    | Null
    | Bool(b: bool)
    | Num(n: int)
    | Str(s: string)
    | List(items: seq<Value>)
    | Dict(entries: map<string, Value>)

  type Data = map<string, Value>

  /** One component of a dotted path, with its reading as a list index if it has one. */
  datatype Part = Part(text: string, index: Option<int>)

  type Key = seq<Part>

  function ResolveIn(key: Key, v: Value): Value
    decreases |key|
  {
    if key == [] then v
    else
      match v
      case Dict(entries) => if key[0].text in entries then ResolveIn(key[1..], entries[key[0].text]) else Null
      case List(items) =>
        if key[0].index.None? then Null
        else
          var i := key[0].index.value;
          if 0 <= i < |items| then ResolveIn(key[1..], items[i])
          else if -|items| <= i < 0 then ResolveIn(key[1..], items[|items| + i])
          else Null
      case _ => Null
  }

  /** _resolve_path. */
  function Resolve(key: Key, data: Data): Value
  {
    if key == [] || data == map[] then Null else ResolveIn(key, Dict(data))
  }

  /** Python truthiness. */
  predicate Truthy(v: Value)
  {
    match v
    case Null => false
    case Bool(b) => b
    case Num(n) => n != 0
    case Str(s) => s != ""
    case List(items) => items != []
    case Dict(entries) => entries != map[]
  }

  /** The data of the i-th item of an each block. */
  function ItemData(data: Data, item: Value, i: nat): Data
  {
    (if item.Dict? then data + item.entries else data) + map["_item" := item, "_index" := Num(i)]
  }

  /** How values become text: inside an item (always escaped), and at the top level (by slot name too). */
  datatype Format = Format(inner: Value -> string, outer: (Key, Value) -> string)

  datatype Token =
    | Text(s: string)
    | Slot(key: Key)
    | IfOpen(key: Key)
    | IfClose
    | EachOpen(key: Key)
    | EachClose

  /** A well-nested template: a list of pieces, blocks holding a template of their own. */
  datatype Forest =
    | Nil
    | TextThen(s: string, rest: Forest)
    | SlotThen(key: Key, rest: Forest)
    | IfThen(key: Key, body: Forest, rest: Forest)
    | EachThen(key: Key, body: Forest, rest: Forest)

  function Print(f: Forest): seq<Token>
  {
    match f
    case Nil => []
    case TextThen(s, rest) => [Text(s)] + Print(rest)
    case SlotThen(key, rest) => [Slot(key)] + Print(rest)
    case IfThen(key, body, rest) => [IfOpen(key)] + Print(body) + [IfClose] + Print(rest)
    case EachThen(key, body, rest) => [EachOpen(key)] + Print(body) + [EachClose] + Print(rest)
  }

  function Join(f: Forest, g: Forest): Forest
  {
    match f
    case Nil => g
    case TextThen(s, rest) => TextThen(s, Join(rest, g))
    case SlotThen(key, rest) => SlotThen(key, Join(rest, g))
    case IfThen(key, body, rest) => IfThen(key, body, Join(rest, g))
    case EachThen(key, body, rest) => EachThen(key, body, Join(rest, g))
  }

  lemma UnfoldPiece(t: Token, rest: Forest, tail: seq<Token>)
    ensures [t] + Print(rest) + tail == [t] + (Print(rest) + tail)
  {}

  lemma UnfoldBlock(open: Token, body: Forest, close: Token, rest: Forest, tail: seq<Token>)
    ensures [open] + Print(body) + [close] + Print(rest) + tail
         == [open] + (Print(body) + ([close] + (Print(rest) + tail)))
  {}

  lemma {:induction false} PrintJoin(f: Forest, g: Forest)
    ensures Print(Join(f, g)) == Print(f) + Print(g)
  {
    match f
    case Nil =>
    case TextThen(s, rest) => PrintJoin(rest, g);
    case SlotThen(key, rest) => PrintJoin(rest, g);
    case IfThen(key, body, rest) => PrintJoin(rest, g);
    case EachThen(key, body, rest) => PrintJoin(rest, g);
  }

  lemma {:induction false} JoinNil(f: Forest)
    ensures Join(f, Nil) == f
  {
    match f
    case Nil =>
    case TextThen(s, rest) => JoinNil(rest);
    case SlotThen(key, rest) => JoinNil(rest);
    case IfThen(key, body, rest) => JoinNil(rest);
    case EachThen(key, body, rest) => JoinNil(rest);
  }

  lemma {:induction false} JoinAssociative(f: Forest, g: Forest, h: Forest)
    ensures Join(Join(f, g), h) == Join(f, Join(g, h))
  {
    match f
    case Nil =>
    case TextThen(s, rest) => JoinAssociative(rest, g, h);
    case SlotThen(key, rest) => JoinAssociative(rest, g, h);
    case IfThen(key, body, rest) => JoinAssociative(rest, g, h);
    case EachThen(key, body, rest) => JoinAssociative(rest, g, h);
  }

  // ---- Measures ----

  function Max(a: nat, b: nat): nat { if a > b then a else b }

  /** Nesting depth of if blocks. */
  function IfHeight(f: Forest): nat
  {
    match f
    case Nil => 0
    case TextThen(_, rest) => IfHeight(rest)
    case SlotThen(_, rest) => IfHeight(rest)
    case IfThen(_, body, rest) => Max(1 + IfHeight(body), IfHeight(rest))
    case EachThen(_, body, rest) => Max(IfHeight(body), IfHeight(rest))
  }

  /** Number of outermost each blocks. */
  function Outer(f: Forest): nat
  {
    match f
    case Nil => 0
    case TextThen(_, rest) => Outer(rest)
    case SlotThen(_, rest) => Outer(rest)
    case IfThen(_, body, rest) => Outer(body) + Outer(rest)
    case EachThen(_, _, rest) => 1 + Outer(rest)
  }

  function Size(f: Forest): nat
  {
    match f
    case Nil => 0
    case TextThen(_, rest) => 1 + Size(rest)
    case SlotThen(_, rest) => 1 + Size(rest)
    case IfThen(_, body, rest) => 1 + Size(body) + Size(rest)
    case EachThen(_, body, rest) => 1 + Size(body) + Size(rest)
  }

  const MAX_EACH_PER_LEVEL: nat := 30
  const MAX_IF_ROUNDS: nat := 10

  /** Every each body, at every depth, holds at most 30 each blocks on its own level. */
  predicate LevelsOk(f: Forest)
  {
    match f
    case Nil => true
    case TextThen(_, rest) => LevelsOk(rest)
    case SlotThen(_, rest) => LevelsOk(rest)
    case IfThen(_, body, rest) => LevelsOk(body) && LevelsOk(rest)
    case EachThen(_, body, rest) => Outer(body) <= MAX_EACH_PER_LEVEL && LevelsOk(body) && LevelsOk(rest)
  }

  lemma {:induction false} JoinMeasures(f: Forest, g: Forest)
    ensures IfHeight(Join(f, g)) == Max(IfHeight(f), IfHeight(g))
    ensures Outer(Join(f, g)) == Outer(f) + Outer(g)
    ensures Size(Join(f, g)) == Size(f) + Size(g)
    ensures LevelsOk(Join(f, g)) <==> LevelsOk(f) && LevelsOk(g)
  {
    match f
    case Nil =>
    case TextThen(s, rest) => JoinMeasures(rest, g);
    case SlotThen(key, rest) => JoinMeasures(rest, g);
    case IfThen(key, body, rest) => JoinMeasures(rest, g);
    case EachThen(key, body, rest) => JoinMeasures(rest, g);
  }
}
