/** Item states of one chunk node, and who may work on an item (engine/core/state_store.py). */
module StateStore {
  type Key = string

  datatype Status = Pending | Reserved | Complete | Failed | NeedsHuman | Skipped

  datatype Item = Item(status: Status, retryCount: nat)

  type Items = map<Key, Item>

  /** An item without a row counts as pending and never tried. */
  function StatusOf(items: Items, k: Key): Status
  {
    if k in items then items[k].status else Pending
  }

  function RetryCount(items: Items, k: Key): nat
  {
    if k in items then items[k].retryCount else 0
  }

  predicate Reservable(items: Items, k: Key)
  {
    StatusOf(items, k) == Pending || StatusOf(items, k) == Failed
  }

  function AfterReserve(items: Items, k: Key): Items
  {
    if Reservable(items, k) then items[k := Item(Reserved, RetryCount(items, k))] else items
  }

  function AfterComplete(items: Items, k: Key): Items
  {
    if k in items then items[k := items[k].(status := Complete)] else items
  }

  function AfterFail(items: Items, k: Key): Items
  {
    if k in items then items[k := Item(Failed, items[k].retryCount + 1)] else items
  }

  function AfterMark(items: Items, k: Key): Items
  {
    if k in items then items[k := items[k].(status := NeedsHuman)] else items
  }

  function AfterSkip(items: Items, k: Key): Items
  {
    items[k := Item(Skipped, RetryCount(items, k))]
  }

  /** The expected items whose status is one of those wanted, in order, duplicates included. */
  function Select(items: Items, expected: seq<Key>, wanted: set<Status>): seq<Key>
  {
    if expected == [] then []
    else (if StatusOf(items, expected[0]) in wanted then [expected[0]] else []) + Select(items, expected[1..], wanted)
  }

  lemma EveryStatus(s: Status)
    ensures s in {Pending, Reserved, Failed} <==> s !in {Complete, NeedsHuman, Skipped}
    ensures s in {Pending, Reserved, Failed, NeedsHuman} <==> s !in {Complete, Skipped}
  {}

  lemma {:induction false} Selected(items: Items, expected: seq<Key>, wanted: set<Status>, k: Key)
    ensures k in Select(items, expected, wanted) <==> k in expected && StatusOf(items, k) in wanted
  {
    if expected != [] {
      Selected(items, expected[1..], wanted, k);
      assert expected == [expected[0]] + expected[1..];
    }
  }

  lemma {:induction false} SelectOneMore(items: Items, front: seq<Key>, k: Key, wanted: set<Status>)
    ensures Select(items, front + [k], wanted)
         == Select(items, front, wanted) + if StatusOf(items, k) in wanted then [k] else []
  {
    if front == [] {
      assert front + [k] == [k];
    } else {
      SelectOneMore(items, front[1..], k, wanted);
      assert (front + [k])[1..] == front[1..] + [k];
    }
  }

  /** Disjoint selections share out the expected list: no item is lost or counted twice. */
  lemma {:induction false} SelectionsAddUp(items: Items, expected: seq<Key>, a: set<Status>, b: set<Status>)
    requires a !! b
    ensures multiset(Select(items, expected, a)) + multiset(Select(items, expected, b))
         == multiset(Select(items, expected, a + b))
    ensures |Select(items, expected, a)| + |Select(items, expected, b)| == |Select(items, expected, a + b)|
  {
    if expected != [] {
      SelectionsAddUp(items, expected[1..], a, b);
    }
  }

  class AtomicStateStore {
    var items: Items

    constructor (items: Items)
      ensures this.items == items
    {
      this.items := items;
    }

    /** A locked read-modify-write: true for a new item and for one that is pending or failed. */
    method Reserve(k: Key) returns (ok: bool)
      modifies this
      ensures ok <==> StatusOf(old(items), k) in {Pending, Failed}
      ensures items == AfterReserve(old(items), k)
      ensures ok ==> k in items && items[k].status == Reserved && items[k].retryCount == RetryCount(old(items), k)
      ensures !ok ==> items == old(items)
    {
      if k in items {
        var status := items[k].status;
        if status == Reserved || status == Complete {
          return false;
        }
        if status == Failed || status == Pending {
          items := items[k := items[k].(status := Reserved)];
          return true;
        }
        return false;
      }
      items := items[k := Item(Reserved, 0)];
      return true;
    }

    method CompleteItem(k: Key)
      modifies this
      ensures items == AfterComplete(old(items), k)
      ensures k in items <==> k in old(items)
      ensures k in items ==> items[k] == Item(Complete, old(items)[k].retryCount)
    {
      if k in items { items := items[k := items[k].(status := Complete)]; }
    }

    method FailItem(k: Key)
      modifies this
      ensures items == AfterFail(old(items), k)
      ensures k in items <==> k in old(items)
      ensures k in items ==> items[k] == Item(Failed, old(items)[k].retryCount + 1)
    {
      if k in items { items := items[k := items[k].(status := Failed, retryCount := items[k].retryCount + 1)]; }
    }

    method MarkNeedsHuman(k: Key)
      modifies this
      ensures items == AfterMark(old(items), k)
      ensures k in items <==> k in old(items)
      ensures k in items ==> items[k] == Item(NeedsHuman, old(items)[k].retryCount)
    {
      if k in items { items := items[k := items[k].(status := NeedsHuman)]; }
    }

    method MarkSkipped(k: Key)
      modifies this
      ensures items == AfterSkip(old(items), k)
      ensures k in items && items[k] == Item(Skipped, RetryCount(old(items), k))
    {
      if k in items {
        items := items[k := items[k].(status := Skipped)];
      } else {
        items := items[k := Item(Skipped, 0)];
      }
    }

    /** Everything expected that is neither complete nor skipped. */
    method ListIncomplete(expected: seq<Key>) returns (result: seq<Key>)
      ensures result == Select(items, expected, {Pending, Reserved, Failed, NeedsHuman})
    {
      result := [];
      var done := set k | k in items && items[k].status in {Complete, Skipped};
      for i := 0 to |expected|
        invariant result == Select(items, expected[..i], {Pending, Reserved, Failed, NeedsHuman})
      {
        SelectOneMore(items, expected[..i], expected[i], {Pending, Reserved, Failed, NeedsHuman});
        assert expected[..i + 1] == expected[..i] + [expected[i]];
        EveryStatus(StatusOf(items, expected[i]));
        assert expected[i] in done <==> StatusOf(items, expected[i]) in {Complete, Skipped};
        if expected[i] !in done {
          result := result + [expected[i]];
        }
      }
      assert expected[..|expected|] == expected;
    }
  }

  // ----- Any number of workers, any interleaving -----

  datatype Claim = Claim(worker: nat, item: Key)

  /** One atomic statement of a worker, of the coverage check or of an operator. */
  datatype Action =
    | Take(worker: nat, item: Key)
    | Finish(worker: nat, item: Key)
    | GiveUp(worker: nat, item: Key)
    | Mark(item: Key)
    | Skip(item: Key)

  /** The rows, who was told true by reserve and has not reported back, and how often each item was completed. */
  datatype World = World(items: Items, held: set<Claim>, completed: multiset<Key>)

  /** Workers complete or fail only what they reserved; marking and skipping are free. */
  predicate Allowed(s: World, a: Action)
  {
    match a
    case Finish(w, k) => Claim(w, k) in s.held
    case GiveUp(w, k) => Claim(w, k) in s.held
    case Take(_, _) => true
    case Mark(_) => true
    case Skip(_) => true
  }

  function Next(s: World, a: Action): World
  {
    match a
    case Take(w, k) =>
      World(AfterReserve(s.items, k), if Reservable(s.items, k) then s.held + {Claim(w, k)} else s.held, s.completed)
    case Finish(w, k) => World(AfterComplete(s.items, k), s.held - {Claim(w, k)}, s.completed + multiset{k})
    case GiveUp(w, k) => World(AfterFail(s.items, k), s.held - {Claim(w, k)}, s.completed)
    case Mark(k) => s.(items := AfterMark(s.items, k))
    case Skip(k) => s.(items := AfterSkip(s.items, k))
  }

  ghost predicate IsHistory(s: World, actions: seq<Action>)
    decreases |actions|
  {
    actions == [] || (Allowed(s, actions[0]) && IsHistory(Next(s, actions[0]), actions[1..]))
  }

  function After(s: World, actions: seq<Action>): World
    decreases |actions|
  {
    if actions == [] then s else After(Next(s, actions[0]), actions[1..])
  }

  ghost predicate HeldByOne(s: World)
  {
    forall c, d :: c in s.held && d in s.held && c.item == d.item ==> c == d
  }

  ghost predicate CompletedOnce(s: World)
  {
    forall k :: s.completed[k] <= 1
  }

  /** An item has one holder at most, was completed once at most, and while it is held or once it was
      completed it cannot be reserved. */
  ghost predicate OwnedItem(s: World, k: Key)
  {
    && (forall v, w :: Claim(v, k) in s.held && Claim(w, k) in s.held ==> v == w)
    && (forall w :: Claim(w, k) in s.held ==>
          StatusOf(s.items, k) in {Reserved, NeedsHuman, Skipped} && s.completed[k] == 0)
    && s.completed[k] <= 1
    && (s.completed[k] == 1 ==> StatusOf(s.items, k) in {Complete, NeedsHuman, Skipped})
  }

  ghost predicate Owned(s: World)
  {
    forall k :: OwnedItem(s, k)
  }

  lemma StepOnOtherItem(s: World, a: Action, k: Key)
    requires OwnedItem(s, k) && a.item != k
    ensures OwnedItem(Next(s, a), k)
  {
    var s' := Next(s, a);
    assert StatusOf(s'.items, k) == StatusOf(s.items, k) && s'.completed[k] == s.completed[k];
    assert forall w :: Claim(w, k) in s'.held <==> Claim(w, k) in s.held;
  }

  lemma StepOnItem(s: World, a: Action)
    requires OwnedItem(s, a.item) && Allowed(s, a)
    ensures OwnedItem(Next(s, a), a.item)
  {
    match a
    case Take(w, k) =>
    case Finish(w, k) => assert forall v :: Claim(v, k) in s.held ==> v == w;
    case GiveUp(w, k) => assert forall v :: Claim(v, k) in s.held ==> v == w;
    case Mark(k) =>
    case Skip(k) =>
  }

  lemma StepKeepsOwnership(s: World, a: Action)
    requires Owned(s) && Allowed(s, a)
    ensures Owned(Next(s, a))
  {
    forall k ensures OwnedItem(Next(s, a), k) {
      assert OwnedItem(s, k);
      if k == a.item { StepOnItem(s, a); } else { StepOnOtherItem(s, a, k); }
    }
  }

  lemma OwnedMeansOne(s: World)
    requires Owned(s)
    ensures HeldByOne(s) && CompletedOnce(s)
  {
    forall c, d | c in s.held && d in s.held && c.item == d.item ensures c == d {
      assert OwnedItem(s, c.item) && Claim(c.worker, c.item) in s.held && Claim(d.worker, c.item) in s.held;
    }
    forall k ensures s.completed[k] <= 1 { assert OwnedItem(s, k); }
  }

  /** Whatever rows the workers start from and however their statements interleave with marking and skipping,
      no item is ever held by two workers and none is completed twice. */
  lemma {:induction false} OneHolderOneCompletion(s: World, actions: seq<Action>)
    requires Owned(s) && IsHistory(s, actions)
    ensures HeldByOne(After(s, actions)) && CompletedOnce(After(s, actions)) && Owned(After(s, actions))
    decreases |actions|
  {
    if actions == [] {
      OwnedMeansOne(s);
    } else {
      StepKeepsOwnership(s, actions[0]);
      OneHolderOneCompletion(Next(s, actions[0]), actions[1..]);
    }
  }

  lemma FreshIsOwned(items: Items)
    ensures Owned(World(items, {}, multiset{}))
  {}

  /** A completed item stays COMPLETE exactly until someone marks or skips it: a coverage check that read the
      retry count before the item was completed overwrites the success with NEEDS_HUMAN. */
  lemma CompletionIsKeptExactly(s: World, a: Action, k: Key)
    requires Owned(s) && Allowed(s, a) && StatusOf(s.items, k) == Complete
    ensures StatusOf(Next(s, a).items, k) == Complete <==> a != Mark(k) && a != Skip(k)
  {
    assert OwnedItem(s, k);
  }
}
