/** Coverage of a chunk node: what was produced, what is missing, and bounded retries for the rest
    (engine/core/coverage.py). */
module Coverage {
  import opened StateStore
  import opened Graph

  datatype CoverageReport = CoverageReport(
    expectedCount: nat, producedCount: nat, missing: seq<Key>, needsHuman: seq<Key>, skipped: seq<Key>)
  {
    predicate IsComplete() { missing == [] && needsHuman == [] }
  }

  /** The items a retry should try again. */
  function Missing(items: Items, expected: seq<Key>): seq<Key>
  {
    Select(items, expected, {Pending, Reserved, Failed})
  }

  /** One item's turn in a retry round; succeeds says whether regenerating it would produce an artifact. */
  function RetryOne(items: Items, k: Key, succeeds: bool, maxRetries: nat): Items
  {
    if RetryCount(items, k) >= maxRetries then AfterMark(items, k)
    else if !Reservable(items, k) then items
    else if succeeds then AfterComplete(AfterReserve(items, k), k)
    else AfterFail(AfterReserve(items, k), k)
  }

  predicate Succeeds(outcomes: seq<bool>)
  {
    outcomes != [] && outcomes[0]
  }

  function Rest<T>(s: seq<T>): seq<T>
  {
    if s == [] then [] else s[1..]
  }

  function RetryAll(items: Items, missing: seq<Key>, outcomes: seq<bool>, maxRetries: nat): Items
    decreases |missing|
  {
    if missing == [] then items
    else RetryAll(RetryOne(items, missing[0], Succeeds(outcomes), maxRetries), missing[1..], Rest(outcomes), maxRetries)
  }

  class CoverageVerifier {
    const store: AtomicStateStore
    const maxRetries: nat

    constructor (store: AtomicStateStore, maxRetries: nat)
      ensures this.store == store && this.maxRetries == maxRetries
    {
      this.store := store;
      this.maxRetries := maxRetries;
    }

    /** Every expected item is counted once: produced, missing or waiting for a human; the latter two are, up
        to order, what the store lists as incomplete. */
    method Verify(expected: seq<Key>) returns (report: CoverageReport)
      ensures report.missing == Missing(store.items, expected)
      ensures report.needsHuman == Select(store.items, expected, {NeedsHuman})
      ensures report.skipped == Select(store.items, expected, {Skipped})
      ensures report.expectedCount == |expected|
      ensures report.expectedCount == report.producedCount + |report.missing| + |report.needsHuman|
      ensures report.IsComplete() <==> report.producedCount == report.expectedCount
      ensures multiset(report.missing) + multiset(report.needsHuman)
           == multiset(Select(store.items, expected, {Pending, Reserved, Failed, NeedsHuman}))
    {
      ghost var items := store.items;
      var complete: seq<Key>, missing: seq<Key>, needsHuman: seq<Key>, skipped: seq<Key> := [], [], [], [];
      for i := 0 to |expected|
        invariant complete == Select(items, expected[..i], {Complete})
        invariant missing == Missing(items, expected[..i])
        invariant needsHuman == Select(items, expected[..i], {NeedsHuman})
        invariant skipped == Select(items, expected[..i], {Skipped})
      {
        var k := expected[i];
        assert expected[..i + 1] == expected[..i] + [k];
        SelectOneMore(items, expected[..i], k, {Complete});
        SelectOneMore(items, expected[..i], k, {Pending, Reserved, Failed});
        SelectOneMore(items, expected[..i], k, {NeedsHuman});
        SelectOneMore(items, expected[..i], k, {Skipped});
        var status := if k in store.items then store.items[k].status else Pending;
        if status == Complete {
          complete := complete + [k];
        } else if status == Skipped {
          skipped := skipped + [k];
        } else if status == NeedsHuman {
          needsHuman := needsHuman + [k];
        } else {
          missing := missing + [k];
        }
      }
      assert expected[..|expected|] == expected;
      NothingLost(items, expected);
      return CoverageReport(|expected|, |complete| + |skipped|, missing, needsHuman, skipped);
    }

    /** A retry round over the listed items; the answer names those that still have no artifact. */
    method RetryMissing(missing: seq<Key>, outcomes: seq<bool>) returns (stillMissing: seq<Key>)
      modifies store
      ensures store.items == RetryAll(old(store.items), missing, outcomes, maxRetries)
      ensures stillMissing == Unresolved(old(store.items), missing, outcomes, maxRetries)
    {
      stillMissing := [];
      var rest, left := missing, outcomes;
      while rest != []
        invariant RetryAll(store.items, rest, left, maxRetries) ==
          RetryAll(old(store.items), missing, outcomes, maxRetries)
        invariant stillMissing + Unresolved(store.items, rest, left, maxRetries)
               == Unresolved(old(store.items), missing, outcomes, maxRetries)
        decreases |rest|
      {
        RegroupKeys(stillMissing, OneUnresolved(store.items, rest[0], Succeeds(left), maxRetries),
                    Unresolved(RetryOne(store.items, rest[0], Succeeds(left), maxRetries), rest[1..], Rest(left),
                               maxRetries));
        var unresolved := RetryItem(rest[0], Succeeds(left));
        if unresolved {
          stillMissing := stillMissing + [rest[0]];
        }
        rest, left := rest[1..], Rest(left);
      }
    }

    /** The body of the loop. */
    method RetryItem(k: Key, succeeds: bool) returns (unresolved: bool)
      modifies store
      ensures store.items == RetryOne(old(store.items), k, succeeds, maxRetries)
      ensures unresolved <==> StaysOpen(old(store.items), k, succeeds, maxRetries)
      ensures TurnTaken(old(store.items), store.items, k, succeeds, maxRetries)
    {
      var rc := RetryCount(store.items, k);
      if rc >= maxRetries {
        store.MarkNeedsHuman(k);
        return true;
      }
      var reserved := store.Reserve(k);
      if !reserved {
        return false;
      }
      if succeeds {
        store.CompleteItem(k);
      } else {
        store.FailItem(k);
      }
      return !succeeds;
    }
  }

  /** What one turn does to its item: with its retries used up it waits for a human, if it has a row; otherwise, if
      nobody else holds it, it is complete or failed once more; no other item changes. */
  predicate TurnTaken(items: Items, after: Items, k: Key, succeeds: bool, maxRetries: nat)
  {
    && (forall j :: j in items.Keys + after.Keys && j != k ==> j in items && j in after && after[j] == items[j])
    && (if RetryCount(items, k) >= maxRetries then
          (k in after <==> k in items) && (k in items ==> after[k] == Item(NeedsHuman, items[k].retryCount))
        else if StatusOf(items, k) in {Pending, Failed} then
          k in after && after[k] == if succeeds then Item(Complete, RetryCount(items, k))
                                    else Item(Failed, RetryCount(items, k) + 1)
        else after == items)
  }

  lemma TurnIsTaken(items: Items, k: Key, succeeds: bool, maxRetries: nat)
    ensures TurnTaken(items, RetryOne(items, k, succeeds, maxRetries), k, succeeds, maxRetries)
  {}

  lemma {:induction false} OthersUntouched(items: Items, missing: seq<Key>, outcomes: seq<bool>, maxRetries: nat,
                                           k: Key)
    requires k !in missing
    ensures var after := RetryAll(items, missing, outcomes, maxRetries);
      (k in after <==> k in items) && (k in items ==> after[k] == items[k])
    decreases |missing|
  {
    if missing != [] {
      var items' := RetryOne(items, missing[0], Succeeds(outcomes), maxRetries);
      TurnIsTaken(items, missing[0], Succeeds(outcomes), maxRetries);
      OthersUntouched(items', missing[1..], Rest(outcomes), maxRetries, k);
    }
  }

  /** The j-th of the outcomes; regenerating counts as failed when there is none. */
  predicate OutcomeAt(outcomes: seq<bool>, j: nat)
  {
    j < |outcomes| && outcomes[j]
  }

  /** A round gives every item of a list without repetitions exactly one turn, with its own outcome. */
  lemma {:induction false} EveryItemHasItsTurn(items: Items, missing: seq<Key>, outcomes: seq<bool>, maxRetries: nat,
                                               j: nat)
    requires Distinct(missing) && j < |missing|
    ensures var k, after := missing[j], RetryAll(items, missing, outcomes, maxRetries);
      && (if RetryCount(items, k) >= maxRetries then
            (k in after <==> k in items) && (k in items ==> after[k] == Item(NeedsHuman, items[k].retryCount))
          else if StatusOf(items, k) in {Pending, Failed} then
            k in after && after[k] == if OutcomeAt(outcomes, j) then Item(Complete, RetryCount(items, k))
                                      else Item(Failed, RetryCount(items, k) + 1)
          else (k in after <==> k in items) && (k in items ==> after[k] == items[k]))
    decreases |missing|
  {
    var k, items' := missing[j], RetryOne(items, missing[0], Succeeds(outcomes), maxRetries);
    TurnIsTaken(items, missing[0], Succeeds(outcomes), maxRetries);
    DistinctTail(missing);
    if j == 0 {
      OthersUntouched(items', missing[1..], Rest(outcomes), maxRetries, k);
    } else {
      assert k == missing[1..][j - 1] && k in missing[1..];
      EveryItemHasItsTurn(items', missing[1..], Rest(outcomes), maxRetries, j - 1);
    }
  }

  predicate StaysOpen(items: Items, k: Key, succeeds: bool, maxRetries: nat)
  {
    RetryCount(items, k) >= maxRetries || (Reservable(items, k) && !succeeds)
  }

  function OneUnresolved(items: Items, k: Key, succeeds: bool, maxRetries: nat): seq<Key>
  {
    if StaysOpen(items, k, succeeds, maxRetries) then [k] else []
  }

  lemma RegroupKeys(a: seq<Key>, b: seq<Key>, c: seq<Key>)
    ensures a + (b + c) == a + b + c && (b == [] ==> a + (b + c) == a + c)
  {}

  function Unresolved(items: Items, missing: seq<Key>, outcomes: seq<bool>, maxRetries: nat): seq<Key>
    decreases |missing|
  {
    if missing == [] then []
    else
      var k := missing[0];
      OneUnresolved(items, k, Succeeds(outcomes), maxRetries)
      + Unresolved(RetryOne(items, k, Succeeds(outcomes), maxRetries), missing[1..], Rest(outcomes), maxRetries)
  }

  lemma NothingLost(items: Items, expected: seq<Key>)
    ensures |expected| == |Select(items, expected, {Complete})| + |Select(items, expected, {Skipped})|
                        + |Missing(items, expected)| + |Select(items, expected, {NeedsHuman})|
    ensures multiset(Missing(items, expected)) + multiset(Select(items, expected, {NeedsHuman}))
         == multiset(Select(items, expected, {Pending, Reserved, Failed, NeedsHuman}))
  {
    SelectionsAddUp(items, expected, {Pending, Reserved, Failed}, {NeedsHuman});
    assert {Pending, Reserved, Failed} + {NeedsHuman} == {Pending, Reserved, Failed, NeedsHuman};
    SelectionsAddUp(items, expected, {Complete}, {Skipped});
    assert {Complete} + {Skipped} == {Complete, Skipped};
    DoneOrOpen(items, expected);
  }

  lemma DoneOrOpen(items: Items, expected: seq<Key>)
    ensures |Select(items, expected, {Pending, Reserved, Failed, NeedsHuman})|
          + |Select(items, expected, {Complete, Skipped})| == |expected|
  {
    var open, done := {Pending, Reserved, Failed, NeedsHuman}, {Complete, Skipped};
    SelectionsAddUp(items, expected, open, done);
    forall s: Status ensures s in open + done { EveryStatus(s); }
    AllSelected(items, expected, open + done);
  }

  lemma {:induction false} AllSelected(items: Items, expected: seq<Key>, all: set<Status>)
    requires forall s: Status :: s in all
    ensures Select(items, expected, all) == expected
  {
    if expected != [] { AllSelected(items, expected[1..], all); }
  }

  // ----- A single worker repeating verify and retry -----

  predicate Settled(items: Items, k: Key)
  {
    StatusOf(items, k) in {Complete, NeedsHuman, Skipped}
  }

  /** No retry can ever move this item: it has no row to mark, or its reservation is stuck. */
  predicate Hopeless(items: Items, k: Key, maxRetries: nat)
  {
    if k in items then items[k].status == Reserved && items[k].retryCount < maxRetries else maxRetries == 0
  }

  function Rounds(items: Items, expected: seq<Key>, plan: seq<seq<bool>>, maxRetries: nat): Items
    decreases |plan|
  {
    if plan == [] then items
    else Rounds(RetryAll(items, Missing(items, expected), plan[0], maxRetries), expected, plan[1..], maxRetries)
  }

  /** What one turn of item j can do to item k. */
  lemma TurnOnItem(items: Items, j: Key, succeeds: bool, maxRetries: nat, k: Key)
    ensures var after := RetryOne(items, j, succeeds, maxRetries);
      && (j != k ==> (k in after <==> k in items) && (k in items ==> after[k] == items[k]))
      && (Hopeless(after, k, maxRetries) <==> Hopeless(items, k, maxRetries))
      && (Settled(items, k) ==> Settled(after, k))
      && RetryCount(after, k) >= RetryCount(items, k)
      && (j == k && !Settled(items, k) && !Hopeless(items, k, maxRetries) ==>
            Settled(after, k)
            || (RetryCount(items, k) < maxRetries && RetryCount(after, k) == RetryCount(items, k) + 1))
  {}

  /** A round brings every listed item that can move a step nearer, or settles it. */
  lemma {:induction false} RoundOnItem(items: Items, missing: seq<Key>, outcomes: seq<bool>, maxRetries: nat, k: Key)
    ensures var after := RetryAll(items, missing, outcomes, maxRetries);
      && (Hopeless(after, k, maxRetries) <==> Hopeless(items, k, maxRetries))
      && (Settled(items, k) ==> Settled(after, k))
      && RetryCount(after, k) >= RetryCount(items, k)
      && (k in missing && !Hopeless(items, k, maxRetries) ==>
            Settled(after, k) || (RetryCount(items, k) < maxRetries && RetryCount(after, k) > RetryCount(items, k)))
    decreases |missing|
  {
    if missing != [] {
      TurnOnItem(items, missing[0], Succeeds(outcomes), maxRetries, k);
      RoundOnItem(RetryOne(items, missing[0], Succeeds(outcomes), maxRetries), missing[1..], Rest(outcomes),
                  maxRetries, k);
      assert k in missing <==> k == missing[0] || k in missing[1..];
    }
  }

  lemma {:induction false} RoundsOnItem(items: Items, expected: seq<Key>, plan: seq<seq<bool>>, maxRetries: nat, k: Key)
    requires k in expected
    ensures var after := Rounds(items, expected, plan, maxRetries);
      && (Hopeless(after, k, maxRetries) <==> Hopeless(items, k, maxRetries))
      && (Settled(items, k) ==> Settled(after, k))
      && (!Hopeless(items, k, maxRetries) && RetryCount(items, k) + |plan| > maxRetries && plan != [] ==>
            Settled(after, k))
    decreases |plan|
  {
    if plan != [] {
      var missing := Missing(items, expected);
      var next := RetryAll(items, missing, plan[0], maxRetries);
      Selected(items, expected, {Pending, Reserved, Failed}, k);
      RoundOnItem(items, missing, plan[0], maxRetries, k);
      RoundsOnItem(next, expected, plan[1..], maxRetries, k);
    }
  }

  lemma NothingMissing(items: Items, expected: seq<Key>)
    ensures Missing(items, expected) == [] <==> forall k :: k in expected ==> Settled(items, k)
  {
    forall k ensures k in Missing(items, expected) <==> k in expected && !Settled(items, k) {
      Selected(items, expected, {Pending, Reserved, Failed}, k);
      EveryStatus(StatusOf(items, k));
    }
    if Missing(items, expected) != [] {
      assert Missing(items, expected)[0] in Missing(items, expected);
    }
  }

  /** After max_retries + 1 rounds nothing is missing, whatever regenerating answers, exactly if no expected
      item was hopeless at the start; a hopeless item stays missing through any number of rounds. */
  lemma RetriesSettleExactly(items: Items, expected: seq<Key>, plan: seq<seq<bool>>, maxRetries: nat)
    requires |plan| > maxRetries
    ensures Missing(Rounds(items, expected, plan, maxRetries), expected) == []
       <==> forall k :: k in expected ==> !Hopeless(items, k, maxRetries)
  {
    var after := Rounds(items, expected, plan, maxRetries);
    NothingMissing(after, expected);
    forall k | k in expected ensures Settled(after, k) <==> !Hopeless(items, k, maxRetries) {
      RoundsOnItem(items, expected, plan, maxRetries, k);
    }
  }

  /** With retries switched off, an item nobody ever reserved is reported missing for ever: there is no row
      that could be marked for a human. */
  lemma ZeroRetriesNeverSettle(k: Key, plan: seq<seq<bool>>)
    ensures k in Missing(Rounds(map[], [k], plan, 0), [k])
  {
    RoundsOnItem(map[], [k], plan, 0, k);
    Selected(Rounds(map[], [k], plan, 0), [k], {Pending, Reserved, Failed}, k);
  }

  /** What a round reports as unresolved: no item is forgotten that is neither complete afterwards nor reserved
      by another worker, and of distinct items no other is listed. */
  lemma {:induction false} UnresolvedIsWhatIsLeft(items: Items, missing: seq<Key>, outcomes: seq<bool>,
                                                  maxRetries: nat, k: Key)
    requires !Settled(items, k)
    ensures k in missing && StatusOf(RetryAll(items, missing, outcomes, maxRetries), k) !in {Complete, Reserved} ==>
      k in Unresolved(items, missing, outcomes, maxRetries)
    ensures Distinct(missing) && k in Unresolved(items, missing, outcomes, maxRetries) ==>
      k in missing && StatusOf(RetryAll(items, missing, outcomes, maxRetries), k) !in {Complete, Reserved}
    decreases |missing|
  {
    if missing != [] {
      var j, succeeds, rest := missing[0], Succeeds(outcomes), missing[1..];
      var next := RetryOne(items, j, succeeds, maxRetries);
      TurnOnItem(items, j, succeeds, maxRetries, k);
      assert k in missing <==> k == j || k in rest;
      if Distinct(missing) { DistinctSplit(missing, 0); }
      if j != k || !Settled(next, k) {
        UnresolvedIsWhatIsLeft(next, rest, Rest(outcomes), maxRetries, k);
      } else if StatusOf(next, k) == Complete {
        CompleteStays(next, rest, Rest(outcomes), maxRetries, k);
      }
      if k !in rest {
        UntouchedByOthers(next, rest, Rest(outcomes), maxRetries, k);
        OnlyListedAreUnresolved(next, rest, Rest(outcomes), maxRetries, k);
      }
    }
  }

  lemma {:induction false} OnlyListedAreUnresolved(items: Items, missing: seq<Key>, outcomes: seq<bool>,
                                                   maxRetries: nat, k: Key)
    requires k !in missing
    ensures k !in Unresolved(items, missing, outcomes, maxRetries)
    decreases |missing|
  {
    if missing != [] {
      assert missing[0] in missing;
      OnlyListedAreUnresolved(RetryOne(items, missing[0], Succeeds(outcomes), maxRetries), missing[1..],
                              Rest(outcomes), maxRetries, k);
    }
  }

  lemma {:induction false} CompleteStays(items: Items, missing: seq<Key>, outcomes: seq<bool>, maxRetries: nat, k: Key)
    requires StatusOf(items, k) == Complete && RetryCount(items, k) < maxRetries
    ensures StatusOf(RetryAll(items, missing, outcomes, maxRetries), k) == Complete
    decreases |missing|
  {
    if missing != [] {
      CompleteStays(RetryOne(items, missing[0], Succeeds(outcomes), maxRetries), missing[1..], Rest(outcomes),
                    maxRetries, k);
    }
  }

  /** An item listed twice that fails once and then succeeds is reported although it is complete. */
  lemma RepeatedItemIsReported(k: Key)
    ensures k in Unresolved(map[], [k, k], [false, true], 2)
    ensures StatusOf(RetryAll(map[], [k, k], [false, true], 2), k) == Complete
  {
    var once := RetryOne(map[], k, false, 2);
    assert once == map[k := Item(Failed, 1)];
    assert [k, k][1..] == [k] && Rest([false, true]) == [true];
    assert RetryAll(once, [k], [true], 2) == RetryOne(once, k, true, 2);
  }

  lemma {:induction false} UntouchedByOthers(items: Items, missing: seq<Key>, outcomes: seq<bool>, maxRetries: nat,
                                             k: Key)
    requires k !in missing
    ensures var after := RetryAll(items, missing, outcomes, maxRetries);
      (k in after <==> k in items) && (k in items ==> after[k] == items[k])
    decreases |missing|
  {
    if missing != [] {
      assert missing[0] in missing;
      UntouchedByOthers(RetryOne(items, missing[0], Succeeds(outcomes), maxRetries), missing[1..], Rest(outcomes),
                        maxRetries, k);
    }
  }
}
