/** Moving token budget between phases at run time (engine/core/budget_scaler.py, try_budget_realloc). */
module Budget {
  import opened Options

  datatype Phase = Define | Design | Build | Verify | Deliver | Other(name: string)

  const MAX_REALLOC_PER_ENGAGEMENT: nat := 2

  const DEFAULT_LIMIT := 1_000_000

  function BaseLimit(p: Phase): int
  {
    match p
    case Define => 600_000
    case Design => 900_000
    case Build => 1_200_000
    case Verify => 500_000
    case Deliver => 500_000
    case Other(_) => DEFAULT_LIMIT
  }

  /** The base budget knows the five phases only. */
  function BaseBudget(): map<Phase, int>
  {
    map p | p in {Define, Design, Build, Verify, Deliver} :: BaseLimit(p)
  }

  /** The phases asked for budget, in the order they are asked. */
  const DONORS: seq<Phase> := [Deliver, Verify, Define]

  /** What is stored for one engagement: its override, if any that parses, and how many entries the log has. */
  datatype Ledger = Ledger(stored: Option<map<Phase, int>>, reallocs: nat)

  datatype KeyError = UnknownPhase

  function LoadOverride(l: Ledger): map<Phase, int>
  {
    if l.stored.Some? then l.stored.value else BaseBudget()
  }

  function Get(m: map<Phase, int>, p: Phase, fallback: int): int
  {
    if p in m then m[p] else fallback
  }

  /** The limit a phase works under: override, else base, else the default. */
  function GetPhaseLimit(l: Ledger, p: Phase): int
  {
    Get(LoadOverride(l), p, BaseLimit(p))
  }

  function Available(l: Ledger, usage: map<Phase, int>, p: Phase): int
  {
    GetPhaseLimit(l, p) - Get(usage, p, 0)
  }

  /** int(shortage * 1.5): truncation towards zero. */
  function Transfer(shortage: int): int
  {
    if shortage >= 0 then 3 * shortage / 2 else -(3 * -shortage / 2)
  }

  /** A phase that may give: not the needy one, and more than 1.2 times the shortage left. */
  predicate CanGive(l: Ledger, usage: map<Phase, int>, need: Phase, shortage: int, p: Phase)
  {
    && (p.Deliver? || p.Verify? || p.Define?) && p != need
    && 5 * Available(l, usage, p) > 6 * shortage && Available(l, usage, p) > 0
  }

  /** The place of a giver in DONORS. */
  function Rank(p: Phase): nat
  {
    if p.Deliver? then 0 else if p.Verify? then 1 else 2
  }

  /** The giver with the most left; the one asked earlier of equals. */
  ghost predicate BestGiver(l: Ledger, usage: map<Phase, int>, need: Phase, shortage: int, p: Phase)
  {
    && CanGive(l, usage, need, shortage, p)
    && forall q :: CanGive(l, usage, need, shortage, q) ==>
         || Available(l, usage, q) < Available(l, usage, p)
         || (Available(l, usage, q) == Available(l, usage, p) && Rank(p) <= Rank(q))
  }

  ghost predicate NobodyGives(l: Ledger, usage: map<Phase, int>, need: Phase, shortage: int)
  {
    forall p :: !CanGive(l, usage, need, shortage, p)
  }

  /** The ledger after amount went from one phase to another. */
  function Moved(l: Ledger, from: Phase, to: Phase, amount: int): Ledger
  {
    var taken := LoadOverride(l)[from := GetPhaseLimit(l, from) - amount];
    Ledger(Some(taken[to := Get(taken, to, BaseLimit(to)) + amount]), l.reallocs + 1)
  }

  /** One call. A needy phase outside the base budget is only noticed once a giver is found; nothing is saved then. */
  ghost predicate Reallocates(l: Ledger, l': Ledger, usage: map<Phase, int>, need: Phase, shortage: int,
                              r: Result<bool, KeyError>)
  {
    if l.reallocs >= MAX_REALLOC_PER_ENGAGEMENT || NobodyGives(l, usage, need, shortage) then l' == l && r == Ok(false)
    else if need !in BaseBudget() then l' == l && r == Err(UnknownPhase)
    else
      && r == Ok(true)
      && exists p :: BestGiver(l, usage, need, shortage, p) && l' == Moved(l, p, need, Transfer(shortage))
  }

  class Engagement {
    var ledger: Ledger

    constructor (ledger: Ledger)
      ensures this.ledger == ledger
    {
      this.ledger := ledger;
    }

    method TryBudgetRealloc(usage: map<Phase, int>, needPhase: Phase, shortage: int) returns (r: Result<bool, KeyError>)
      modifies this
      ensures Reallocates(old(ledger), ledger, usage, needPhase, shortage, r)
    {
      if ledger.reallocs >= MAX_REALLOC_PER_ENGAGEMENT {
        return Ok(false);
      }
      var override := LoadOverride(ledger);
      var donor := FindDonor(usage, needPhase, shortage);
      if donor.None? {
        return Ok(false);
      }
      if needPhase !in BaseBudget() {
        return Err(UnknownPhase);
      }
      var transfer := Transfer(shortage);
      override := override[donor.value := Get(override, donor.value, BaseLimit(donor.value)) - transfer];
      override := override[needPhase := Get(override, needPhase, BaseLimit(needPhase)) + transfer];
      ledger := Ledger(Some(override), ledger.reallocs + 1);
      return Ok(true);
    }

    /** Scans the possible givers for the one with the most left. */
    method FindDonor(usage: map<Phase, int>, needPhase: Phase, shortage: int) returns (donor: Option<Phase>)
      ensures donor.None? ==> NobodyGives(ledger, usage, needPhase, shortage)
      ensures donor.Some? ==> BestGiver(ledger, usage, needPhase, shortage, donor.value)
    {
      donor := None;
      var donorAvailable := 0;
      for k := 0 to |DONORS|
        invariant Scanned(ledger, usage, needPhase, shortage, donor, k)
        invariant donorAvailable == if donor.Some? then Available(ledger, usage, donor.value) else 0
      {
        donor, donorAvailable := Consider(usage, needPhase, shortage, donor, donorAvailable, DONORS[k]);
      }
    }

    /** The body of the scan. */
    method Consider(usage: map<Phase, int>, needPhase: Phase, shortage: int, donor: Option<Phase>,
                    donorAvailable: int, phase: Phase)
      returns (donor': Option<Phase>, donorAvailable': int)
      requires phase.Deliver? || phase.Verify? || phase.Define?
      requires Scanned(ledger, usage, needPhase, shortage, donor, Rank(phase))
      requires donorAvailable == if donor.Some? then Available(ledger, usage, donor.value) else 0
      ensures Scanned(ledger, usage, needPhase, shortage, donor', Rank(phase) + 1)
      ensures donorAvailable' == if donor'.Some? then Available(ledger, usage, donor'.value) else 0
    {
      donor', donorAvailable' := donor, donorAvailable;
      ScanOne(ledger, usage, needPhase, shortage, donor, phase);
      if phase == needPhase {
        return;
      }
      var available := Get(LoadOverride(ledger), phase, BaseLimit(phase)) - Get(usage, phase, 0);
      if 5 * available > 6 * shortage {
        if available > donorAvailable {
          donor', donorAvailable' := Some(phase), available;
        }
      }
    }
  }

  /** The first k possible givers have been looked at, and donor is the best of them. */
  ghost predicate Scanned(l: Ledger, usage: map<Phase, int>, need: Phase, shortage: int, donor: Option<Phase>, k: nat)
  {
    if donor.Some? then BestSoFar(l, usage, need, shortage, donor.value, k)
    else forall q :: CanGive(l, usage, need, shortage, q) ==> Rank(q) >= k
  }

  lemma ScanOne(l: Ledger, usage: map<Phase, int>, need: Phase, shortage: int, donor: Option<Phase>, p: Phase)
    requires Scanned(l, usage, need, shortage, donor, Rank(p)) && (p.Deliver? || p.Verify? || p.Define?)
    ensures var better := CanGive(l, usage, need, shortage, p)
                       && (donor.Some? ==> Available(l, usage, p) > Available(l, usage, donor.value));
      Scanned(l, usage, need, shortage, if better then Some(p) else donor, Rank(p) + 1)
  {}

  ghost predicate BestSoFar(l: Ledger, usage: map<Phase, int>, need: Phase, shortage: int, p: Phase, k: nat)
  {
    && CanGive(l, usage, need, shortage, p) && Rank(p) < k
    && forall q :: CanGive(l, usage, need, shortage, q) && Rank(q) < k ==>
         || Available(l, usage, q) < Available(l, usage, p)
         || (Available(l, usage, q) == Available(l, usage, p) && Rank(p) <= Rank(q))
  }

  // ----- Conservation -----

  /** The sum of the limits of the five phases. */
  function Total(l: Ledger): int
  {
    GetPhaseLimit(l, Define) + GetPhaseLimit(l, Design) + GetPhaseLimit(l, Build)
    + GetPhaseLimit(l, Verify) + GetPhaseLimit(l, Deliver)
  }

  /** What a transfer adds to the limit of a phase. */
  function Change(from: Phase, to: Phase, amount: int, p: Phase): int
  {
    if p == to then amount else if p == from then -amount else 0
  }

  lemma LimitAfterMove(l: Ledger, from: Phase, to: Phase, amount: int, p: Phase)
    requires from != to
    ensures GetPhaseLimit(Moved(l, from, to, amount), p) == GetPhaseLimit(l, p) + Change(from, to, amount, p)
  {
    if p.Other? && l.stored.None? { assert p !in BaseBudget(); }
  }

  /** A successful call takes floor(1.5 * shortage) from exactly one other phase and gives it to the needy one. */
  lemma NeedyGainsWhatGiverLoses(l: Ledger, l': Ledger, usage: map<Phase, int>, need: Phase, shortage: int)
    returns (giver: Phase)
    requires shortage >= 0 && Reallocates(l, l', usage, need, shortage, Ok(true))
    ensures giver != need && 5 * Available(l, usage, giver) > 6 * shortage
    ensures forall p :: GetPhaseLimit(l', p) == GetPhaseLimit(l, p) + Change(giver, need, Transfer(shortage), p)
    ensures shortage <= Transfer(shortage) && 2 * Transfer(shortage) <= 3 * shortage < 2 * Transfer(shortage) + 2
    ensures 10 * Available(l', usage, giver) > -3 * shortage
    ensures Available(l', usage, giver) < 0 <==> Available(l, usage, giver) < Transfer(shortage)
    ensures l'.reallocs == l.reallocs + 1 <= MAX_REALLOC_PER_ENGAGEMENT
  {
    giver :| BestGiver(l, usage, need, shortage, giver) && l' == Moved(l, giver, need, Transfer(shortage));
    forall p ensures GetPhaseLimit(l', p) == GetPhaseLimit(l, p) + Change(giver, need, Transfer(shortage), p) {
      LimitAfterMove(l, giver, need, Transfer(shortage), p);
    }
    BufferBound(Available(l, usage, giver), shortage);
  }

  lemma BufferBound(available: int, shortage: int)
    requires shortage >= 0 && 5 * available > 6 * shortage
    ensures shortage <= Transfer(shortage) && 2 * Transfer(shortage) <= 3 * shortage < 2 * Transfer(shortage) + 2
    ensures 10 * (available - Transfer(shortage)) > -3 * shortage
  {}

  lemma CallConserves(l: Ledger, l': Ledger, usage: map<Phase, int>, need: Phase, shortage: int,
                      r: Result<bool, KeyError>)
    requires Reallocates(l, l', usage, need, shortage, r)
    ensures Total(l') == Total(l)
    ensures l'.reallocs == l.reallocs + if r == Ok(true) then 1 else 0
    ensures r == Ok(true) ==> l.reallocs < MAX_REALLOC_PER_ENGAGEMENT
  {
    if r == Ok(true) {
      var giver :| BestGiver(l, usage, need, shortage, giver) && l' == Moved(l, giver, need, Transfer(shortage));
      MoveConserves(l, giver, need, Transfer(shortage));
    }
  }

  lemma MoveConserves(l: Ledger, from: Phase, to: Phase, amount: int)
    requires from != to && !from.Other? && !to.Other?
    ensures Total(Moved(l, from, to, amount)) == Total(l)
  {
    LimitAfterMove(l, from, to, amount, Define);
    LimitAfterMove(l, from, to, amount, Design);
    LimitAfterMove(l, from, to, amount, Build);
    LimitAfterMove(l, from, to, amount, Verify);
    LimitAfterMove(l, from, to, amount, Deliver);
  }

  datatype Call = Call(usage: map<Phase, int>, need: Phase, shortage: int, r: Result<bool, KeyError>)

  ghost predicate IsRun(run: seq<Ledger>, calls: seq<Call>)
  {
    && |run| == |calls| + 1
    && forall k :: 0 <= k < |calls| ==>
         Reallocates(run[k], run[k + 1], calls[k].usage, calls[k].need, calls[k].shortage, calls[k].r)
  }

  function Granted(calls: seq<Call>): nat
  {
    if calls == [] then 0 else Granted(calls[..|calls| - 1]) + if calls[|calls| - 1].r == Ok(true) then 1 else 0
  }

  /** Over any sequence of calls, whatever the usage reported and whatever asked for, the phase limits keep
      their sum, and at most two calls move anything. */
  lemma {:induction false} RunsConserve(run: seq<Ledger>, calls: seq<Call>)
    requires IsRun(run, calls)
    ensures Total(run[|calls|]) == Total(run[0])
    ensures run[|calls|].reallocs == run[0].reallocs + Granted(calls)
    ensures Granted(calls) > 0 ==> run[0].reallocs + Granted(calls) <= 2
    decreases |calls|
  {
    if calls != [] {
      var n := |calls| - 1;
      var c := calls[n];
      RunsConserve(run[..n + 1], calls[..n]);
      assert Reallocates(run[n], run[n + 1], c.usage, c.need, c.shortage, c.r);
      CallConserves(run[n], run[n + 1], c.usage, c.need, c.shortage, c.r);
    }
  }

  /** The buffer asked of a giver (1.2 times the shortage) is smaller than what it then gives (1.5 times):
      with 13 tokens left and a shortage of 10, DELIVER ends up 2 tokens overdrawn. */
  lemma GiverCanBeOverdrawn()
    ensures var l, usage := Ledger(None, 0), map[Deliver := 499_987, Verify := 500_000, Define := 600_000];
      Reallocates(l, Moved(l, Deliver, Build, 15), usage, Build, 10, Ok(true))
      && Available(Moved(l, Deliver, Build, 15), usage, Deliver) == -2
  {
    var l, usage := Ledger(None, 0), map[Deliver := 499_987, Verify := 500_000, Define := 600_000];
    assert Available(l, usage, Deliver) == 13;
    assert BestGiver(l, usage, Build, 10, Deliver);
  }

  /** Whoever gives, no phase that may give has more left; of equals DELIVER gives before VERIFY and VERIFY before
      DEFINE; DESIGN and BUILD never give. */
  lemma WhoGives(l: Ledger, usage: map<Phase, int>, need: Phase, shortage: int, p: Phase)
    requires BestGiver(l, usage, need, shortage, p)
    ensures p in {Deliver, Verify, Define} && p != need
    ensures forall q :: q in {Deliver, Verify, Define} && q != need && CanGive(l, usage, need, shortage, q) ==>
      Available(l, usage, q) <= Available(l, usage, p)
    ensures p == Verify && CanGive(l, usage, need, shortage, Deliver) ==>
      Available(l, usage, Deliver) < Available(l, usage, Verify)
    ensures p == Define && CanGive(l, usage, need, shortage, Deliver) ==>
      Available(l, usage, Deliver) < Available(l, usage, Define)
    ensures p == Define && CanGive(l, usage, need, shortage, Verify) ==>
      Available(l, usage, Verify) < Available(l, usage, Define)
  {}
}
