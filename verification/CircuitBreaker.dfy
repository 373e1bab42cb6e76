/** The per-provider circuit breaker, each of its methods taken as one step (engine/core/circuit_breaker.py). */
module CircuitBreaker {
  import opened Options

  const FAILURE_THRESHOLD: nat := 5
  const RECOVERY_TIMEOUT := 60
  const HALF_OPEN_MAX_CALLS: nat := 3

  datatype CBState = Closed | Open | HalfOpen

  /** One row of provider_circuit_breakers; times are whole seconds. */
  datatype Breaker = Breaker(state: CBState, failureCount: nat, successCount: nat, openedAt: Option<int>, version: nat)

  const INITIAL := Breaker(Closed, 0, 0, None, 0)

  datatype Event = Check(now: int) | Success | Failure(now: int)

  function AfterCheck(b: Breaker, now: int): Breaker
  {
    if b.state.Open? && b.openedAt.Some? && now - b.openedAt.value >= RECOVERY_TIMEOUT
    then b.(state := HalfOpen, successCount := 0, version := b.version + 1)
    else b
  }

  function AfterSuccess(b: Breaker): Breaker
  {
    match b.state
    case HalfOpen =>
      if b.successCount + 1 >= HALF_OPEN_MAX_CALLS then Breaker(Closed, 0, 0, None, b.version + 1)
      else b.(successCount := b.successCount + 1, version := b.version + 1)
    case Closed => b.(failureCount := 0, successCount := 0, version := b.version + 1)
    case Open => b
  }

  function AfterFailure(b: Breaker, now: int): Breaker
  {
    var counted := b.(failureCount := b.failureCount + 1, successCount := 0, version := b.version + 1);
    if b.state.Closed? && b.failureCount + 1 >= FAILURE_THRESHOLD
    then counted.(state := Open, openedAt := Some(now))
    else counted
  }

  function Step(b: Breaker, e: Event): Breaker
  {
    match e
    case Check(now) => AfterCheck(b, now)
    case Success => AfterSuccess(b)
    case Failure(now) => AfterFailure(b, now)
  }

  /** The row after a history of events, oldest first. */
  function Run(h: seq<Event>): Breaker
  {
    if h == [] then INITIAL else Step(Run(h[..|h| - 1]), h[|h| - 1])
  }

  class CircuitBreaker {
    /** None stands for a provider without a row. */
    var row: Option<Breaker>

    constructor (row: Option<Breaker>)
      ensures this.row == row
    {
      this.row := row;
    }

    /** Asks for admission; false stands for the raised CircuitBreakerOpenError. */
    method CheckCall(now: int) returns (allowed: bool)
      modifies this
      ensures row == if old(row).Some? then Some(AfterCheck(old(row).value, now)) else None
      ensures allowed <==> row.None? || !row.value.state.Open?
    {
      var state := GetState();
      if state == Closed || state == HalfOpen {
        return true;
      }
      TryHalfOpen(now);
      state := GetState();
      return state != Open;
    }

    function GetState(): CBState
      reads this
    {
      if row.Some? then row.value.state else Closed
    }

    method TryHalfOpen(now: int)
      modifies this
      ensures row == if old(row).Some? then Some(AfterCheck(old(row).value, now)) else None
    {
      if row.None? || row.value.state != Open || row.value.openedAt.None? {
        return;
      }
      var elapsed := now - row.value.openedAt.value;
      if elapsed < RECOVERY_TIMEOUT {
        return;
      }
      row := Some(row.value.(state := HalfOpen, successCount := 0, version := row.value.version + 1));
    }

    method RecordSuccess()
      modifies this
      ensures row == if old(row).Some? then Some(AfterSuccess(old(row).value)) else None
    {
      if row.None? {
        return;
      }
      var b := row.value;
      if b.state == HalfOpen {
        var newCount := b.successCount + 1;
        if newCount >= HALF_OPEN_MAX_CALLS {
          row := Some(Breaker(Closed, 0, 0, None, b.version + 1));
        } else {
          row := Some(b.(successCount := newCount, version := b.version + 1));
        }
      } else if b.state == Closed {
        row := Some(b.(failureCount := 0, successCount := 0, version := b.version + 1));
      }
    }

    method RecordFailure(now: int) returns (state: CBState)
      modifies this
      ensures row == if old(row).Some? then Some(AfterFailure(old(row).value, now)) else None
      ensures state == if row.Some? then row.value.state else Closed
    {
      if row.None? {
        return Closed;
      }
      var b := row.value;
      var newCount, newState, openedAt := b.failureCount + 1, b.state, b.openedAt;
      if newCount >= FAILURE_THRESHOLD && b.state == Closed {
        newState, openedAt := Open, Some(now);
      }
      row := Some(Breaker(newState, newCount, 0, openedAt, b.version + 1));
      return newState;
    }
  }

  // ----- Counters against history -----

  function Failures(h: seq<Event>): nat
  {
    if h == [] then 0 else Failures(h[..|h| - 1]) + if h[|h| - 1].Failure? then 1 else 0
  }

  function Successes(h: seq<Event>): nat
  {
    if h == [] then 0 else Successes(h[..|h| - 1]) + if h[|h| - 1].Success? then 1 else 0
  }

  /** From event i on, the breaker has been in state s all the time. */
  ghost predicate Throughout(h: seq<Event>, i: nat, s: CBState)
    decreases |h|
  {
    i <= |h| && Run(h).state == s && (i < |h| ==> Throughout(h[..|h| - 1], i, s))
  }

  /** From event i on: CLOSED all the time, n failures and no success. */
  ghost predicate FailingSince(h: seq<Event>, i: nat, n: nat)
  {
    Throughout(h, i, Closed) && Successes(h[i..]) == 0 && Failures(h[i..]) == n
  }

  /** From event i on: HALF_OPEN all the time, n successes and no failure. */
  ghost predicate SucceedingSince(h: seq<Event>, i: nat, n: nat)
  {
    Throughout(h, i, HalfOpen) && Failures(h[i..]) == 0 && Successes(h[i..]) == n
  }

  ghost predicate FailedInARow(h: seq<Event>, n: nat)
  {
    exists i :: 0 <= i <= |h| && FailingSince(h, i, n)
  }

  ghost predicate SucceededInARow(h: seq<Event>, n: nat)
  {
    exists i :: 0 <= i <= |h| && SucceedingSince(h, i, n)
  }

  lemma RunOneMore(h: seq<Event>, e: Event)
    ensures Run(h + [e]) == Step(Run(h), e)
  {
    assert (h + [e])[..|h|] == h;
  }

  lemma CountOneMore(h: seq<Event>, e: Event)
    ensures Failures(h + [e]) == Failures(h) + if e.Failure? then 1 else 0
    ensures Successes(h + [e]) == Successes(h) + if e.Success? then 1 else 0
  {
    assert (h + [e])[..|h|] == h;
  }

  lemma StretchOneMore(h: seq<Event>, e: Event, i: nat)
    requires i <= |h|
    ensures Failures((h + [e])[i..]) == Failures(h[i..]) + if e.Failure? then 1 else 0
    ensures Successes((h + [e])[i..]) == Successes(h[i..]) + if e.Success? then 1 else 0
    ensures forall s :: Throughout(h + [e], i, s) <==> Throughout(h, i, s) && Run(h + [e]).state == s
  {
    assert (h + [e])[i..] == h[i..] + [e];
    CountOneMore(h[i..], e);
    assert (h + [e])[..|h|] == h;
  }

  lemma EmptyStretch(h: seq<Event>)
    ensures Failures(h[|h|..]) == 0 && Successes(h[|h|..]) == 0 && Throughout(h, |h|, Run(h).state)
  {
    assert h[|h|..] == [];
  }

  /** In CLOSED, failure_count is the length of the current run of failures: some stretch has that many,
      none has more, and it is below the threshold. */
  ghost predicate CountsFailures(h: seq<Event>)
  {
    Run(h).state.Closed? ==>
      && Run(h).failureCount < FAILURE_THRESHOLD
      && FailedInARow(h, Run(h).failureCount)
      && (forall i, n: nat :: 0 <= i <= |h| && FailingSince(h, i, n) ==> n <= Run(h).failureCount)
  }

  ghost predicate CountsSuccesses(h: seq<Event>)
  {
    Run(h).state.HalfOpen? ==>
      && Run(h).successCount < HALF_OPEN_MAX_CALLS
      && SucceededInARow(h, Run(h).successCount)
      && (forall i, n: nat :: 0 <= i <= |h| && SucceedingSince(h, i, n) ==> n <= Run(h).successCount)
  }

  lemma FailureCountStep(h: seq<Event>, e: Event)
    requires CountsFailures(h)
    ensures CountsFailures(h + [e])
  {
    var h' := h + [e];
    RunOneMore(h, e);
    if Run(h').state.Closed? {
      EmptyStretch(h');
      if Run(h).state.Closed? && !e.Success? {
        var i :| 0 <= i <= |h| && FailingSince(h, i, Run(h).failureCount);
        StretchOneMore(h, e, i);
        assert FailingSince(h', i, Run(h').failureCount);
      } else {
        assert FailingSince(h', |h'|, 0);
      }
      forall i, n: nat | 0 <= i <= |h'| && FailingSince(h', i, n) ensures n <= Run(h').failureCount {
        if i <= |h| {
          StretchOneMore(h, e, i);
          assert FailingSince(h, i, Failures(h[i..]));
        }
      }
    }
  }

  lemma SuccessCountStep(h: seq<Event>, e: Event)
    requires CountsSuccesses(h)
    ensures CountsSuccesses(h + [e])
  {
    var h' := h + [e];
    RunOneMore(h, e);
    if Run(h').state.HalfOpen? {
      EmptyStretch(h');
      if Run(h).state.HalfOpen? && !e.Failure? {
        var i :| 0 <= i <= |h| && SucceedingSince(h, i, Run(h).successCount);
        StretchOneMore(h, e, i);
        assert SucceedingSince(h', i, Run(h').successCount);
      } else {
        assert SucceedingSince(h', |h'|, 0);
      }
      forall i, n: nat | 0 <= i <= |h'| && SucceedingSince(h', i, n) ensures n <= Run(h').successCount {
        if i <= |h| {
          StretchOneMore(h, e, i);
          assert SucceedingSince(h, i, Successes(h[i..]));
        }
      }
    }
  }

  lemma {:induction false} CountersMatchHistory(h: seq<Event>)
    ensures CountsFailures(h) && CountsSuccesses(h)
    decreases |h|
  {
    if h == [] {
      EmptyStretch(h);
      assert FailingSince(h, 0, 0);
      forall i, n: nat | 0 <= i <= |h| && FailingSince(h, i, n) ensures n <= 0 { assert h[i..] == []; }
    } else {
      var front, e := h[..|h| - 1], h[|h| - 1];
      CountersMatchHistory(front);
      FailureCountStep(front, e);
      SuccessCountStep(front, e);
      assert front + [e] == h;
    }
  }

  /** From CLOSED an event opens the breaker exactly if it is a failure that completes five failures with no
      success between them, the breaker being CLOSED all along. */
  lemma OpensExactly(h: seq<Event>, e: Event)
    requires Run(h).state.Closed?
    ensures Run(h + [e]).state.Open?
       <==> e.Failure? && FailedInARow(h, 4)
  {
    CountersMatchHistory(h);
    RunOneMore(h, e);
  }

  /** From HALF_OPEN an event closes it exactly if it is a success that completes three successes with no
      failure between them, the breaker being HALF_OPEN all along. */
  lemma ClosesExactly(h: seq<Event>, e: Event)
    requires Run(h).state.HalfOpen?
    ensures Run(h + [e]).state.Closed?
       <==> e.Success? && SucceededInARow(h, 2)
  {
    CountersMatchHistory(h);
    RunOneMore(h, e);
  }

  /** The only moves are CLOSED to OPEN to HALF_OPEN to CLOSED. In particular a failure in HALF_OPEN does not
      reopen the breaker, however many there are. */
  lemma OnlyForward(b: Breaker, e: Event)
    ensures Step(b, e).state != b.state ==>
      (b.state, Step(b, e).state) in {(Closed, Open), (Open, HalfOpen), (HalfOpen, Closed)}
  {}

  lemma {:induction false} HalfOpenSurvivesFailures(h: seq<Event>, w: seq<Event>)
    requires Run(h).state.HalfOpen? && forall e :: e in w ==> !e.Success?
    ensures Run(h + w).state.HalfOpen?
    decreases |w|
  {
    if w == [] {
      assert h + w == h;
    } else {
      var front, e := w[..|w| - 1], w[|w| - 1];
      HalfOpenSurvivesFailures(h, front);
      assert h + w == h + front + [e] && e in w;
      RunOneMore(h + front, e);
    }
  }

  // ----- The recovery timeout -----

  predicate TimedBy(e: Event, now: int)
  {
    match e
    case Check(t) => t <= now
    case Failure(t) => t <= now
    case Success => true
  }

  /** Once opened at time t0, the breaker stays OPEN through any events that happen less than 60 s later. */
  lemma {:induction false} StaysOpen(h: seq<Event>, w: seq<Event>, t0: int, now: int)
    requires Run(h).state.Open? && Run(h).openedAt == Some(t0)
    requires now < t0 + RECOVERY_TIMEOUT && forall e :: e in w ==> TimedBy(e, now)
    ensures Run(h + w).state.Open? && Run(h + w).openedAt == Some(t0)
    decreases |w|
  {
    if w == [] {
      assert h + w == h;
    } else {
      var front, e := w[..|w| - 1], w[|w| - 1];
      StaysOpen(h, front, t0, now);
      assert h + w == h + front + [e] && e in w;
      RunOneMore(h + front, e);
    }
  }

  /** A failure at t0 that opens the breaker bars every call for 60 s, the clock not running backwards; and
      the first check after that, if none came in between, admits one. */
  lemma NoCallBeforeTimeout(h: seq<Event>, t0: int, w: seq<Event>, now: int)
    requires Run(h).state.Closed? && Run(h + [Failure(t0)]).state.Open?
    requires forall e :: e in w ==> TimedBy(e, now)
    ensures now < t0 + 60 ==> Run(h + [Failure(t0)] + w + [Check(now)]).state.Open?
    ensures (forall e :: e in w ==> TimedBy(e, t0 + 59)) ==>
      (Run(h + [Failure(t0)] + w + [Check(now)]).state.HalfOpen? <==> now >= t0 + 60)
  {
    var tripped := h + [Failure(t0)];
    RunOneMore(h, Failure(t0));
    RunOneMore(tripped + w, Check(now));
    if now < t0 + RECOVERY_TIMEOUT {
      StaysOpen(tripped, w, t0, now);
    } else if forall e :: e in w ==> TimedBy(e, t0 + RECOVERY_TIMEOUT - 1) {
      StaysOpen(tripped, w, t0, t0 + RECOVERY_TIMEOUT - 1);
    }
  }

  /** Every write counts one version, and nothing else does: a check that changes nothing and a success in OPEN
      write nothing. A closed breaker starts afresh, an opened one remembers when, and no other move touches that. */
  lemma WritesAreCounted(b: Breaker, e: Event)
    ensures var b' := Step(b, e);
      && (b'.version == b.version <==> b' == b) && (b' != b ==> b'.version == b.version + 1)
      && (b' == b <==> (e.Check? && b'.state == b.state) || (e.Success? && b.state.Open?))
      && (b'.state.Closed? && !b.state.Closed? ==> b'.failureCount == 0 && b'.successCount == 0 && b'.openedAt == None)
      && (b'.state.Open? && !b.state.Open? ==> e.Failure? && b'.openedAt == Some(e.now))
      && (b'.state.HalfOpen? && !b.state.HalfOpen? ==> b'.successCount == 0 && b'.failureCount == b.failureCount)
      && (b'.state == b.state ==> b'.openedAt == b.openedAt)
  {}
}
