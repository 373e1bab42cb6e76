/** Limits that are read first and written to later: the count and the insert of inject_node
    (engine/core/dynamic_dag.py), the count and the log entry of try_budget_realloc (engine/core/budget_scaler.py).
    Between the two any other caller may run. */
module InterleavedLimits {

  type Caller = nat

  /** The rows that count, and the callers that read a count below the limit and have not written yet. */
  datatype State = State(count: nat, cleared: set<Caller>)

  datatype Step = Check(caller: Caller) | Write(caller: Caller) | GiveUp(caller: Caller)

  predicate Enabled(s: State, a: Step)
  {
    a.caller in s.cleared <==> !a.Check?
  }

  function Next(s: State, a: Step, limit: nat): State
  {
    match a
    case Check(c) => if s.count < limit then s.(cleared := s.cleared + {c}) else s
    case Write(c) => State(s.count + 1, s.cleared - {c})
    case GiveUp(c) => s.(cleared := s.cleared - {c})
  }

  function After(s: State, steps: seq<Step>, limit: nat): State
  {
    if steps == [] then s else Next(After(s, steps[..|steps| - 1], limit), steps[|steps| - 1], limit)
  }

  /** A possible interleaving in which never more than width callers are between check and write. */
  ghost predicate IsRun(s: State, steps: seq<Step>, limit: nat, width: nat)
    decreases |steps|
  {
    && |After(s, steps, limit).cleared| <= width
    && (steps == [] || (IsRun(s, steps[..|steps| - 1], limit, width)
                        && Enabled(After(s, steps[..|steps| - 1], limit), steps[|steps| - 1])))
  }

  lemma {:induction false} RunKeepsBound(s: State, steps: seq<Step>, limit: nat, width: nat)
    requires width >= 1 && s.cleared == {} && s.count <= limit && IsRun(s, steps, limit, width)
    ensures var t := After(s, steps, limit); t.count + |t.cleared| <= limit + width - 1
    decreases |steps|
  {
    if steps != [] {
      RunKeepsBound(s, steps[..|steps| - 1], limit, width);
    }
  }

  function Callers(i: nat, n: nat): set<Caller>
    requires i <= n
    decreases n - i
  {
    if i == n then {} else {i} + Callers(i + 1, n)
  }

  lemma {:induction false} CallersAre(i: nat, n: nat)
    requires i <= n
    ensures |Callers(i, n)| == n - i && forall c :: c in Callers(i, n) <==> i <= c < n
    decreases n - i
  {
    if i < n { CallersAre(i + 1, n); }
  }

  /** Callers i to n - 1 are between check and write. */
  function Between(count: nat, i: nat, n: nat): (s: State)
    requires i <= n
    ensures s.count == count && |s.cleared| == n - i
  {
    CallersAre(i, n);
    State(count, Callers(i, n))
  }

  /** A possible run from s to t. */
  ghost predicate Leads(s: State, steps: seq<Step>, t: State, limit: nat, width: nat)
  {
    IsRun(s, steps, limit, width) && After(s, steps, limit) == t
  }

  ghost predicate Takes(t: State, a: Step, u: State, limit: nat)
  {
    Enabled(t, a) && Next(t, a, limit) == u
  }

  lemma OneMoreStep(s: State, steps: seq<Step>, t: State, a: Step, u: State, limit: nat, width: nat)
    requires Leads(s, steps, t, limit, width)
    requires Takes(t, a, u, limit) && |u.cleared| <= width
    ensures Leads(s, steps + [a], u, limit, width)
  {
    assert (steps + [a])[..|steps|] == steps;
  }

  lemma CheckOne(count: nat, n: nat, limit: nat)
    requires count < limit
    ensures Takes(Between(count, 0, n), Check(n), Between(count, 0, n + 1), limit)
  {
    CallersAre(0, n);
    CallersAre(0, n + 1);
    assert Callers(0, n) + {n} == Callers(0, n + 1);
  }

  lemma WriteOne(count: nat, i: nat, n: nat, limit: nat)
    requires i < n
    ensures Takes(Between(count, i, n), Write(i), Between(count + 1, i + 1, n), limit)
  {
    CallersAre(i, n);
    CallersAre(i + 1, n);
    assert Callers(i, n) - {i} == Callers(i + 1, n);
  }

  /** R is kept by every step that leaves at most width callers between check and write. */
  ghost predicate Closed(R: State -> bool, limit: nat, width: nat)
  {
    forall t, a, u :: R(t) && Takes(t, a, u, limit) && |u.cleared| <= width ==> R(u)
  }

  /** n callers all check before the first of them writes ... */
  lemma {:induction false} AllCheck(R: State -> bool, count: nat, n: nat, limit: nat, width: nat)
    requires n <= width && count < limit && Closed(R, limit, width) && R(Between(count, 0, 0))
    ensures R(Between(count, 0, n))
    decreases n
  {
    if n > 0 {
      AllCheck(R, count, n - 1, limit, width);
      CheckOne(count, n - 1, limit);
    }
  }

  /** ... and then the first m of them write. */
  lemma {:induction false} AllWrite(R: State -> bool, count: nat, n: nat, m: nat, limit: nat, width: nat)
    requires m <= n <= width && Closed(R, limit, width) && R(Between(count, 0, n))
    ensures R(Between(count + m, m, n))
    decreases m
  {
    if m > 0 {
      AllWrite(R, count, n, m - 1, limit, width);
      WriteOne(count + m - 1, m - 1, n, limit);
    }
  }

  lemma AllGetThrough(R: State -> bool, count: nat, limit: nat, width: nat)
    requires count < limit && Closed(R, limit, width) && R(Between(count, 0, 0))
    ensures R(Between(count + width, width, width))
  {
    AllCheck(R, count, width, limit, width);
    AllWrite(R, count, width, width, limit, width);
  }

  /** A run from a state with nobody in between and the limit kept. */
  ghost predicate Attains(s: State, steps: seq<Step>, limit: nat, width: nat, n: nat)
  {
    s.cleared == {} && s.count <= limit && IsRun(s, steps, limit, width) && After(s, steps, limit).count == n
  }

  ghost predicate Attained(limit: nat, width: nat, n: nat)
  {
    exists s: State, steps: seq<Step> :: Attains(s, steps, limit, width, n)
  }

  lemma NeverPastTheBound(limit: nat, width: nat, n: nat)
    requires width >= 1 && Attained(limit, width, n)
    ensures n <= limit + width - 1
  {
    var s: State, steps: seq<Step> :| Attains(s, steps, limit, width, n);
    RunKeepsBound(s, steps, limit, width);
  }

  ghost predicate Reachable(s: State, t: State, limit: nat, width: nat)
  {
    exists steps: seq<Step> :: Leads(s, steps, t, limit, width)
  }

  lemma ReachableIsClosed(s: State, limit: nat, width: nat)
    requires |s.cleared| <= width
    ensures Reachable(s, s, limit, width) && Closed(t => Reachable(s, t, limit, width), limit, width)
  {
    assert Leads(s, [], s, limit, width);
    forall t, a, u | Reachable(s, t, limit, width) && Takes(t, a, u, limit) && |u.cleared| <= width
      ensures Reachable(s, u, limit, width)
    {
      var steps: seq<Step> :| Leads(s, steps, t, limit, width);
      OneMoreStep(s, steps, t, a, u, limit, width);
    }
  }

  lemma ReachableIsAttained(s: State, t: State, limit: nat, width: nat)
    requires s.cleared == {} && s.count <= limit && Reachable(s, t, limit, width)
    ensures Attained(limit, width, t.count)
  {
    var steps: seq<Step> :| Leads(s, steps, t, limit, width);
    assert Attains(s, steps, limit, width, t.count);
  }

  lemma AllGetThroughFrom(start: State, count: nat, width: nat)
    requires start == Between(count, 0, 0)
    ensures Reachable(start, Between(count + width, width, width), count + 1, width)
  {
    ReachableIsClosed(start, count + 1, width);
    AllGetThrough(t => Reachable(start, t, count + 1, width), count, count + 1, width);
  }

  lemma BoundIsAttained(count: nat, width: nat)
    requires width >= 1
    ensures Attained(count + 1, width, count + width)
  {
    AllGetThroughFrom(Between(count, 0, 0), count, width);
    ReachableIsAttained(Between(count, 0, 0), Between(count + width, width, width), count + 1, width);
  }

  /** With at most width callers at a time between check and write, the count never passes limit + width - 1,
      and some interleaving gets it there: the limit holds exactly if callers come one at a time. */
  lemma InterleavedLimitExactly(limit: nat, width: nat)
    requires limit >= 1 && width >= 1
    ensures forall n: nat :: Attained(limit, width, n) ==> n <= limit + width - 1
    ensures Attained(limit, width, limit + width - 1)
    ensures (forall n: nat :: Attained(limit, width, n) ==> n <= limit) <==> width == 1
  {
    forall n: nat | Attained(limit, width, n) ensures n <= limit + width - 1 {
      NeverPastTheBound(limit, width, n);
    }
    BoundIsAttained(limit - 1, width);
  }
}
