/** When the write of a version-checked writer lands: alone always, and for _transition_node with up to two writes
    of others in between (engine/core/dag_advancer.py:468-519 and the other writers of VersionedWriters). */
module WritersLand {
  import opened StateMachine
  import opened VersionedWriters

  // ---- Alone ----

  /** What a writer that arrives at this row is for: the state it writes, and whether the row is one it writes to. */
  predicate Accepts(w: Writer, row: Row)
  {
    match w
    case Transition(to, _, _) => IsValid(row.state, to)
    case CascadeRead => row.pending && !row.state.Skipped? && !row.state.Invalid?
    case BlockRead => IsValid(row.state, Blocked)
    case BudgetRead => IsValid(row.state, Suspended)
    case RetryRead => row.state.Completed? || IsValid(row.state, Ready)
    case ApproveRead => row.state.AwaitingApproval?
    case SuspendRead => row.state.InProgress?
    case ResumeRead => row.state.Suspended?
    case _ => false
  }

  function Target(w: Writer): NodeState
  {
    match w
    case Transition(to, _, _) => to
    case CascadeRead => Invalid
    case BlockRead => Blocked
    case BudgetRead | SuspendRead => Suspended
    case RetryRead | ResumeRead => Ready
    case _ => Completed
  }

  /** n steps of the i-th writer. */
  function Turns(i: nat, n: nat): seq<Action>
  {
    if n == 0 then [] else [Act(i)] + Turns(i, n - 1)
  }

  /** The row has its target state if the writer accepts it, with one version more, or two for the retry of a
      COMPLETED node, and is as it was otherwise; only the cascade clears a mark. */
  predicate RowLanded(w: Writer, row: Row, row': Row)
  {
    && row'.state == (if Accepts(w, row) then Target(w) else row.state)
    && row'.version == row.version
         + (if !Accepts(w, row) then 0 else if w.RetryRead? && row.state.Completed? then 2 else 1)
    && row'.pending == (row.pending && !w.CascadeRead?)
  }

  /** ... and the writer has finished. */
  ghost predicate Landed(w: Writer, row: Row, s: System, i: nat)
  {
    i < |s.writers| && s.writers[i] == Finished && RowLanded(w, row, s.row)
  }

  lemma OneTurn(s: System, i: nat, n: nat)
    requires i < |s.writers| && n > 0
    ensures Turns(i, n)[0] == Act(i) && Turns(i, n)[1..] == Turns(i, n - 1)
  {}

  lemma {:induction false} Rest(s: System, i: nat, n: nat)
    requires i < |s.writers| && s.writers[i] == Finished
    ensures IsRun(s, Turns(i, n)) && After(s, Turns(i, n)).row == s.row
    ensures i < |After(s, Turns(i, n)).writers| && After(s, Turns(i, n)).writers[i] == Finished
    decreases n
  {
    if n > 0 {
      OneTurn(s, i, n);
      Rest(Next(s, Act(i)), i, n - 1);
    }
  }

  /** With at least as many turns as it needs, and nobody else in between, a writer does what it is for. */
  lemma {:induction false} TurnsFinish(s: System, i: nat, n: nat)
    requires i < |s.writers| && StepsLeft(s.writers[i]) <= n
    requires s.writers[i].Transition? ==> s.writers[i].attempt < MAX_ATTEMPTS
    requires s.writers[i].TransitionReload? ==> s.writers[i].attempt < MAX_ATTEMPTS
    ensures IsRun(s, Turns(i, n))
    ensures i < |After(s, Turns(i, n)).writers| && After(s, Turns(i, n)).writers[i] == Finished
    ensures After(s, Turns(i, n)).row == Alone(s.writers[i], s.row)
    decreases n
  {
    if s.writers[i] == Finished {
      Rest(s, i, n);
    } else {
      OneTurn(s, i, n);
      WritersFinish(s.writers[i], s.row);
      TurnsFinish(Next(s, Act(i)), i, n - 1);
    }
  }

  /** The row after the writer has taken all its steps. */
  function Alone(w: Writer, row: Row): Row
    requires w.Transition? ==> w.attempt < MAX_ATTEMPTS
    requires w.TransitionReload? ==> w.attempt < MAX_ATTEMPTS
    decreases StepsLeft(w)
  {
    if w == Finished then row
    else
      WritersFinish(w, row);
      Alone(Step(w, row).0, Step(w, row).1)
  }

  lemma OneStepAlone(w: Writer, row: Row)
    requires w != Finished
    requires w.Transition? ==> w.attempt < MAX_ATTEMPTS
    requires w.TransitionReload? ==> w.attempt < MAX_ATTEMPTS
    ensures var (w', row') := Step(w, row);
      && (w'.Transition? ==> w'.attempt < MAX_ATTEMPTS) && (w'.TransitionReload? ==> w'.attempt < MAX_ATTEMPTS)
      && Alone(w, row) == Alone(w', row')
      && (w' == Finished ==> Alone(w, row) == row')
  {
    WritersFinish(w, row);
  }

  lemma TransitionLands(w: Writer, row: Row)
    requires w.Transition? && w.snap == Read(row) && w.attempt == 0
    ensures RowLanded(w, row, Alone(w, row))
  {
    OneStepAlone(w, row);
  }

  lemma TwoStepsLand(w: Writer, row: Row)
    requires w.CascadeRead? || w.BlockRead? || w.BudgetRead? || w.ApproveRead? || w.SuspendRead? || w.ResumeRead?
    ensures RowLanded(w, row, Alone(w, row))
  {
    var (w1, row1) := Step(w, row);
    OneStepAlone(w, row);
    if w1 != Finished { OneStepAlone(w1, row1); }
  }

  lemma RetryOfCompleted(row: Row)
    requires row.state.Completed?
    ensures Alone(RetryRead, row) == row.(state := Ready, version := row.version + 2)
  {
    var row2 := CompareAndSet(row, Read(row), Invalid);
    OneStepAlone(RetryRead, row);
    OneStepAlone(RetryInvalidate(Read(row)), row);
    OneStepAlone(RetryReread, row2);
    OneStepAlone(RetryWrite(Read(row2)), row2);
  }

  lemma RetryLands(row: Row)
    ensures RowLanded(RetryRead, row, Alone(RetryRead, row))
  {
    if row.state.Completed? {
      RetryOfCompleted(row);
    } else {
      OneStepAlone(RetryRead, row);
      if IsValid(row.state, Ready) { OneStepAlone(RetryWrite(Read(row)), row); }
    }
  }

  lemma AloneLands(w: Writer, row: Row)
    requires w.Transition? ==> w.snap == Read(row) && w.attempt == 0
    requires w.Transition? || w.CascadeRead? || w.BlockRead? || w.BudgetRead? || w.RetryRead? || w.ApproveRead?
      || w.SuspendRead? || w.ResumeRead?
    ensures RowLanded(w, row, Alone(w, row))
  {
    if w.Transition? {
      TransitionLands(w, row);
    } else if w.RetryRead? {
      RetryLands(row);
    } else {
      TwoStepsLand(w, row);
    }
  }

  /** A writer that arrives and takes its steps with no other action in between always lands. */
  lemma WriteLandsAlone(s: System, w: Writer)
    requires CanArrive(s, w)
    ensures var acts := [Arrive(w)] + Turns(|s.writers|, StepsLeft(w));
      IsRun(s, acts) && Landed(w, s.row, After(s, acts), |s.writers|)
  {
    var s1, turns := Next(s, Arrive(w)), Turns(|s.writers|, StepsLeft(w));
    TurnsFinish(s1, |s.writers|, StepsLeft(w));
    AloneLands(w, s.row);
    assert ([Arrive(w)] + turns)[1..] == turns;
  }

  // ---- A transition among others ----

  /** Writes of others. */
  ghost function ForeignWrites(s: System, acts: seq<Action>, i: nat): nat
    requires IsRun(s, acts)
    decreases |acts|
  {
    if acts == [] then 0
    else
      (if acts[0] != Act(i) && Next(s, acts[0]).row.version != s.row.version then 1 else 0)
      + ForeignWrites(Next(s, acts[0]), acts[1..], i)
  }

  /** Whenever the transition reloads the row, the table allows its target from there, or the row has it. */
  ghost predicate AlwaysAllowed(s: System, acts: seq<Action>, i: nat, to: NodeState)
    requires IsRun(s, acts)
    decreases |acts|
  {
    acts == [] ||
    (&& (acts[0] == Act(i) && i < |s.writers| && s.writers[i].TransitionReload? ==>
           s.row.state == to || IsValid(s.row.state, to))
     && AlwaysAllowed(Next(s, acts[0]), acts[1..], i, to))
  }

  /** At some step of the writer the row has the target already, or the writer's own write lands. */
  ghost predicate Served(s: System, acts: seq<Action>, i: nat, to: NodeState)
    requires IsRun(s, acts)
    decreases |acts|
  {
    acts != [] &&
    (|| (acts[0] == Act(i) && (s.row.state == to || OwnWrite(s.row, Next(s, acts[0]).row, to)))
     || Served(Next(s, acts[0]), acts[1..], i, to))
  }

  predicate OwnWrite(row: Row, row': Row, to: NodeState)
  {
    row'.state == to && row'.version == row.version + 1
  }

  /** How many more writes of others a transition can stand. */
  function Patience(w: Writer, row: Row): int
    requires w.Transition? || w.TransitionReload?
  {
    if w.Transition? && w.snap.version == row.version then 2 - w.attempt else 1 - w.attempt
  }

  ghost predicate UnderWay(s: System, i: nat, to: NodeState)
  {
    && Consistent(s) && i < |s.writers|
    && (s.writers[i].Transition? || s.writers[i].TransitionReload?) && s.writers[i].to == to
    && (s.writers[i].Transition? ==> IsValid(s.writers[i].snap.state, to))
  }

  lemma OthersStep(s: System, a: Action, i: nat, to: NodeState)
    requires UnderWay(s, i, to) && Enabled(s, a) && a != Act(i)
    ensures UnderWay(Next(s, a), i, to)
    ensures Patience(Next(s, a).writers[i], Next(s, a).row)
         >= Patience(s.writers[i], s.row) - (if Next(s, a).row.version != s.row.version then 1 else 0)
  {
    NextKeepsConsistent(s, a);
    assert Armed(s, s.writers[i]);
    if a.Act? { StepWritesFromTheCurrentRow(s, a.writer); }
  }

  ghost predicate StillServed(s: System, s': System, i: nat, to: NodeState)
    requires UnderWay(s, i, to)
  {
    UnderWay(s', i, to) && Patience(s'.writers[i], s'.row) >= Patience(s.writers[i], s.row)
  }

  lemma OwnStep(s: System, i: nat, to: NodeState)
    requires UnderWay(s, i, to) && Patience(s.writers[i], s.row) >= 0
    requires s.writers[i].TransitionReload? ==> s.row.state == to || IsValid(s.row.state, to)
    ensures s.row.state == to || OwnWrite(s.row, Next(s, Act(i)).row, to)
         || StillServed(s, Next(s, Act(i)), i, to)
  {
    NextKeepsConsistent(s, Act(i));
    assert Armed(s, s.writers[i]);
  }

  lemma {:induction false} ServedWithin(s: System, acts: seq<Action>, i: nat, to: NodeState)
    requires UnderWay(s, i, to) && IsRun(s, acts) && AlwaysAllowed(s, acts, i, to)
    requires ForeignWrites(s, acts, i) <= Patience(s.writers[i], s.row)
    requires i < |After(s, acts).writers| && After(s, acts).writers[i] == Finished
    ensures Served(s, acts, i, to)
    decreases |acts|
  {
    var s' := Next(s, acts[0]);
    if acts[0] == Act(i) {
      OwnStep(s, i, to);
      if s.row.state != to && !OwnWrite(s.row, s'.row, to) { ServedWithin(s', acts[1..], i, to); }
    } else {
      OthersStep(s, acts[0], i, to);
      ServedWithin(s', acts[1..], i, to);
    }
  }

  /** A transition that the table allows when it arrives, and from every state it reloads, ends with its target
      written or met, whatever else happens, as long as others write at most twice before it has finished. */
  lemma TransitionIsServed(s: System, to: NodeState, acts: seq<Action>)
    requires Consistent(s) && IsValid(s.row.state, to)
    requires var s1, i := Next(s, Arrive(Transition(to, Read(s.row), 0))), |s.writers|;
      && IsRun(s1, acts) && AlwaysAllowed(s1, acts, i, to) && ForeignWrites(s1, acts, i) <= 2
      && i < |After(s1, acts).writers| && After(s1, acts).writers[i] == Finished
    ensures Served(Next(s, Arrive(Transition(to, Read(s.row), 0))), acts, |s.writers|, to)
  {
    NextKeepsConsistent(s, Arrive(Transition(to, Read(s.row), 0)));
    ServedWithin(Next(s, Arrive(Transition(to, Read(s.row), 0))), acts, |s.writers|, to);
  }

  // ---- The third write ----

  /** A stretch of a run in which the first writer, a transition to INVALID that the table always allows, comes to
      nothing while others write n times. */
  ghost predicate Thwarts(s: System, acts: seq<Action>, n: nat)
  {
    && IsRun(s, acts) && AlwaysAllowed(s, acts, 0, Invalid)
    && ForeignWrites(s, acts, 0) == n && !Served(s, acts, 0, Invalid)
  }

  lemma ThwartCons(s: System, a: Action, acts: seq<Action>, n: nat)
    requires Enabled(s, a) && Thwarts(Next(s, a), acts, n)
    requires a == Act(0) ==> s.row.state != Invalid && !OwnWrite(s.row, Next(s, a).row, Invalid)
    requires a == Act(0) && s.writers[0].TransitionReload? ==> IsValid(s.row.state, Invalid)
    ensures Thwarts(s, [a] + acts, n + if a != Act(0) && Next(s, a).row.version != s.row.version then 1 else 0)
    ensures After(s, [a] + acts) == After(Next(s, a), acts)
  {
    assert ([a] + acts)[1..] == acts;
  }

  function Other(x: NodeState): NodeState
  {
    if x.Ready? then Blocked else Ready
  }

  /** Somebody else moves the row between READY and BLOCKED just before the write, and the writer reloads. */
  lemma RoundLost(s: System, attempt: nat, rest: seq<Action>, n: nat) returns (acts: seq<Action>)
    requires attempt < MAX_ATTEMPTS && (s.row.state.Ready? || s.row.state.Blocked?)
    requires s.writers != [] && s.writers[0] == Transition(Invalid, Read(s.row), attempt)
    requires Thwarts(AfterRound(s, attempt), rest, n)
    ensures Thwarts(s, acts, n + 1) && After(s, acts) == After(AfterRound(s, attempt), rest)
  {
    var k, w := |s.writers|, Transition(Other(s.row.state), Read(s.row), 0);
    var s1 := Next(s, Arrive(w));
    var s2 := Next(s1, Act(k));
    var s3 := Next(s2, Act(0));
    assert Next(s3, Act(0)) == AfterRound(s, attempt);
    ThwartCons(s3, Act(0), rest, n);
    ThwartCons(s2, Act(0), [Act(0)] + rest, n);
    ThwartCons(s1, Act(k), [Act(0)] + ([Act(0)] + rest), n);
    ThwartCons(s, Arrive(w), [Act(k)] + ([Act(0)] + ([Act(0)] + rest)), n + 1);
    acts := [Arrive(w)] + ([Act(k)] + ([Act(0)] + ([Act(0)] + rest)));
  }

  /** The system after such a round. */
  function AfterRound(s: System, attempt: nat): System
    requires s.writers != []
  {
    var row := s.row.(state := Other(s.row.state), version := s.row.version + 1);
    var w := if attempt + 1 >= MAX_ATTEMPTS then Finished else Transition(Invalid, Read(row), attempt + 1);
    System(row, s.writers[0 := w] + [Finished], s.history + [row.state], s.first)
  }

  /** Two is exact: with three writes of others in between, a transition the table allows throughout gives up. */
  lemma ThirdWriteDefeats(row: Row) returns (acts: seq<Action>)
    requires row.state.Ready?
    ensures var s := System(row, [Transition(Invalid, Read(row), 0)], [row.state], row.version);
      && IsRun(s, acts) && AlwaysAllowed(s, acts, 0, Invalid) && ForeignWrites(s, acts, 0) == 3
      && After(s, acts).writers != [] && After(s, acts).writers[0] == Finished
      && !Served(s, acts, 0, Invalid)
  {
    var s := System(row, [Transition(Invalid, Read(row), 0)], [row.state], row.version);
    var s1 := AfterRound(s, 0);
    var s2 := AfterRound(s1, 1);
    assert Thwarts(AfterRound(s2, 2), [], 0);
    var third := RoundLost(s2, 2, [], 0);
    var second := RoundLost(s1, 1, third, 1);
    acts := RoundLost(s, 0, second, 2);
  }
}
