/** The writers of a node row that check its version, interleaved in any order: _transition_node with its
    three attempts (engine/core/dag_advancer.py), cascade phase 2 (engine/core/cascade.py), C3, C7 and C9
    (engine/core/validation_gateway.py), and gate approval, suspend and resume (api/server.py). */
module VersionedWriters {
  import opened StateMachine

  const MAX_ATTEMPTS: nat := 3

  /** The columns of one row that the writers read and write. */
  datatype Row = Row(state: NodeState, version: nat, pending: bool)

  /** What a writer remembers from its last read. */
  datatype Snapshot = Snapshot(state: NodeState, version: nat)

  /** A writer and where it stands; every step between two awaits is atomic. */
  datatype Writer =
    | Transition(to: NodeState, snap: Snapshot, attempt: nat)
    | TransitionReload(to: NodeState, attempt: nat)
    | CascadeRead | CascadeClear | CascadeWrite(snap: Snapshot)
    | BlockRead | BlockWrite(snap: Snapshot)
    | BudgetRead | BudgetWrite(snap: Snapshot)
    | RetryRead | RetryInvalidate(snap: Snapshot) | RetryReread | RetryWrite(snap: Snapshot)
    | ApproveRead | ApproveWrite(snap: Snapshot)
    | SuspendRead | SuspendWrite(snap: Snapshot)
    | ResumeRead | ResumeWrite(snap: Snapshot)
    | Finished

  function Read(row: Row): Snapshot
  {
    Snapshot(row.state, row.version)
  }

  /** UPDATE ... SET state=to, version=version+1 WHERE version=snap.version. */
  function CompareAndSet(row: Row, snap: Snapshot, to: NodeState): Row
  {
    if row.version == snap.version then row.(state := to, version := row.version + 1) else row
  }

  /** One atomic step of a writer on the row. */
  function Step(w: Writer, row: Row): (Writer, Row)
  {
    match w
    case Transition(to, snap, attempt) =>
      if !IsValid(snap.state, to) then (Finished, row)
      else if row.version == snap.version then (Finished, CompareAndSet(row, snap, to))
      else (TransitionReload(to, attempt), row)
    case TransitionReload(to, attempt) =>
      if row.state == to || !IsValid(row.state, to) || attempt + 1 >= MAX_ATTEMPTS then (Finished, row)
      else (Transition(to, Read(row), attempt + 1), row)
    case CascadeRead =>
      if !row.pending then (Finished, row)
      else if row.state.Skipped? || !IsValid(row.state, Invalid) then (CascadeClear, row)
      else (CascadeWrite(Read(row)), row)
    case CascadeClear => (Finished, row.(pending := false))
    case CascadeWrite(snap) =>
      var row' := CompareAndSet(row, snap, Invalid);
      (Finished, if row.version == snap.version then row'.(pending := false) else row')
    case BlockRead => (if IsValid(row.state, Blocked) then BlockWrite(Read(row)) else Finished, row)
    case BlockWrite(snap) => (Finished, CompareAndSet(row, snap, Blocked))
    case BudgetRead => (if IsValid(row.state, Suspended) then BudgetWrite(Read(row)) else Finished, row)
    case BudgetWrite(snap) => (Finished, CompareAndSet(row, snap, Suspended))
    case RetryRead =>
      (if row.state.Completed? then RetryInvalidate(Read(row))
       else if IsValid(row.state, Ready) then RetryWrite(Read(row)) else Finished, row)
    case RetryInvalidate(snap) => (RetryReread, CompareAndSet(row, snap, Invalid))
    case RetryReread => (if IsValid(row.state, Ready) then RetryWrite(Read(row)) else Finished, row)
    case RetryWrite(snap) => (Finished, CompareAndSet(row, snap, Ready))
    case ApproveRead => (if row.state.AwaitingApproval? then ApproveWrite(Read(row)) else Finished, row)
    case ApproveWrite(snap) => (Finished, CompareAndSet(row, snap, Completed))
    case SuspendRead => (SuspendWrite(Read(row)), row)
    case SuspendWrite(snap) =>
      (Finished, if row.state.InProgress? then CompareAndSet(row, snap, Suspended) else row)
    case ResumeRead => (if row.state.Suspended? then ResumeWrite(Read(row)) else Finished, row)
    case ResumeWrite(snap) => (Finished, CompareAndSet(row, snap, Ready))
    case Finished => (Finished, row)
  }

  /** The snapshot and target of a writer that is about to try its UPDATE. */
  predicate IsWriting(w: Writer)
  {
    w.Transition? || w.CascadeWrite? || w.BlockWrite? || w.BudgetWrite? || w.RetryInvalidate? || w.RetryWrite?
    || w.ApproveWrite? || w.SuspendWrite? || w.ResumeWrite?
  }

  // ---- Systems of writers ----

  /** The row, the writers at work on it, and every state the row ever had: history[v - first] for version v. */
  datatype System = System(row: Row, writers: seq<Writer>, history: seq<NodeState>, first: nat)

  datatype Action =
    | Act(writer: nat)
    | Arrive(start: Writer)
    | MarkPending

  /** Writers start by reading; a transition starts from the snapshot its pass has just loaded. */
  predicate CanArrive(s: System, w: Writer)
  {
    match w
    case Transition(_, snap, attempt) => snap == Read(s.row) && attempt == 0
    case _ =>
      w.CascadeRead? || w.BlockRead? || w.BudgetRead? || w.RetryRead? || w.ApproveRead? || w.SuspendRead? ||
      w.ResumeRead?
  }

  predicate Enabled(s: System, a: Action)
  {
    match a
    case Act(i) => i < |s.writers|
    case Arrive(w) => CanArrive(s, w)
    case MarkPending => true
  }

  function Next(s: System, a: Action): System
    requires Enabled(s, a)
  {
    match a
    case Act(i) =>
      var (w', row') := Step(s.writers[i], s.row);
      System(row', s.writers[i := w'], if row'.version == s.row.version then s.history else s.history + [row'.state],
             s.first)
    case Arrive(w) => s.(writers := s.writers + [w])
    case MarkPending => s.(row := s.row.(pending := true))
  }

  predicate IsRun(s: System, acts: seq<Action>)
    decreases |acts|
  {
    acts == [] || (Enabled(s, acts[0]) && IsRun(Next(s, acts[0]), acts[1..]))
  }

  function After(s: System, acts: seq<Action>): System
    requires IsRun(s, acts)
    decreases |acts|
  {
    if acts == [] then s else After(Next(s, acts[0]), acts[1..])
  }

  // ---- What every interleaving keeps ----

  /** The snapshot was true when its version was current. */
  ghost predicate Truthful(s: System, snap: Snapshot)
  {
    s.first <= snap.version < s.first + |s.history| && s.history[snap.version - s.first] == snap.state
  }

  /** A writer about to write remembers a true snapshot from which its write is allowed by the table. */
  ghost predicate Armed(s: System, w: Writer)
  {
    match w
    case Transition(to, snap, attempt) => Truthful(s, snap) && attempt < MAX_ATTEMPTS
    case TransitionReload(to, attempt) => attempt < MAX_ATTEMPTS
    case CascadeWrite(snap) => Truthful(s, snap) && IsValid(snap.state, Invalid)
    case BlockWrite(snap) => Truthful(s, snap) && IsValid(snap.state, Blocked)
    case BudgetWrite(snap) => Truthful(s, snap) && IsValid(snap.state, Suspended)
    case RetryInvalidate(snap) => Truthful(s, snap) && snap.state.Completed?
    case RetryWrite(snap) => Truthful(s, snap) && IsValid(snap.state, Ready)
    case ApproveWrite(snap) => Truthful(s, snap) && snap.state.AwaitingApproval?
    case SuspendWrite(snap) => Truthful(s, snap)
    case ResumeWrite(snap) => Truthful(s, snap) && snap.state.Suspended?
    case _ => true
  }

  ghost predicate Consistent(s: System)
  {
    && s.history != []
    && s.row.version == s.first + |s.history| - 1
    && s.row.state == s.history[|s.history| - 1]
    && LegalPath(s.history[0], s.history[1..])
    && forall i :: 0 <= i < |s.writers| ==> Armed(s, s.writers[i])
  }

  lemma CurrentIsTruthful(s: System)
    requires Consistent(s)
    ensures Truthful(s, Read(s.row))
  {}

  /** A step either leaves state and version alone, or it is the write of a writer whose snapshot is the
      current row; that write is in the transition table and raises the version by one. */
  lemma StepWritesFromTheCurrentRow(s: System, i: nat)
    requires Consistent(s) && i < |s.writers|
    ensures var w, row, row' := s.writers[i], s.row, Step(s.writers[i], s.row).1;
      || (row'.state == row.state && row'.version == row.version)
      || (IsWriting(w) && w.snap == Read(row) && IsValid(row.state, row'.state) && row'.version == row.version + 1)
  {
    assert Armed(s, s.writers[i]);
  }

  lemma {:induction false} LegalPathSnoc(from: NodeState, path: seq<NodeState>, to: NodeState)
    requires LegalPath(from, path) && IsValid(LastState(from, path), to)
    ensures LegalPath(from, path + [to])
  {
    LegalPathConcat(from, path, [to]);
  }

  lemma ArmedSurvives(s: System, s': System, w: Writer)
    requires Armed(s, w) && s'.first == s.first && s.history <= s'.history
    ensures Armed(s', w)
  {}

  lemma StepArms(s: System, i: nat)
    requires Consistent(s) && i < |s.writers|
    ensures Armed(s, Step(s.writers[i], s.row).0)
  {
    CurrentIsTruthful(s);
    assert Armed(s, s.writers[i]);
  }

  lemma ActKeepsConsistent(s: System, i: nat)
    requires Consistent(s) && i < |s.writers|
    ensures Consistent(Next(s, Act(i)))
  {
    var s' := Next(s, Act(i));
    StepWritesFromTheCurrentRow(s, i);
    if s'.row.version != s.row.version {
      assert s.row.state == LastState(s.history[0], s.history[1..]);
      LegalPathSnoc(s.history[0], s.history[1..], s'.row.state);
      assert s'.history[1..] == s.history[1..] + [s'.row.state];
    }
    StepArms(s, i);
    forall j | 0 <= j < |s'.writers| ensures Armed(s', s'.writers[j]) {
      assert j != i ==> Armed(s, s.writers[j]);
      ArmedSurvives(s, s', s'.writers[j]);
    }
  }

  lemma NextKeepsConsistent(s: System, a: Action)
    requires Consistent(s) && Enabled(s, a)
    ensures Consistent(Next(s, a)) && s.history <= Next(s, a).history && Next(s, a).first == s.first
  {
    match a
    case Act(i) => ActKeepsConsistent(s, i);
    case Arrive(w) =>
      CurrentIsTruthful(s);
      forall j | 0 <= j < |Next(s, a).writers| ensures Armed(Next(s, a), Next(s, a).writers[j]) {
        if j < |s.writers| { assert Armed(s, s.writers[j]); }
      }
    case MarkPending =>
      forall j | 0 <= j < |s.writers| ensures Armed(Next(s, a), s.writers[j]) {
        assert Armed(s, s.writers[j]);
      }
  }

  /** Under every interleaving the stored history of a row is a path of the transition table that only grows,
      and the version is its length: it goes up by one with every state written and never otherwise. */
  lemma {:induction false} HistoryIsLegal(s: System, acts: seq<Action>)
    requires Consistent(s) && IsRun(s, acts)
    ensures var s' := After(s, acts);
      && Consistent(s') && LegalPath(s'.history[0], s'.history[1..])
      && s.history <= s'.history
      && s'.row.version - s.row.version == |s'.history| - |s.history|
    decreases |acts|
  {
    if acts != [] {
      NextKeepsConsistent(s, acts[0]);
      HistoryIsLegal(Next(s, acts[0]), acts[1..]);
    }
  }

  /** No stale write lands, then or later: once the row has moved past a writer's snapshot, its UPDATE changes
      neither state nor version whenever it is finally executed. */
  lemma StaleWriteNeverLands(s: System, acts: seq<Action>, w: Writer)
    requires Consistent(s) && IsRun(s, acts)
    requires IsWriting(w) && w.snap.version < s.row.version
    ensures var row := After(s, acts).row;
      Step(w, row).1.state == row.state && Step(w, row).1.version == row.version
  {
    HistoryIsLegal(s, acts);
  }

  /** Two writers that read the same version cannot both write: whoever acts second loses. */
  lemma OnlyOneOfTwoLands(s: System, i: nat, j: nat)
    requires Consistent(s) && i < |s.writers| && j < |s.writers| && i != j
    requires IsWriting(s.writers[i]) && IsWriting(s.writers[j])
    requires s.writers[i].snap.version == s.writers[j].snap.version
    ensures Next(s, Act(i)).row.version == s.row.version
         || Next(Next(s, Act(i)), Act(j)).row.version == Next(s, Act(i)).row.version
  {
    StepWritesFromTheCurrentRow(s, i);
    if Next(s, Act(i)).row.version != s.row.version {
      ActKeepsConsistent(s, i);
      assert Next(s, Act(i)).writers[j] == s.writers[j];
      StepWritesFromTheCurrentRow(Next(s, Act(i)), j);
    }
  }

  // ---- Every writer finishes ----

  /** Own steps a writer still needs at most, whatever the others do. */
  function StepsLeft(w: Writer): nat
  {
    match w
    case Transition(_, _, attempt) => if attempt < MAX_ATTEMPTS then 2 * (MAX_ATTEMPTS - attempt) else 1
    case TransitionReload(_, attempt) => if attempt < MAX_ATTEMPTS then 2 * (MAX_ATTEMPTS - attempt) - 1 else 1
    case RetryRead => 4
    case RetryInvalidate(_) => 3
    case RetryReread => 2
    case CascadeRead | BlockRead | BudgetRead | ApproveRead | SuspendRead | ResumeRead => 2
    case CascadeClear | CascadeWrite(_) | BlockWrite(_) | BudgetWrite(_) | RetryWrite(_) => 1
    case ApproveWrite(_) | SuspendWrite(_) | ResumeWrite(_) => 1
    case Finished => 0
  }

  /** No writer can be kept busy for ever: each of its own steps brings it closer to its end. */
  lemma WritersFinish(w: Writer, row: Row)
    requires w != Finished
    requires w.Transition? ==> w.attempt < MAX_ATTEMPTS
    ensures StepsLeft(Step(w, row).0) < StepsLeft(w) <= 6
  {}

  /** The initial state: a row at some version with no writer at work. */
  lemma FreshIsConsistent(row: Row)
    ensures Consistent(System(row, [], [row.state], row.version))
  {}
}
