/** The node state machine: eleven states, one fixed transition table (engine/core/state_machine.py). */
module StateMachine {

  datatype NodeState =
    | NotStarted | Ready | InProgress | Completed | Blocked | Invalid
    | AwaitingApproval | NeedsHuman | Suspended | Failed | Skipped

  datatype NodeType = Task | Qa | Gate

  /** The row of the transition table for one source state. */
  function AllowedTransitions(from: NodeState): set<NodeState>
  {
    match from
    case NotStarted => {Ready, Blocked, Invalid, Skipped}
    case Ready => {InProgress, Blocked, Invalid}
    case InProgress => {Completed, Failed, Invalid, NeedsHuman, Suspended, AwaitingApproval, Ready}
    case Completed => {Invalid}
    case Blocked => {Ready, NotStarted, Invalid}
    case Invalid => {Ready, NotStarted, Blocked}
    case AwaitingApproval => {Completed, Invalid}
    case NeedsHuman => {InProgress, Invalid, Failed}
    case Suspended => {Ready, Invalid, Failed}
    case Failed => {Ready, Invalid}
    case Skipped => {Ready, Invalid}
  }

  predicate IsValid(from: NodeState, to: NodeState)
  {
    to in AllowedTransitions(from)
  }

  /** The states from which a state can be entered. */
  function WaysInto(to: NodeState): set<NodeState>
  {
    match to
    case NotStarted => {Blocked, Invalid}
    case Ready => {NotStarted, InProgress, Blocked, Invalid, Suspended, Failed, Skipped}
    case InProgress => {Ready, NeedsHuman}
    case Completed => {InProgress, AwaitingApproval}
    case Blocked => {NotStarted, Ready, Invalid}
    case Invalid =>
      {NotStarted, Ready, InProgress, Completed, Blocked, AwaitingApproval, NeedsHuman, Suspended, Failed, Skipped}
    case AwaitingApproval => {InProgress}
    case NeedsHuman => {InProgress}
    case Suspended => {InProgress}
    case Failed => {InProgress, NeedsHuman, Suspended}
    case Skipped => {NotStarted}
  }

  /** The table read from the other side. NOT_STARTED is entered again only after BLOCKED or INVALID, SKIPPED only
      from NOT_STARTED, and COMPLETED only by running or by approval. */
  lemma TableByTarget(from: NodeState, to: NodeState)
    ensures IsValid(from, to) <==> from in WaysInto(to)
  {}

  /** States that satisfy a dependency. */
  predicate IsDone(s: NodeState)
  {
    s.Completed? || s.Skipped?
  }

  /** A sequence of writes, starting from a state, that moves along the table only. */
  predicate LegalPath(from: NodeState, path: seq<NodeState>)
    decreases |path|
  {
    path == [] || (IsValid(from, path[0]) && LegalPath(path[0], path[1..]))
  }

  function LastState(from: NodeState, path: seq<NodeState>): NodeState
  {
    if path == [] then from else path[|path| - 1]
  }

  lemma {:induction false} LegalPathConcat(from: NodeState, p: seq<NodeState>, q: seq<NodeState>)
    requires LegalPath(from, p) && LegalPath(LastState(from, p), q)
    ensures LegalPath(from, p + q) && LastState(from, p + q) == LastState(LastState(from, p), q)
    decreases |p|
  {
    if p == [] {
      assert p + q == q;
    } else {
      LegalPathConcat(p[0], p[1..], q);
      assert (p + q)[1..] == p[1..] + q;
    }
  }
}
