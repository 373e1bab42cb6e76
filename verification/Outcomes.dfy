/** What happens to a row when its executor returns (engine/core/dag_advancer.py, _run_node_safe_inner).
    The executor itself is an environment choice: it completed the node, raised, or hit the API limit. COMPLETED
    and the suspension at the API limit are written whatever state the row is in. */
module Outcomes {
  import opened Nodes
  import opened StateMachine
  import opened AdvancePass

  datatype Outcome = Succeeded | Raised | ApiLimited

  function FailIfAllowed(n: NodeSnapshot): NodeSnapshot
  {
    if IsValid(n.state, Failed) then Moved(n, [Failed]) else n
  }

  function AfterOutcome(n: NodeSnapshot, o: Outcome): NodeSnapshot
  {
    match o
    case Succeeded => n.(state := Completed)
    case ApiLimited => n.(state := Suspended)
    case Raised =>
      var r := n.(retryCount := n.retryCount + 1);
      if r.retryCount < r.maxRetries && IsValid(r.state, Ready) then Moved(r, [Ready]) else FailIfAllowed(r)
  }

  /** What becomes of a running node: COMPLETED by success, SUSPENDED by the API limit without an attempt counted,
      and for any other failure an attempt more, READY again while attempts are left and FAILED otherwise. */
  lemma OutcomeOfRunningNode(n: NodeSnapshot, o: Outcome)
    requires n.state.InProgress?
    ensures var n' := AfterOutcome(n, o);
      && (n'.state.Completed? <==> o.Succeeded?)
      && (n'.state.Suspended? <==> o.ApiLimited?)
      && (n'.state.Ready? <==> o.Raised? && n.retryCount + 1 < n.maxRetries)
      && (n'.state.Failed? <==> o.Raised? && n.retryCount + 1 >= n.maxRetries)
      && n'.retryCount == n.retryCount + (if o.Raised? then 1 else 0)
      && n' == n.(state := n'.state, retryCount := n'.retryCount, version := n'.version)
  {}

  /** How many more executor outcomes a row can still produce. */
  function Remaining(n: NodeSnapshot): nat
  {
    var left := n.maxRetries - n.retryCount;
    match n.state
    case Completed | Skipped | Suspended | AwaitingApproval | NeedsHuman => 0
    case Failed => if left > 0 then left else 0
    case NotStarted | Ready | InProgress | Blocked | Invalid => if left > 1 then left else 1
  }

  /** The bound the retry settings promise for one node. */
  function Attempts(n: NodeSnapshot): nat
  {
    if n.maxRetries - n.retryCount > 1 then n.maxRetries - n.retryCount else 1
  }

  lemma OutcomeUsesOneUp(n: NodeSnapshot, o: Outcome)
    requires n.state.InProgress?
    ensures Remaining(AfterOutcome(n, o)) < Remaining(n)
  {}

  lemma PassAddsNone(t: Table, n: NodeSnapshot, n': NodeSnapshot)
    requires DecidedIn(t, n, n')
    ensures Remaining(n') <= Remaining(n) && n'.retryCount == n.retryCount
  {
    var depFailed: bool, running: nat :|
      (depFailed ==> !DepsDone(t, n')) && n' == Moved(n, Decide(n, DepsDone(t, n'), depFailed, running).path);
  }
}
