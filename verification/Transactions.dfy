/** The re-entrant lock and the shared SQLite connection behind it (engine/db/adapter.py): any number of
    tasks, interleaved at every await. */
module Transactions {
  import opened Options

  type Task = nat
  type Statement = string

  // ---- The lock ----

  /** owner, count, and whether the inner asyncio lock is taken. */
  datatype Lock = Lock(owner: Option<Task>, count: nat, inner: bool)

  /** acquire() as far as it does not block: None while another task holds the inner lock. */
  function Acquired(l: Lock, t: Task): Option<Lock>
  {
    if l.owner == Some(t) then Some(l.(count := l.count + 1))
    else if l.inner then None
    else Some(Lock(Some(t), 1, true))
  }

  /** release(): None stands for the RuntimeError of a task that is not the owner. */
  function Released(l: Lock, t: Task): Option<Lock>
  {
    if l.owner != Some(t) then None
    else if l.count <= 1 then Some(Lock(None, 0, false))
    else Some(l.(count := l.count - 1))
  }

  class AsyncRLock {
    var owner: Option<Task>
    var count: nat
    var inner: bool

    ghost function View(): Lock
      reads this
    {
      Lock(owner, count, inner)
    }

    ghost predicate Valid()
      reads this
    {
      (owner.Some? <==> inner) && (owner.Some? <==> count > 0)
    }

    constructor ()
      ensures View() == Lock(None, 0, false) && Valid()
    {
      owner, count, inner := None, 0, false;
    }

    /** False: the caller has to wait, nothing changed. */
    method Acquire(current: Task) returns (granted: bool)
      requires Valid()
      modifies this
      ensures Valid()
      ensures granted <==> Acquired(old(View()), current).Some?
      ensures View() == if granted then Acquired(old(View()), current).value else old(View())
    {
      if owner == Some(current) {
        count := count + 1;
        return true;
      }
      if inner {
        return false;
      }
      inner := true;
      owner := Some(current);
      count := 1;
      return true;
    }

    /** False: the RuntimeError, nothing changed. */
    method Release(current: Task) returns (ok: bool)
      requires Valid()
      modifies this
      ensures Valid()
      ensures ok <==> Released(old(View()), current).Some?
      ensures View() == if ok then Released(old(View()), current).value else old(View())
    {
      if owner != Some(current) {
        return false;
      }
      count := count - 1;
      if count == 0 {
        owner := None;
        inner := false;
      }
      return true;
    }
  }

  // ---- The connection and the tasks ----

  /** One lock hold of a task: a statement call (run or not yet run), or an open begin_immediate block. */
  datatype Frame = Call(done: bool) | Block

  /** The shared connection: autocommit, or inside BEGIN with the database to go back to. */
  datatype Conn<D> = Auto(db: D) | InTx(saved: D, current: D)

  /** What reached the connection, in order. */
  datatype Op =
    | Begin(task: Task)
    | Run(task: Task, stmt: Statement)
    | Commit(task: Task)
    | Rollback(task: Task)
    | Script(task: Task, stmt: Statement)

  datatype System<D> = System(lock: Lock, frames: map<Task, seq<Frame>>, conn: Conn<D>, log: seq<Op>)

  datatype Action =
    | EnterCall(task: Task)
    | RunStatement(task: Task, stmt: Statement)
    | LeaveCall(task: Task)
    | EnterBlock(task: Task)
    | CommitBlock(task: Task)
    | RollbackBlock(task: Task)
    /** The block is left by an exception that "except Exception" does not catch, such as a cancellation. */
    | AbandonBlock(task: Task)
    /** executescript: under the lock, commits whatever is open, then runs its text in autocommit. */
    | RunScript(task: Task, stmt: Statement)

  function FramesOf<D>(s: System<D>, t: Task): seq<Frame>
  {
    if t in s.frames then s.frames[t] else []
  }

  function Top(fs: seq<Frame>): Option<Frame>
  {
    if fs == [] then None else Some(fs[|fs| - 1])
  }

  predicate Enabled<D>(s: System<D>, a: Action)
  {
    var fs := FramesOf(s, a.task);
    match a
    case EnterCall(t) => Acquired(s.lock, t).Some? && (fs == [] || Top(fs) == Some(Block))
    case RunStatement(t, _) => Top(fs) == Some(Call(false))
    case LeaveCall(t) => Top(fs).Some? && Top(fs).value.Call? && Released(s.lock, t).Some?
    case EnterBlock(t) => Acquired(s.lock, t).Some? && (fs == [] || Top(fs) == Some(Block))
    case CommitBlock(t) => Top(fs) == Some(Block) && Released(s.lock, t).Some?
    case RollbackBlock(t) => Top(fs) == Some(Block) && Released(s.lock, t).Some?
    case AbandonBlock(t) => Top(fs) == Some(Block) && Released(s.lock, t).Some?
    case RunScript(t, _) => Acquired(s.lock, t).Some? && (fs == [] || Top(fs) == Some(Block))
  }

  function Push<D>(s: System<D>, t: Task, f: Frame): System<D>
    requires Acquired(s.lock, t).Some?
  {
    s.(lock := Acquired(s.lock, t).value, frames := s.frames[t := FramesOf(s, t) + [f]])
  }

  function Pop<D>(s: System<D>, t: Task): System<D>
    requires Released(s.lock, t).Some? && FramesOf(s, t) != []
  {
    var fs := FramesOf(s, t);
    s.(lock := Released(s.lock, t).value, frames := s.frames[t := fs[..|fs| - 1]])
  }

  function Execute<D>(apply: (D, Statement) -> D, c: Conn<D>, stmt: Statement): Conn<D>
  {
    match c
    case Auto(db) => Auto(apply(db, stmt))
    case InTx(saved, current) => InTx(saved, apply(current, stmt))
  }

  /** What a reader of the connection sees. */
  function Current<D>(c: Conn<D>): D
  {
    if c.Auto? then c.db else c.current
  }

  /** BEGIN inside a transaction is refused by SQLite before the block is entered, and COMMIT or ROLLBACK
      without one fails; both leave the connection as it is. */
  function Next<D>(apply: (D, Statement) -> D, s: System<D>, a: Action): System<D>
    requires Enabled(s, a)
  {
    match a
    case EnterCall(t) => Push(s, t, Call(false))
    case RunStatement(t, stmt) =>
      var fs := FramesOf(s, t);
      s.(conn := Execute(apply, s.conn, stmt), log := s.log + [Run(t, stmt)],
         frames := s.frames[t := fs[..|fs| - 1] + [Call(true)]])
    case LeaveCall(t) => Pop(s, t)
    case EnterBlock(t) =>
      if s.conn.InTx? then s
      else Push(s, t, Block).(conn := InTx(s.conn.db, s.conn.db), log := s.log + [Begin(t)])
    case CommitBlock(t) =>
      if s.conn.Auto? then Pop(s, t)
      else Pop(s, t).(conn := Auto(s.conn.current), log := s.log + [Commit(t)])
    case RollbackBlock(t) =>
      if s.conn.Auto? then Pop(s, t)
      else Pop(s, t).(conn := Auto(s.conn.saved), log := s.log + [Rollback(t)])
    case AbandonBlock(t) => Pop(s, t)
    case RunScript(t, stmt) => s.(conn := Auto(apply(Current(s.conn), stmt)), log := s.log + [Script(t, stmt)])
  }

  predicate IsRun<D(!new)>(apply: (D, Statement) -> D, s: System<D>, acts: seq<Action>)
    decreases |acts|
  {
    acts == [] || (Enabled(s, acts[0]) && IsRun(apply, Next(apply, s, acts[0]), acts[1..]))
  }

  function After<D(!new)>(apply: (D, Statement) -> D, s: System<D>, acts: seq<Action>): System<D>
    requires IsRun(apply, s, acts)
    decreases |acts|
  {
    if acts == [] then s else After(apply, Next(apply, s, acts[0]), acts[1..])
  }

  // ---- The lock under every interleaving ----

  /** Only the owner holds frames, one lock count each, and the inner lock is taken exactly while there is an owner. */
  ghost predicate LockConsistent<D>(s: System<D>)
  {
    && (s.lock.owner.Some? <==> s.lock.inner) && (s.lock.owner.None? ==> s.lock.count == 0)
    && (forall t: Task :: FramesOf(s, t) != [] <==> s.lock.owner == Some(t))
    && (s.lock.owner.Some? ==> s.lock.count == |FramesOf(s, s.lock.owner.value)|)
  }

  lemma LockStaysConsistent<D>(apply: (D, Statement) -> D, s: System<D>, a: Action)
    requires LockConsistent(s) && Enabled(s, a)
    ensures LockConsistent(Next(apply, s, a))
  {
    var s', t := Next(apply, s, a), a.task;
    forall x: Task ensures x != t ==> FramesOf(s', x) == FramesOf(s, x) {}
  }

  // ---- What the tasks believe, and what the database is ----

  /** The statements of t since its own last unfinished BEGIN, looking at t's operations only. */
  function Pending(log: seq<Op>, t: Task): Option<seq<Statement>>
  {
    if log == [] then None else
      var op, before := log[|log| - 1], Pending(log[..|log| - 1], t);
      if op.task == t then PendingAfter(before, op) else before
  }

  function PendingAfter(before: Option<seq<Statement>>, op: Op): Option<seq<Statement>>
  {
    match op
    case Begin(_) => Some([])
    case Run(_, stmt) => if before.Some? then Some(before.value + [stmt]) else None
    case Commit(_) => None
    case Rollback(_) => None
    case Script(_, _) => before
  }

  /** The committed blocks in the order they finished, each as its own task issued it; a statement outside
      a block is a block by itself. */
  function Blocks(log: seq<Op>): seq<seq<Statement>>
  {
    if log == [] then [] else
      Blocks(log[..|log| - 1]) + Completed(log[..|log| - 1], log[|log| - 1])
  }

  /** The block, if any, that an operation completes. */
  function Completed(log: seq<Op>, op: Op): seq<seq<Statement>>
  {
    match op
    case Run(t, stmt) => if Pending(log, t).None? then [[stmt]] else []
    case Commit(t) => if Pending(log, t).Some? then [Pending(log, t).value] else []
    case Script(_, stmt) => [[stmt]]
    case _ => []
  }

  function RunAll<D>(apply: (D, Statement) -> D, db: D, stmts: seq<Statement>): D
  {
    if stmts == [] then db else apply(RunAll(apply, db, stmts[..|stmts| - 1]), stmts[|stmts| - 1])
  }

  /** The blocks executed one after another. */
  function RunSerially<D>(apply: (D, Statement) -> D, db: D, blocks: seq<seq<Statement>>): D
  {
    if blocks == [] then db
    else RunAll(apply, RunSerially(apply, db, blocks[..|blocks| - 1]), blocks[|blocks| - 1])
  }

  lemma RunSeriallySnoc<D>(apply: (D, Statement) -> D, db: D, blocks: seq<seq<Statement>>, b: seq<Statement>)
    ensures RunSerially(apply, db, blocks + [b]) == RunAll(apply, RunSerially(apply, db, blocks), b)
  {
    assert (blocks + [b])[..|blocks|] == blocks;
  }

  lemma RunAllSnoc<D>(apply: (D, Statement) -> D, db: D, stmts: seq<Statement>, x: Statement)
    ensures RunAll(apply, db, stmts + [x]) == apply(RunAll(apply, db, stmts), x)
  {
    assert (stmts + [x])[..|stmts|] == stmts;
  }

  /** A transaction is open exactly while the lock owner is inside its block, which is its outermost hold. */
  ghost predicate Disciplined<D>(s: System<D>)
  {
    && (s.conn.InTx? <==> exists t: Task :: Block in FramesOf(s, t))
    && (forall t: Task, i: int :: 0 < i < |FramesOf(s, t)| ==> FramesOf(s, t)[i] != Block)
  }

  /** The database is the serial execution of the committed blocks; an open transaction adds its owner's
      pending statements and nobody else has any. */
  ghost predicate Serial<D>(apply: (D, Statement) -> D, init: D, s: System<D>)
  {
    var base := RunSerially(apply, init, Blocks(s.log));
    && (forall t: Task :: Pending(s.log, t).Some? <==> Block in FramesOf(s, t))
    && match s.conn
       case Auto(db) => db == base
       case InTx(saved, current) =>
         saved == base && forall t: Task :: Pending(s.log, t).Some? ==>
           current == RunAll(apply, base, Pending(s.log, t).value)
  }

  /** While a task's block is pending, every operation on the connection is that task's, and none is a script. */
  ghost predicate Contiguous(log: seq<Op>)
  {
    forall k, t: Task :: 0 <= k < |log| && Pending(log[..k], t).Some? ==> log[k].task == t && !log[k].Script?
  }

  ghost predicate Sound<D(!new)>(apply: (D, Statement) -> D, init: D, s: System<D>)
  {
    LockConsistent(s) && Disciplined(s) && Serial(apply, init, s) && Contiguous(s.log)
  }

  lemma ContiguousSnoc(log: seq<Op>, op: Op)
    requires Contiguous(log) && forall t: Task :: Pending(log, t).Some? ==> op.task == t && !op.Script?
    ensures Contiguous(log + [op])
  {
    var next := log + [op];
    forall k, t: Task | 0 <= k < |next| && Pending(next[..k], t).Some? ensures next[k].task == t && !next[k].Script? {
      if k < |log| {
        assert next[..k] == log[..k];
      } else {
        assert next[..k] == log;
      }
    }
  }

  lemma PendingSnoc(log: seq<Op>, op: Op, t: Task)
    ensures Pending(log + [op], t) == if op.task == t then PendingAfter(Pending(log, t), op) else Pending(log, t)
  {
    assert (log + [op])[..|log|] == log;
  }

  lemma BlocksSnoc(log: seq<Op>, op: Op)
    ensures Blocks(log + [op]) == Blocks(log) + Completed(log, op)
  {
    assert (log + [op])[..|log|] == log;
  }

  /** Only the lock owner can have its block among its frames, and then as the outermost one. */
  lemma OwnerHasTheBlock<D>(s: System<D>, t: Task)
    requires LockConsistent(s) && Disciplined(s) && FramesOf(s, t) != []
    ensures s.conn.InTx? <==> FramesOf(s, t)[0] == Block
    ensures forall x: Task :: x != t ==> FramesOf(s, x) == []
    ensures Block in FramesOf(s, t) <==> FramesOf(s, t)[0] == Block
  {
    assert s.lock.owner == Some(t);
    if s.conn.InTx? {
      var x: Task :| Block in FramesOf(s, x);
      assert x == t;
    }
  }

  /** Leaving a block leaves no frame anywhere. */
  lemma PopBlock<D>(s: System<D>, t: Task)
    requires LockConsistent(s) && Disciplined(s) && Top(FramesOf(s, t)) == Some(Block) && Released(s.lock, t).Some?
    ensures FramesOf(s, t) == [Block] && s.conn.InTx?
    ensures Pop(s, t).lock == Lock(None, 0, false)
    ensures forall x: Task :: FramesOf(Pop(s, t), x) == []
  {
    OwnerHasTheBlock(s, t);
    var fs := FramesOf(s, t);
    assert fs[|fs| - 1] == Block;
    assert fs == [Block];
    forall x: Task ensures FramesOf(Pop(s, t), x) == [] {
      if x != t { assert FramesOf(Pop(s, t), x) == FramesOf(s, x); }
    }
  }

  lemma EnterCallIsSound<D(!new)>(apply: (D, Statement) -> D, init: D, s: System<D>, t: Task)
    requires Sound(apply, init, s) && Enabled(s, EnterCall(t))
    ensures Sound(apply, init, Next(apply, s, EnterCall(t)))
  {
    LockStaysConsistent(apply, s, EnterCall(t));
    var s' := Next(apply, s, EnterCall(t));
    FramesChangeKeepsSound(apply, init, s, s', t);
  }

  /** Frames that change only in statement calls leave the transaction story untouched. */
  lemma FramesChangeKeepsSound<D(!new)>(apply: (D, Statement) -> D, init: D, s: System<D>, s': System<D>, t: Task)
    requires Sound(apply, init, s) && LockConsistent(s')
    requires s'.conn == s.conn && s'.log == s.log
    requires forall x: Task :: x != t ==> FramesOf(s', x) == FramesOf(s, x)
    requires Block in FramesOf(s', t) <==> Block in FramesOf(s, t)
    requires forall i: int :: 0 < i < |FramesOf(s', t)| ==> FramesOf(s', t)[i] != Block
    ensures Sound(apply, init, s')
  {
    forall x: Task ensures Block in FramesOf(s', x) <==> Block in FramesOf(s, x) {}
    assert Disciplined(s');
  }

  lemma LeaveCallIsSound<D(!new)>(apply: (D, Statement) -> D, init: D, s: System<D>, t: Task)
    requires Sound(apply, init, s) && Enabled(s, LeaveCall(t))
    ensures Sound(apply, init, Next(apply, s, LeaveCall(t)))
  {
    LockStaysConsistent(apply, s, LeaveCall(t));
    DropLastCall(FramesOf(s, t));
    FramesChangeKeepsSound(apply, init, s, Next(apply, s, LeaveCall(t)), t);
  }

  lemma DropLastCall(fs: seq<Frame>)
    requires Top(fs).Some? && Top(fs).value.Call?
    ensures Block in fs[..|fs| - 1] <==> Block in fs
  {
    assert fs == fs[..|fs| - 1] + [fs[|fs| - 1]];
  }

  lemma RunStatementIsSound<D(!new)>(apply: (D, Statement) -> D, init: D, s: System<D>, t: Task, stmt: Statement)
    requires Sound(apply, init, s) && Enabled(s, RunStatement(t, stmt))
    ensures Sound(apply, init, Next(apply, s, RunStatement(t, stmt)))
  {
    LockStaysConsistent(apply, s, RunStatement(t, stmt));
    var s' := Next(apply, s, RunStatement(t, stmt));
    MarkCallDone(FramesOf(s, t));
    OwnerHasTheBlock(s, t);
    forall x: Task ensures Block in FramesOf(s', x) <==> Block in FramesOf(s, x) {}
    assert Disciplined(s');
    forall x: Task ensures Pending(s.log, x).Some? ==> x == t {
      if Pending(s.log, x).Some? { assert Block in FramesOf(s, x) && FramesOf(s, x) != []; }
    }
    ContiguousSnoc(s.log, Run(t, stmt));
    RunStatementIsSerial(apply, init, s, s', t, stmt);
  }

  lemma MarkCallDone(fs: seq<Frame>)
    requires Top(fs) == Some(Call(false))
    ensures Block in fs[..|fs| - 1] + [Call(true)] <==> Block in fs
  {
    assert fs == fs[..|fs| - 1] + [Call(false)];
  }

  lemma RunStatementIsSerial<D(!new)>(apply: (D, Statement) -> D, init: D, s: System<D>, s': System<D>,
                                      t: Task, stmt: Statement)
    requires Serial(apply, init, s) && (s.conn.InTx? <==> Pending(s.log, t).Some?)
    requires s'.log == s.log + [Run(t, stmt)] && s'.conn == Execute(apply, s.conn, stmt)
    requires forall x: Task :: Block in FramesOf(s', x) <==> Block in FramesOf(s, x)
    requires forall x: Task :: Pending(s.log, x).Some? ==> x == t
    ensures Serial(apply, init, s')
  {
    BlocksSnoc(s.log, Run(t, stmt));
    forall x: Task { PendingSnoc(s.log, Run(t, stmt), x); }
    var base := RunSerially(apply, init, Blocks(s.log));
    if Pending(s.log, t).Some? {
      assert Blocks(s'.log) == Blocks(s.log);
      RunAllSnoc(apply, base, Pending(s.log, t).value, stmt);
    } else {
      RunSeriallySnoc(apply, init, Blocks(s.log), [stmt]);
      RunAllSnoc(apply, base, [], stmt);
      assert [] + [stmt] == [stmt];
    }
  }

  lemma EnterBlockIsSound<D(!new)>(apply: (D, Statement) -> D, init: D, s: System<D>, t: Task)
    requires Sound(apply, init, s) && Enabled(s, EnterBlock(t))
    ensures Sound(apply, init, Next(apply, s, EnterBlock(t)))
  {
    if s.conn.Auto? {
      LockStaysConsistent(apply, s, EnterBlock(t));
      var s', op := Next(apply, s, EnterBlock(t)), Begin(t);
      assert FramesOf(s, t) == [] by {
        if FramesOf(s, t) != [] { OwnerHasTheBlock(s, t); }
      }
      assert FramesOf(s', t) == [Block];
      assert Blocks(s.log) + [] == Blocks(s.log);
      forall x: Task ensures Block in FramesOf(s', x) <==> Block in FramesOf(s, x) || x == t {}
      assert Disciplined(s');
      ContiguousSnoc(s.log, op);
      BlocksSnoc(s.log, op);
      forall x: Task { PendingSnoc(s.log, op, x); }
    }
  }

  lemma EndBlockIsSound<D(!new)>(apply: (D, Statement) -> D, init: D, s: System<D>, a: Action)
    requires Sound(apply, init, s) && Enabled(s, a) && (a.CommitBlock? || a.RollbackBlock?)
    ensures Sound(apply, init, Next(apply, s, a))
  {
    var t := a.task;
    LockStaysConsistent(apply, s, a);
    PopBlock(s, t);
    var s' := Next(apply, s, a);
    var op := if a.CommitBlock? then Commit(t) else Rollback(t);
    assert forall x: Task :: FramesOf(s', x) == [] by {
      forall x: Task ensures FramesOf(s', x) == FramesOf(Pop(s, t), x) {}
    }
    assert Disciplined(s');
    forall x: Task ensures Pending(s.log, x).Some? ==> x == t {
      if Pending(s.log, x).Some? { assert Block in FramesOf(s, x) && FramesOf(s, x) != []; }
    }
    ContiguousSnoc(s.log, op);
    EndBlockIsSerial(apply, init, s, s', t, op);
  }

  lemma EndBlockIsSerial<D(!new)>(apply: (D, Statement) -> D, init: D, s: System<D>, s': System<D>, t: Task, op: Op)
    requires Serial(apply, init, s) && s.conn.InTx? && Block in FramesOf(s, t)
    requires op == Commit(t) || op == Rollback(t)
    requires s'.log == s.log + [op] && forall x: Task :: FramesOf(s', x) == []
    requires s'.conn == if op.Commit? then Auto(s.conn.current) else Auto(s.conn.saved)
    requires forall x: Task :: Pending(s.log, x).Some? ==> x == t
    ensures Serial(apply, init, s')
  {
    forall x: Task ensures Pending(s'.log, x).None? { PendingSnoc(s.log, op, x); }
    BlocksSnoc(s.log, op);
    assert Pending(s.log, t).Some?;
    if op.Commit? {
      RunSeriallySnoc(apply, init, Blocks(s.log), Pending(s.log, t).value);
    } else {
      assert Blocks(s.log) + [] == Blocks(s.log);
    }
  }

  lemma RunScriptIsSound<D(!new)>(apply: (D, Statement) -> D, init: D, s: System<D>, t: Task, stmt: Statement)
    requires Sound(apply, init, s) && Enabled(s, RunScript(t, stmt)) && s.conn.Auto?
    ensures Sound(apply, init, Next(apply, s, RunScript(t, stmt)))
  {
    var s', op := Next(apply, s, RunScript(t, stmt)), Script(t, stmt);
    LockStaysConsistent(apply, s, RunScript(t, stmt));
    forall x: Task ensures FramesOf(s', x) == FramesOf(s, x) {}
    assert Disciplined(s');
    forall x: Task ensures Pending(s.log, x).None? && Pending(s'.log, x).None? { PendingSnoc(s.log, op, x); }
    ContiguousSnoc(s.log, op);
    BlocksSnoc(s.log, op);
    var base := RunSerially(apply, init, Blocks(s.log));
    RunSeriallySnoc(apply, init, Blocks(s.log), [stmt]);
    RunAllSnoc(apply, base, [], stmt);
    assert [] + [stmt] == [stmt];
  }

  /** The two ways to break the discipline: a block abandoned by its task, and a script while a transaction is open. */
  predicate Disturbs<D>(s: System<D>, a: Action)
  {
    a.AbandonBlock? || (a.RunScript? && s.conn.InTx?)
  }

  /** The discipline survives a step exactly when the step is neither. */
  lemma DisciplineIsKeptExactly<D(!new)>(apply: (D, Statement) -> D, init: D, s: System<D>, a: Action)
    requires Sound(apply, init, s) && Enabled(s, a)
    ensures Sound(apply, init, Next(apply, s, a)) <==> !Disturbs(s, a)
  {
    match a
    case EnterCall(t) => EnterCallIsSound(apply, init, s, t);
    case RunStatement(t, stmt) => RunStatementIsSound(apply, init, s, t, stmt);
    case LeaveCall(t) => LeaveCallIsSound(apply, init, s, t);
    case EnterBlock(t) => EnterBlockIsSound(apply, init, s, t);
    case CommitBlock(t) => EndBlockIsSound(apply, init, s, a);
    case RollbackBlock(t) => EndBlockIsSound(apply, init, s, a);
    case AbandonBlock(t) =>
      DisturbanceBreaks(apply, init, s, a);
      BrokenIsUnsound(apply, init, Next(apply, s, a));
    case RunScript(t, stmt) =>
      if s.conn.Auto? {
        RunScriptIsSound(apply, init, s, t, stmt);
      } else {
        DisturbanceBreaks(apply, init, s, a);
        BrokenIsUnsound(apply, init, Next(apply, s, a));
      }
  }

  /** No step of the run disturbs the state it is taken in. */
  predicate Undisturbed<D(!new)>(apply: (D, Statement) -> D, s: System<D>, acts: seq<Action>)
    requires IsRun(apply, s, acts)
    decreases |acts|
  {
    acts == [] || (!Disturbs(s, acts[0]) && Undisturbed(apply, Next(apply, s, acts[0]), acts[1..]))
  }

  /** Transactions are serial, in every interleaving, exactly if no block is abandoned and no script is run while a
      transaction is open: then all operations between BEGIN and COMMIT or ROLLBACK belong to one task, and the
      database is the committed blocks run one after another; after any other run that is lost for good. */
  lemma {:induction false} TransactionsAreSerial<D(!new)>(apply: (D, Statement) -> D, init: D, s: System<D>,
                                                          acts: seq<Action>)
    requires Sound(apply, init, s) && IsRun(apply, s, acts)
    ensures Sound(apply, init, After(apply, s, acts)) <==> Undisturbed(apply, s, acts)
    decreases |acts|
  {
    if acts != [] {
      var next := Next(apply, s, acts[0]);
      if Disturbs(s, acts[0]) {
        DisturbanceBreaks(apply, init, s, acts[0]);
        BrokenForGood(apply, next, acts[1..]);
        BrokenIsUnsound(apply, init, After(apply, next, acts[1..]));
      } else {
        DisciplineIsKeptExactly(apply, init, s, acts[0]);
        TransactionsAreSerial(apply, init, next, acts[1..]);
      }
    }
  }

  /** A free lock, no task at work, nothing done yet. */
  function Idle<D>(init: D): System<D>
  {
    System(Lock(None, 0, false), map[], Auto(init), [])
  }

  lemma FreshIsSound<D(!new)>(apply: (D, Statement) -> D, init: D)
    ensures Sound(apply, init, Idle(init))
  {
    var s := Idle(init);
    assert forall t: Task :: FramesOf(s, t) == [] && Pending(s.log, t) == None;
  }

  // ---- After a disturbance ----

  /** A transaction is open but no task is inside a block. */
  ghost predicate Orphaned<D>(s: System<D>)
  {
    s.conn.InTx? && forall t: Task :: Block !in FramesOf(s, t)
  }

  /** Either the log already mixes operations into a pending block, or a block is pending that nobody is in. */
  ghost predicate Broken<D>(s: System<D>)
  {
    !Contiguous(s.log) || (Orphaned(s) && exists t: Task :: Pending(s.log, t).Some?)
  }

  lemma BrokenIsUnsound<D(!new)>(apply: (D, Statement) -> D, init: D, s: System<D>)
    requires Broken(s)
    ensures !Sound(apply, init, s)
  {}

  lemma MixedStays(log: seq<Op>, op: Op)
    requires !Contiguous(log)
    ensures !Contiguous(log + [op])
  {
    var k, t: Task :| 0 <= k < |log| && Pending(log[..k], t).Some? && (log[k].task != t || log[k].Script?);
    assert (log + [op])[..k] == log[..k] && (log + [op])[k] == log[k];
  }

  lemma MixedNow(log: seq<Op>, op: Op, t: Task)
    requires Pending(log, t).Some? && (op.task != t || op.Script?)
    ensures !Contiguous(log + [op])
  {
    assert (log + [op])[..|log|] == log && (log + [op])[|log|] == op;
  }

  lemma DisturbanceBreaks<D(!new)>(apply: (D, Statement) -> D, init: D, s: System<D>, a: Action)
    requires Sound(apply, init, s) && Enabled(s, a) && Disturbs(s, a)
    ensures Broken(Next(apply, s, a))
  {
    var x: Task :| Block in FramesOf(s, x);
    assert Pending(s.log, x).Some?;
    if a.AbandonBlock? {
      AbandonOrphans(apply, init, s, a.task);
    } else {
      MixedNow(s.log, Script(a.task, a.stmt), x);
    }
  }

  lemma StepKeepsBroken<D(!new)>(apply: (D, Statement) -> D, s: System<D>, a: Action)
    requires Broken(s) && Enabled(s, a)
    ensures Broken(Next(apply, s, a))
  {
    var s' := Next(apply, s, a);
    if !Contiguous(s.log) {
      if s'.log != s.log {
        MixedStays(s.log, s'.log[|s.log|]);
        assert s'.log == s.log + [s'.log[|s.log|]];
      }
    } else {
      var t: Task :| Pending(s.log, t).Some?;
      OrphanEndsExactly(apply, s, a);
      if a.RunScript? {
        MixedNow(s.log, Script(a.task, a.stmt), t);
      } else if a.RunStatement? {
        if a.task != t { MixedNow(s.log, Run(a.task, a.stmt), t); }
        PendingSnoc(s.log, Run(a.task, a.stmt), t);
      } else {
        NothingEnds(s, a);
      }
    }
  }

  /** With no block to leave, only statements and scripts reach the connection of an orphaned transaction. */
  lemma NothingEnds<D(!new)>(s: System<D>, a: Action)
    requires Orphaned(s) && Enabled(s, a)
    ensures !a.CommitBlock? && !a.RollbackBlock? && !a.AbandonBlock?
  {
    var fs := FramesOf(s, a.task);
    assert Block !in fs;
    if fs != [] { assert fs[|fs| - 1] in fs; }
  }

  lemma {:induction false} BrokenForGood<D(!new)>(apply: (D, Statement) -> D, s: System<D>, acts: seq<Action>)
    requires Broken(s) && IsRun(apply, s, acts)
    ensures Broken(After(apply, s, acts))
    decreases |acts|
  {
    if acts != [] {
      StepKeepsBroken(apply, s, acts[0]);
      BrokenForGood(apply, Next(apply, s, acts[0]), acts[1..]);
    }
  }

  /** An orphaned transaction survives every step but a script, and until then nothing is saved; a script commits
      all that any task has done since, along with itself. */
  lemma OrphanEndsExactly<D(!new)>(apply: (D, Statement) -> D, s: System<D>, a: Action)
    requires Orphaned(s) && Enabled(s, a)
    ensures var s' := Next(apply, s, a);
      && (Orphaned(s') <==> !a.RunScript?)
      && (!a.RunScript? ==> s'.conn.saved == s.conn.saved)
      && (a.RunScript? ==> s'.conn == Auto(apply(s.conn.current, a.stmt)))
  {
    NothingEnds(s, a);
    var t, fs := a.task, FramesOf(s, a.task);
    assert forall f :: f in fs ==> f != Block;
    var s' := Next(apply, s, a);
    forall x: Task ensures Block !in FramesOf(s', x) {
      if x != t { assert FramesOf(s', x) == FramesOf(s, x); }
    }
  }

  /** Without a script an orphaned transaction lasts: whatever calls and blocks any task tries, no block can be
      entered again and nothing is ever committed, neither blocks nor single statements. */
  lemma {:induction false} OrphanLastsUntilScript<D(!new)>(apply: (D, Statement) -> D, s: System<D>, acts: seq<Action>)
    requires Orphaned(s) && IsRun(apply, s, acts) && forall a :: a in acts ==> !a.RunScript?
    ensures Orphaned(After(apply, s, acts)) && After(apply, s, acts).conn.saved == s.conn.saved
    decreases |acts|
  {
    if acts != [] {
      assert acts[0] in acts && forall a :: a in acts[1..] ==> a in acts;
      OrphanEndsExactly(apply, s, acts[0]);
      OrphanLastsUntilScript(apply, Next(apply, s, acts[0]), acts[1..]);
    }
  }

  /** One abandoned block is enough. */
  lemma AbandonOrphans<D(!new)>(apply: (D, Statement) -> D, init: D, s: System<D>, t: Task)
    requires Sound(apply, init, s) && Enabled(s, AbandonBlock(t))
    ensures Orphaned(Next(apply, s, AbandonBlock(t))) && Next(apply, s, AbandonBlock(t)).lock == Lock(None, 0, false)
  {
    PopBlock(s, t);
    assert Next(apply, s, AbandonBlock(t)) == Pop(s, t);
  }

  /** On a fresh connection: task 0 enters a block and is cancelled in it. The run is possible, the lock is free
      again, and the transaction is orphaned. */
  lemma CancelledInsideABlock<D(!new)>(apply: (D, Statement) -> D, init: D)
    ensures var s, acts := Idle(init), [EnterBlock(0), AbandonBlock(0)];
      && IsRun(apply, s, acts) && Orphaned(After(apply, s, acts)) && !Sound(apply, init, After(apply, s, acts))
      && After(apply, s, acts).lock == Lock(None, 0, false)
  {
    var s, acts := Idle(init), [EnterBlock(0), AbandonBlock(0)];
    FreshIsSound(apply, init);
    var s1 := Next(apply, s, EnterBlock(0));
    assert FramesOf(s1, 0) == [Block];
    assert acts[1..] == [AbandonBlock(0)] && [AbandonBlock(0)][1..] == [];
    EnterBlockIsSound(apply, init, s, 0);
    AbandonOrphans(apply, init, s1, 0);
    assert IsRun(apply, Next(apply, s1, AbandonBlock(0)), []);
    assert IsRun(apply, s1, [AbandonBlock(0)]);
    TransactionsAreSerial(apply, init, s, acts);
  }
}
