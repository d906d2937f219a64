/** The delay scheduler as a state machine: any number of workers poll for due executions under
    a shared lock and resume them under a lock per execution, while triggers start new ones.
    Every lock command, every statement and every row write is one step, and a worker may stop
    for good, or for a while, between any two. */
module DelayMachine {
  import L = Lease
  import W = WorkflowExecutor

  type Holder = L.Holder

  type ExecId = W.ExecId

  type ExecStatus = W.ExecStatus

  /** Milliseconds; both locks are always set with one constant value. */
  const POLL_LOCK := L.Use((_: Holder) => "scheduler", (_: Holder) => 45_000)
  const RESUME_LOCK := L.Use((_: Holder) => "scheduler-resume", (_: Holder) => 120_000)
  const BATCH: nat := 50

  /** A workflow_executions row. `gen` counts the delays it has been scheduled for; nothing
      reads it. */
  datatype Row = Row(status: ExecStatus, dueAt: int, gen: nat)

  /** An execution as a poll fetched it: which one, and which of its delays had come due. */
  datatype Due = Due(exec: ExecId, gen: nat)

  /** Where a poll is: before the fetch, between executions, or at a point of `resume`. */
  datatype Phase =
    | Fetching
    | Ready
    | Claimed(item: Due)
    | Checked(item: Due)
    | Walking(item: Due)
    | Leaving(item: Due)

  datatype Poll = Poll(queue: seq<Due>, phase: Phase)

  /** One row write that took an execution out of a delay. `fetched` is the delay the poll had
      fetched it for, `gen` the delay it was in, due at `dueAt`. */
  datatype Resumption = Resumption(exec: ExecId, gen: nat, fetched: nat, at: int, dueAt: int)

  datatype State = State(
    now: int,
    turn: L.State,
    locks: map<ExecId, L.State>,
    rows: map<ExecId, Row>,
    triggers: set<ExecId>,
    polls: map<Holder, Poll>,
    resumed: seq<Resumption>)

  datatype Action =
    | Start
    | Fetch(batch: seq<ExecId>)
    | Skip
    | Claim
    | Fail(ok: bool)
    | Check(ok: bool)
    | Advance
    | Complete
    | Pause(due: int)
    | EndRun(status: ExecStatus)
    | Unlock(ok: bool)
    | Finish(ok: bool)
    | Crash

  datatype Step =
    | Poller(who: Holder, at: int, action: Action)
    | Create(exec: ExecId, at: int)
    | TriggerPauses(exec: ExecId, at: int, due: int)
    | TriggerEnds(exec: ExecId, at: int, status: ExecStatus)

  predicate IsDue(row: Row, at: int) { row.status.WaitingForDelay? && row.dueAt <= at }

  /** FetchDueExecutions: the executions that have been due longest, up to the limit. */
  predicate IsDueBatch(rows: map<ExecId, Row>, at: int, batch: seq<ExecId>) {
    && |batch| <= BATCH
    && (forall i :: 0 <= i < |batch| ==> batch[i] in rows && IsDue(rows[batch[i]], at))
    && (forall i, j :: 0 <= i < j < |batch| ==> batch[i] != batch[j] && rows[batch[i]].dueAt <= rows[batch[j]].dueAt)
    && (forall e :: e in rows && IsDue(rows[e], at) && e !in batch ==>
          |batch| == BATCH && forall i :: 0 <= i < |batch| ==> rows[batch[i]].dueAt <= rows[e].dueAt)
  }

  function LockOf(s: State, e: ExecId): L.State { if e in s.locks then s.locks[e] else L.IDLE }

  /** One lock command; a command that is out of order changes nothing, and none ever is. */
  function Touch(u: L.Use, l: L.State, e: L.Event): L.State {
    if L.Enabled(l, e) then L.Next(u, l, e) else l
  }

  predicate HasItem(p: Phase) { !p.Fetching? && !p.Ready? }

  predicate ActionFits(s: State, who: Holder, action: Action) {
    if action.Start? then who !in s.polls
    else
      && who in s.polls
      && var poll := s.polls[who];
         match action
         case Start => false
         case Fetch(_) => poll.phase.Fetching?
         case Skip => poll.phase.Ready? && poll.queue != []
         case Claim => poll.phase.Ready? && poll.queue != []
         case Fail(_) => poll.phase.Claimed? || poll.phase.Checked?
         case Check(_) => poll.phase.Claimed?
         case Advance => poll.phase.Checked?
         case Complete => poll.phase.Checked?
         case Pause(_) => poll.phase.Walking?
         case EndRun(status) => poll.phase.Walking? && !status.WaitingForDelay?
         case Unlock(_) => poll.phase.Leaving?
         case Finish(_) => poll.phase.Ready? || poll.phase.Fetching?
         case Crash => true
  }

  predicate Enabled(s: State, step: Step) {
    && step.at >= s.now
    && match step
       case Poller(who, at, action) =>
         && ActionFits(s, who, action)
         && (action.Fetch? ==> IsDueBatch(s.rows, at, action.batch))
         && (who in s.polls && HasItem(s.polls[who].phase) ==> s.polls[who].phase.item.exec in s.rows)
       case Create(e, _) => e !in s.rows
       case TriggerPauses(e, _, _) => e in s.triggers && e in s.rows
       case TriggerEnds(e, _, status) => e in s.triggers && e in s.rows && !status.WaitingForDelay?
  }

  function ItemOf(s: State, who: Holder): Due
    requires who in s.polls && HasItem(s.polls[who].phase)
  {
    s.polls[who].phase.item
  }

  function Fetched(rows: map<ExecId, Row>, batch: seq<ExecId>): seq<Due>
    requires forall i :: 0 <= i < |batch| ==> batch[i] in rows
  {
    seq(|batch|, i requires 0 <= i < |batch| => Due(batch[i], rows[batch[i]].gen))
  }

  function Delayed(row: Row, due: int): Row { Row(W.WaitingForDelay, due, row.gen + 1) }

  /** What an action writes to the row of the execution it is about. */
  function RowAfter(row: Row, action: Action): Row {
    match action
    case Fail(ok) => if ok then row.(status := W.FailedExec) else row
    case Advance => row.(status := W.Running)
    case Complete => row.(status := W.CompletedExec)
    case Pause(due) => Delayed(row, due)
    case EndRun(status) => row.(status := status)
    case _ => row
  }

  function NextRows(s: State, step: Step): map<ExecId, Row>
    requires Enabled(s, step)
  {
    match step
    case Poller(who, _, action) =>
      if who in s.polls && HasItem(s.polls[who].phase) then
        s.rows[ItemOf(s, who).exec := RowAfter(s.rows[ItemOf(s, who).exec], action)]
      else s.rows
    case Create(e, _) => s.rows[e := Row(W.Running, 0, 0)]
    case TriggerPauses(e, _, due) => s.rows[e := Delayed(s.rows[e], due)]
    case TriggerEnds(e, _, status) => s.rows[e := s.rows[e].(status := status)]
  }

  function NextTriggers(s: State, step: Step): set<ExecId> {
    match step
    case Poller(_, _, _) => s.triggers
    case Create(e, _) => s.triggers + {e}
    case TriggerPauses(e, _, _) => s.triggers - {e}
    case TriggerEnds(e, _, _) => s.triggers - {e}
  }

  /** The scheduler lock. */
  function NextTurn(s: State, step: Step): L.State {
    if !step.Poller? then s.turn
    else match step.action
      case Start => Touch(POLL_LOCK, s.turn, L.Acquire(step.who, step.at))
      case Finish(ok) =>
        Touch(POLL_LOCK, s.turn, if ok then L.Release(step.who, step.at) else L.Vanish(step.who, step.at))
      case Crash => Touch(POLL_LOCK, s.turn, L.Vanish(step.who, step.at))
      case _ => s.turn
  }

  /** The executions' locks. */
  function NextLocks(s: State, step: Step): map<ExecId, L.State>
    requires Enabled(s, step)
  {
    if !step.Poller? then s.locks
    else
      var who, at := step.who, step.at;
      match step.action
      case Claim =>
        var e := s.polls[who].queue[0].exec;
        s.locks[e := Touch(RESUME_LOCK, LockOf(s, e), L.Acquire(who, at))]
      case Unlock(ok) =>
        var e := ItemOf(s, who).exec;
        s.locks[e := Touch(RESUME_LOCK, LockOf(s, e), if ok then L.Release(who, at) else L.Vanish(who, at))]
      case Crash =>
        if !HasItem(s.polls[who].phase) then s.locks
        else
          var e := ItemOf(s, who).exec;
          s.locks[e := Touch(RESUME_LOCK, LockOf(s, e), L.Vanish(who, at))]
      case _ => s.locks
  }

  /** Where the poll goes next; `granted` says whether it got the lock it asked for. */
  function PollAfter(s: State, who: Holder, action: Action, granted: bool): Poll
    requires !action.Start? && ActionFits(s, who, action)
    requires action.Fetch? ==> forall i :: 0 <= i < |action.batch| ==> action.batch[i] in s.rows
    requires HasItem(s.polls[who].phase) ==> ItemOf(s, who).exec in s.rows
  {
    var poll := s.polls[who];
    match action
    case Fetch(batch) => Poll(Fetched(s.rows, batch), Ready)
    case Skip => poll.(queue := poll.queue[1..])
    case Claim => Poll(poll.queue[1..], if granted then Claimed(poll.queue[0]) else Ready)
    case Check(ok) =>
      var item := poll.phase.item;
      poll.(phase := if ok && s.rows[item.exec].status.WaitingForDelay? then Checked(item) else Leaving(item))
    case Advance => poll.(phase := Walking(poll.phase.item))
    case Unlock(_) => poll.(phase := Ready)
    case Start => poll
    case Finish(_) => poll
    case Crash => poll
    case _ => poll.(phase := Leaving(poll.phase.item))
  }

  function NextPolls(s: State, step: Step): map<Holder, Poll>
    requires Enabled(s, step)
  {
    if !step.Poller? then s.polls
    else
      var who := step.who;
      match step.action
      case Start => if who in NextTurn(s, step).deadlines then s.polls[who := Poll([], Fetching)] else s.polls
      case Finish(_) => s.polls - {who}
      case Crash => s.polls - {who}
      case Claim =>
        var e := s.polls[who].queue[0].exec;
        s.polls[who := PollAfter(s, who, Claim, who in NextLocks(s, step)[e].deadlines)]
      case action => s.polls[who := PollAfter(s, who, action, false)]
  }

  predicate Resumes(action: Action) { action.Advance? || action.Complete? }

  /** What a resumption records. */
  function Entry(s: State, who: Holder, at: int): Resumption
    requires who in s.polls && HasItem(s.polls[who].phase) && ItemOf(s, who).exec in s.rows
  {
    var item := ItemOf(s, who);
    Resumption(item.exec, s.rows[item.exec].gen, item.gen, at, s.rows[item.exec].dueAt)
  }

  function NextLog(s: State, step: Step): seq<Resumption>
    requires Enabled(s, step)
  {
    if step.Poller? && Resumes(step.action) then s.resumed + [Entry(s, step.who, step.at)] else s.resumed
  }

  function Next(s: State, step: Step): State
    requires Enabled(s, step)
  {
    State(step.at, NextTurn(s, step), NextLocks(s, step), NextRows(s, step), NextTriggers(s, step),
          NextPolls(s, step), NextLog(s, step))
  }

  ghost predicate ValidRun(s: State, steps: seq<Step>)
    decreases |steps|, 0
  {
    steps == [] ||
    (var front := steps[..|steps| - 1]; ValidRun(s, front) && Enabled(Run(s, front), steps[|steps| - 1]))
  }

  ghost function Run(s: State, steps: seq<Step>): State
    requires ValidRun(s, steps)
    decreases |steps|, 1
  {
    if steps == [] then s else Next(Run(s, steps[..|steps| - 1]), steps[|steps| - 1])
  }

  const IDLE := State(0, L.IDLE, map[], map[], {}, map[], [])
}
