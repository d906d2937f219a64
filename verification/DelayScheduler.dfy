/** The delay scheduler's poll as the worker writes it, while other workers and triggers act
    between any two of its statements. Whatever they do and whatever fails, a poll is a run of
    the machine in DelayMachine, so DelaySafety speaks about it. */
module DelayScheduler {
  import opened Wrappers
  import opened DelayMachine
  import opened DelaySafety
  import W = WorkflowExecutor
  import opened WorkflowWalk

  /** What a resume works on: the workflow's nodes, the stored current node, the contact, and
      how the executor's calls turn out. */
  datatype Job = Job(nodes: seq<Node>, current: NodeId, hasEmail: bool, calls: seq<bool>)

  /** What the world does around the k-th statement of a poll: the steps others take before it,
      the time, whether it succeeds, what the query for due executions returns, whether the
      context is done; and each execution's workflow, if it is there and its nodes parse. */
  datatype Environment = Environment(
    others: nat -> seq<Step>,
    at: nat -> int,
    ok: nat -> bool,
    batch: nat -> seq<ExecId>,
    cancelled: nat -> bool,
    job: ExecId -> Option<Job>)

  /** The executor gets to write the row: the stored node exists and the first call is granted. */
  predicate Runnable(job: Job) { job.current in Indexed(job.nodes) && W.Granted(job.calls) }

  /** Nobody interferes, nothing fails, and the context lasts. */
  ghost predicate Calm(env: Environment) {
    && (forall k: nat :: env.others(k) == [] && env.ok(k) && !env.cancelled(k))
    && (forall e :: env.job(e).Some? && Runnable(env.job(e).value))
  }

  /** Nobody interferes and no database or lock call fails. */
  ghost predicate Quiet(env: Environment) { forall k: nat :: env.others(k) == [] && env.ok(k) }

  lemma QuietAt(env: Environment, k: nat)
    ensures Quiet(env) ==> env.others(k) == [] && env.ok(k)
    ensures Calm(env) ==> Quiet(env) && forall e :: env.job(e).Some? && Runnable(env.job(e).value)
  {
  }

  /** The step that FailExecution is: before the executor wrote the row, or after. */
  function FailureAction(walking: bool, ok: bool): Action {
    if !walking then Fail(ok) else EndRun(if ok then W.FailedExec else W.Running)
  }

  /** The workflow is gone or does not parse, or the executor gets nowhere. */
  predicate Hopeless(job: Option<Job>) { job.None? || !Runnable(job.value) }

  /** The row as a run that came to a stop at `last` leaves it, having started at `at`. */
  predicate AsNode(m: NodeMap, last: NodeId, before: Row, after: Row, at: int) {
    if last in m && m[last].kind.Delay? && m[last].kind.duration.Some? then
      after == Row(W.WaitingForDelay, at + m[last].kind.duration.value, before.gen + 1)
    else if last in m && (m[last].kind.End? || W.Passable(m, last)) then after.status == W.CompletedExec
    else after.status == W.FailedExec
  }

  /** The nodes a resume comes to after its delay, if there are calls enough for all of them. */
  predicate Ahead(m: NodeMap, job: Job, path: seq<NodeId>) {
    && W.Path(m, path) && W.EndsThere(m, path)
    && job.current in m && path[0] == m[job.current].next
    && |job.calls| > 3 * |path|
  }

  /** A resume at time `at` whose calls all succeed completes the execution if nothing follows the
      delay. Otherwise it leaves it as the node says at which the nodes ahead come to a stop: in the
      next delay, due when that has passed, or completed, or failed. */
  ghost predicate LeftAs(before: Row, after: Row, job: Job, at: int) {
    var m := Indexed(job.nodes);
    Runnable(job) && (forall k :: 0 <= k < |job.calls| ==> job.calls[k]) ==>
      if m[job.current].next == "" then after.status == W.CompletedExec
      else forall path :: Ahead(m, job, path) ==> AsNode(m, path[|path| - 1], before, after, at)
  }

  function Later(env: Environment, k: nat, now: int): int { if env.at(k) > now then env.at(k) else now }

  lemma {:induction false} AppendStep(steps: seq<Step>, step: Step)
    requires ValidRun(IDLE, steps) && Enabled(Run(IDLE, steps), step)
    ensures ValidRun(IDLE, steps + [step]) && Run(IDLE, steps + [step]) == Next(Run(IDLE, steps), step)
  {
    hide Enabled, Next;
    assert (steps + [step])[..|steps + [step]| - 1] == steps;
  }

  /** Both locks are only ever set with their one value. */
  ghost predicate Valued(s: State) {
    && (s.turn.grant.Some? ==> s.turn.grant.value.value == "scheduler")
    && (forall e :: e in s.locks && s.locks[e].grant.Some? ==> s.locks[e].grant.value.value == "scheduler-resume")
  }

  lemma StepKeepsValued(s: State, step: Step)
    requires Valued(s) && Enabled(s, step)
    ensures Valued(Next(s, step))
  {
    hide IsDueBatch, NextRows, NextPolls, NextLog, PollAfter;
  }

  lemma {:induction false} ValuedAlways(steps: seq<Step>)
    requires ValidRun(IDLE, steps)
    ensures Valued(Run(IDLE, steps))
    decreases |steps|
  {
    hide Enabled, Next, Valued;
    if steps != [] {
      ValuedAlways(steps[..|steps| - 1]);
      StepKeepsValued(Run(IDLE, steps[..|steps| - 1]), steps[|steps| - 1]);
    } else {
      IdleIsValued();
    }
  }

  lemma IdleIsValued()
    ensures Valued(IDLE)
  {
  }

  /** Releasing a lock leaves it free, whoever holds it by then. */
  lemma UnlockFrees(s: State, step: Step)
    requires Valued(s) && LocksMatch(s) && Enabled(s, step) && step.Poller? && step.action == Unlock(true)
    ensures WorksOn(s, step.who, ItemOf(s, step.who).exec)
    ensures L.Free(LockOf(Next(s, step), ItemOf(s, step.who).exec), Next(s, step).now)
  {
    hide IsDueBatch, NextRows, NextPolls, NextLog, NextTurn, PollAfter;
    assert WorksOn(s, step.who, ItemOf(s, step.who).exec);
  }

  lemma FinishFrees(s: State, step: Step)
    requires Valued(s) && TurnsMatch(s) && Enabled(s, step) && step.Poller? && step.action == Finish(true)
    ensures L.Free(Next(s, step).turn, Next(s, step).now)
  {
    hide IsDueBatch, NextRows, NextPolls, NextLog, NextLocks, PollAfter;
  }

  class Cluster {
    var now: int
    var turn: L.State
    var locks: map<ExecId, L.State>
    var rows: map<ExecId, Row>
    var triggers: set<ExecId>
    var polls: map<Holder, Poll>
    var resumed: seq<Resumption>
    ghost var log: seq<Step>

    function Now(): State reads this { State(now, turn, locks, rows, triggers, polls, resumed) }

    /** The present state is the end of the logged run. */
    ghost predicate Valid() reads this { ValidRun(IDLE, log) && Run(IDLE, log) == Now() }

    /** What holds in every state a run leads to. */
    lemma Grounded(who: Holder)
      requires Valid()
      ensures LocksMatch(Now()) && TurnsMatch(Now())
      ensures who in polls && HasItem(polls[who].phase) ==> polls[who].phase.item.exec in rows
    {
      hide Run, ValidRun;
      BasicsAlways(log);
      if who in polls { WorkedIsSound(Now(), who); }
    }

    lemma LocksValued()
      requires Valid()
      ensures Valued(Now()) && LocksMatch(Now()) && TurnsMatch(Now())
    {
      hide Run, ValidRun, Valued;
      BasicsAlways(log);
      ValuedAlways(log);
    }

    constructor ()
      ensures Valid() && Now() == IDLE && log == []
    {
      now, turn, locks, rows, triggers, polls, resumed := 0, L.IDLE, map[], map[], {}, map[], [];
      log := [];
    }

    /** One statement: the state takes the given step. */
    method Do(step: Step)
      requires Valid() && Enabled(Now(), step)
      modifies this
      ensures Valid() && log == old(log) + [step] && Now() == Next(old(Now()), step)
    {
      hide Enabled, Next;
      AppendStep(log, step);
      var s := Next(Now(), step);
      now, turn, locks, rows, triggers, polls, resumed := s.now, s.turn, s.locks, s.rows, s.triggers, s.polls,
          s.resumed;
      log := log + [step];
    }

    /** Others take those of the given steps that are open to them. */
    method Interfere(who: Holder, steps: seq<Step>)
      requires Valid()
      modifies this
      ensures Valid() && old(log) <= log
      ensures who in polls <==> old(who in polls)
      ensures who in polls ==> polls[who] == old(polls[who])
      ensures steps == [] ==> Now() == old(Now())
      ensures now >= old(now)
    {
      for i := 0 to |steps|
        invariant Valid() && old(log) <= log
        invariant who in polls <==> old(who in polls)
        invariant who in polls ==> polls[who] == old(polls[who])
        invariant i == 0 ==> Now() == old(Now())
        invariant now >= old(now)
      {
        if Enabled(Now(), steps[i]) && !(steps[i].Poller? && steps[i].who == who) {
          OthersLeavePoll(Now(), steps[i], who);
          TimeOf(Now(), steps[i]);
          Do(steps[i]);
        }
      }
    }

    /** A statement of the poll of `who`, after whatever others do first. */
    method Execute(who: Holder, action: Action, env: Environment, k: nat)
      requires Valid() && ActionFits(Now(), who, action) && !action.Fetch?
      modifies this
      ensures Valid() && old(log) < log && log[|log| - 1].Poller? && log[|log| - 1].action == action
      ensures who in polls ==> Moved(if who in old(polls) then Some(old(polls[who])) else None, action, polls[who])
      ensures action.Finish? ==> who !in polls
      ensures !action.Finish? && !action.Crash? && !action.Start? ==> who in polls
      ensures now >= old(now)
      ensures env.others(k) == [] ==> now == Later(env, k, old(now))
      ensures env.others(k) == [] ==>
                var step := Poller(who, now, action); Enabled(old(Now()), step) && Now() == Next(old(Now()), step)
    {
      hide Enabled, Next, ActionFits;
      Interfere(who, env.others(k));
      FitsByPoll(old(Now()), Now(), who, action);
      BasicsAlways(log);
      var step := Poller(who, Later(env, k, now), action);
      OwnStep(Now(), step);
      TimeOf(Now(), step);
      Do(step);
    }

    /** FetchDueExecutions; an answer that is not the right one counts as an error. */
    method FetchDueExecutions(who: Holder, env: Environment, k: nat) returns (err: bool)
      requires Valid() && who in polls && polls[who].phase.Fetching?
      modifies this
      ensures Valid() && old(log) <= log && who in polls
      ensures if err then polls[who] == old(polls[who]) else polls[who].phase.Ready? && |polls[who].queue| <= BATCH
      ensures Calm(env) && IsDueBatch(old(rows), Later(env, k, old(now)), env.batch(k)) ==>
                && !err && now >= old(now) && rows == old(rows) && locks == old(locks) && resumed == old(resumed)
                && polls[who] == Poll(Fetched(rows, env.batch(k)), Ready)
    {
      Interfere(who, env.others(k));
      var at := Later(env, k, now);
      var batch := env.batch(k);
      err := !env.ok(k) || !IsDueBatch(rows, at, batch);
      if !err { Do(Poller(who, at, Fetch(batch))); }
    }

    /** ResumeFromDelay: the executor's writes to the row, one by one. */
    method ResumeFromDelay(who: Holder, job: Job, env: Environment, k: nat) returns (err: bool)
      requires Valid() && who in polls && polls[who].phase.Checked?
      modifies this
      ensures Valid() && old(log) <= log && who in polls && polls[who].queue == old(polls[who].queue)
      ensures !err ==> polls[who].phase == Leaving(old(polls[who].phase.item))
      ensures err ==>
                polls[who].phase == Checked(old(polls[who].phase.item))
                    || polls[who].phase == Walking(old(polls[who].phase.item))
      ensures Calm(env) && Runnable(job) ==> Took(old(Now()), Now(), old(polls[who].phase.item))
      ensures Calm(env) && Runnable(job) ==> !err || polls[who].phase.Walking?
      ensures !Runnable(job) ==> err && Now() == old(Now())
      ensures Calm(env) && Runnable(job) ==>
                var e := old(polls[who].phase.item.exec);
                LeftAs(old(rows)[e], if err then rows[e].(status := W.FailedExec) else rows[e], job,
                       resumed[|old(resumed)|].at)
    {
      hide Enabled, Next, Valid, W.Resume, Apart, LocksMatch, TurnsMatch, LeftAs;
      ghost var s0 := Now();
      Grounded(who);
      var m := Indexed(job.nodes);
      var item := polls[who].phase.item;
      var row := W.Row(W.WaitingForDelay, job.current, if item.exec in rows then Some(rows[item.exec].dueAt) else None);
      if !Runnable(job) { return true; }
      if m[job.current].next == "" {
        Execute(who, Complete, env, k);
        if env.others(k) == [] { ResumptionTakes(s0, Poller(who, now, Complete)); }
        CompletedAtOnce(job, now);
        return false;
      }
      Execute(who, Advance, env, k);
      if env.others(k) == [] { ResumptionTakes(s0, Poller(who, now, Advance)); }
      var at := now;
      var t := W.Resume(m, job.hasEmail, job.calls, at, row);
      ResumeShapes(m, job.hasEmail, job.calls, at, row);
      if Calm(env) { ResumeLeaves(job, row, at, s0.rows[item.exec]); }
      match t.result {
        case None => return true;
        case Some(status) =>
          ghost var s1 := Now();
          var action := if status.WaitingForDelay? then Action.Pause(t.row.nextRunAt.value) else EndRun(status);
          Execute(who, action, env, k + 1);
          if Calm(env) { WriteKeepsTook(s0, s1, Poller(who, now, action), item); }
          return false;
      }
    }

    /** FailExecution after ResumeFromDelay returned an error. */
    method RecordFailure(who: Holder, env: Environment, k: nat)
      requires Valid() && who in polls && (polls[who].phase.Checked? || polls[who].phase.Walking?)
      modifies this
      ensures Valid() && old(log) < log && who in polls
      ensures polls[who] == Poll(old(polls[who]).queue, Leaving(old(polls[who]).phase.item))
      ensures env.others(k) == [] ==>
                var step := Poller(who, now, FailureAction(old(polls[who]).phase.Walking?, env.ok(k)));
                Enabled(old(Now()), step) && Now() == Next(old(Now()), step)
    {
      hide Enabled, Next, Valid;
      Execute(who, FailureAction(polls[who].phase.Walking?, env.ok(k)), env, k);
    }

    /** The part of resume under the execution's lock. */
    method ResumeClaimed(who: Holder, env: Environment, k: nat)
      requires Valid() && who in polls && polls[who].phase.Claimed?
      modifies this
      ensures Valid() && old(log) < log && who in polls
      ensures polls[who] == Poll(old(polls[who]).queue, Leaving(old(polls[who]).phase.item))
      ensures Calm(env) && InDelay(old(rows), old(polls[who].phase.item)) ==>
                TookTo(old(Now()), Now(), old(polls[who].phase.item), env.job(old(polls[who].phase.item.exec)).value)
      ensures Quiet(env) && InDelay(old(rows), old(polls[who].phase.item))
              && Hopeless(env.job(old(polls[who].phase.item.exec))) ==>
                FailedBy(old(Now()), Now(), old(polls[who].phase.item.exec))
    {
      hide Enabled, Next, Valid, Took, Apart, Runnable, LocksMatch, TurnsMatch, LeftAs, FailedBy, InDelay, Calm, Quiet;
      var item := polls[who].phase.item;
      ghost var s0 := Now();
      Grounded(who);
      if env.job(item.exec).None? {
        Execute(who, Fail(env.ok(k)), env, k);
        QuietAt(env, k);
        if Quiet(env) && InDelay(s0.rows, item) { FailFails(s0, s0, Poller(who, now, Fail(true)), item.exec); }
        return;
      }
      Execute(who, Check(env.ok(k)), env, k);
      QuietAt(env, k);
      ghost var s1 := Now();
      if Quiet(env) && InDelay(s0.rows, item) { CheckTakes(s0, Poller(who, now, Check(true))); }
      if polls[who].phase.Leaving? { return; }
      var err := ResumeFromDelay(who, env.job(item.exec).value, env, k + 1);
      if Calm(env) && InDelay(s0.rows, item) { TookHas(s1, Now(), item); TookAfter(s0, s1, Now(), item); }
      if err {
        ghost var s2, walking := Now(), polls[who].phase.Walking?;
        RecordFailure(who, env, k + 3);
        QuietAt(env, k + 3);
        if Calm(env) && InDelay(s0.rows, item) {
          WriteKeepsTook(s0, s2, Poller(who, now, FailureAction(walking, true)), item);
        } else if Quiet(env) && InDelay(s0.rows, item) && !Runnable(env.job(item.exec).value) {
          FailFails(s0, s2, Poller(who, now, FailureAction(walking, true)), item.exec);
        }
      }
    }

    /** resume, for the execution at the head of the queue. Undisturbed, it takes an execution that
        is still in its delay out of it, and touches no other. */
    method Resume(who: Holder, env: Environment, k: nat)
      requires Valid() && who in polls && polls[who].phase.Ready? && polls[who].queue != []
      modifies this
      ensures Valid() && old(log) < log && who in polls
      ensures polls[who].phase.Ready? && polls[who].queue == old(polls[who].queue)[1..]
      ensures Calm(env) && Takeable(old(Now()), old(polls[who].queue)[0]) ==>
                TookTo(old(Now()), Now(), old(polls[who].queue)[0], env.job(old(polls[who].queue)[0].exec).value)
      ensures Quiet(env) && Takeable(old(Now()), old(polls[who].queue)[0])
              && Hopeless(env.job(old(polls[who].queue)[0].exec)) ==>
                FailedBy(old(Now()), Now(), old(polls[who].queue)[0].exec)
      ensures Quiet(env) && Takeable(old(Now()), old(polls[who].queue)[0]) ==>
                L.Free(LockOf(Now(), old(polls[who].queue)[0].exec), now)
    {
      hide Enabled, Next, Valid, Took, TookTo, Apart, Basics, LocksMatch, TurnsMatch, L.Free, FailedBy;
      ghost var s0, item := Now(), polls[who].queue[0];
      Grounded(who);
      if !env.ok(k) {
        Execute(who, Skip, env, k);
        return;
      }
      Execute(who, Claim, env, k);
      ghost var s1 := Now();
      if Quiet(env) && Takeable(s0, item) { ClaimTakes(s0, Poller(who, now, Claim)); }
      if polls[who].phase.Ready? { return; }
      ResumeClaimed(who, env, k + 1);
      ghost var s2 := Now();
      LocksValued();
      Execute(who, Unlock(env.ok(k + 5)), env, k + 5);
      if Quiet(env) && Takeable(s0, item) { UnlockFrees(s2, Poller(who, now, Unlock(true))); }
      if Calm(env) && Takeable(s0, item) {
        TookToAfter(s0, s1, s2, item, env.job(item.exec).value);
        UnlockKeepsTookTo(s0, s2, Poller(who, now, Unlock(true)), item, env.job(item.exec).value);
      }
      if Quiet(env) && Takeable(s0, item) && Hopeless(env.job(item.exec)) {
        UnlockKeepsFailed(s0, s1, s2, Poller(who, now, Unlock(true)), item.exec);
      }
    }

    /** The loop of poll; `start` is the state the poll started from. */
    method ResumeAll(who: Holder, env: Environment, k0: nat, ghost start: State) returns (k: nat)
      requires Valid() && who in polls && polls[who].phase.Ready?
      requires Undisturbed(start, env) ==>
                 polls[who].queue == Queue(start, env.batch(1))[0..] && Served(start, Now(), env, 0)
      modifies this
      ensures Valid() && old(log) <= log && who in polls && polls[who].phase.Ready?
      ensures Undisturbed(start, env) ==> Served(start, Now(), env, |env.batch(1)|)
    {
      hide Enabled, Next, Valid, Served, Took, TookTo, IsDueBatch, Undisturbed;
      k := k0;
      ghost var batch, i: nat := env.batch(1), 0;
      while polls[who].queue != [] && !env.cancelled(k)
        invariant Valid() && old(log) <= log && who in polls && polls[who].phase.Ready?
        invariant Undisturbed(start, env) ==>
                    i <= |batch| && polls[who].queue == Queue(start, batch)[i..] && Served(start, Now(), env, i)
        decreases |polls[who].queue|
      {
        ghost var before := Now();
        if Undisturbed(start, env) { UndisturbedAt(start, env, k); NextTakeable(start, before, env, i); }
        Resume(who, env, k);
        if Undisturbed(start, env) { ServedNext(start, before, Now(), env, i); }
        k, i := k + 6, i + 1;
      }
      if Undisturbed(start, env) {
        UndisturbedAt(start, env, k);
        assert i == |batch|;
      }
    }

    /** poll: get the scheduler lock, fetch what is due, resume one after the other, release. An
        undisturbed poll takes exactly the executions it fetched out of their delays, those that
        have been due longest first. */
    method PollDue(who: Holder, env: Environment)
      requires Valid() && who !in polls
      modifies this
      ensures Valid() && old(log) <= log && who !in polls
      ensures Undisturbed(old(Now()), env) ==>
                Served(old(Now()), Now(), env, |env.batch(1)|) && L.Free(turn, now)
    {
      hide Enabled, Next, Valid, Served, IsDueBatch, Basics, Fetched, Calm, Undisturbed;
      ghost var start := Now();
      Grounded(who);
      if Undisturbed(start, env) { UndisturbedAt(start, env, 0); UndisturbedQuery(start, env); }
      if !env.ok(0) {
        // the lock command itself failed
        Interfere(who, env.others(0));
        return;
      }
      Execute(who, Start, env, 0);
      if Undisturbed(start, env) { StartPolls(start, Poller(who, now, Start), env); }
      if who !in polls { return; }
      var err := FetchDueExecutions(who, env, 1);
      var k := 2;
      if !err {
        if Undisturbed(start, env) { FirstServed(start, Now(), who, env); }
        k := ResumeAll(who, env, 2, start);
      }
      ghost var before := Now();
      LocksValued();
      Execute(who, Finish(env.ok(k)), env, k);
      if Undisturbed(start, env) {
        UndisturbedAt(start, env, k);
        FinishFrees(before, Poller(who, now, Finish(true)));
        FinishKeepsServed(start, before, Poller(who, now, Finish(true)), env);
      }
    }
  }

  // ---------------------------------------------------------------------------------------
  // One execution of an undisturbed poll
  // ---------------------------------------------------------------------------------------

  /** The execution waits in that delay, and nobody holds its lock. */
  ghost predicate Takeable(s: State, item: Due) {
    InDelay(s.rows, item) && L.Free(LockOf(s, item.exec), s.now)
  }

  /** Only execution `e` was touched. */
  ghost predicate Apart(s: State, s': State, e: ExecId) {
    && s.now <= s'.now
    && forall d :: d != e ==> Alike(s, s', d)
  }

  ghost predicate Alike(s: State, s': State, d: ExecId) {
    && (d in s.rows <==> d in s'.rows)
    && (d in s.rows ==> s'.rows[d] == s.rows[d])
    && LockOf(s', d) == LockOf(s, d)
  }

  lemma ApartChain(s: State, s': State, s'': State, e: ExecId)
    requires Apart(s, s', e) && Apart(s', s'', e)
    ensures Apart(s, s'', e)
  {
    forall d | d != e ensures Alike(s, s'', d) { assert Alike(s, s', d) && Alike(s', s'', d); }
  }

  /** A step on the execution at hand leaves the others alone. */
  lemma StepApart(s: State, step: Step, e: ExecId)
    requires Enabled(s, step) && step.Poller? && WorksOn(s, step.who, e) && !step.action.Crash?
    ensures Apart(s, Next(s, step), e)
    ensures Next(s, step).resumed == if Resumes(step.action) then s.resumed + [Entry(s, step.who, step.at)]
              else s.resumed
    ensures e in s.rows && e in Next(s, step).rows && Next(s, step).rows[e] == RowAfter(s.rows[e], step.action)
  {
    hide IsDueBatch, NextTurn, PollAfter, NextPolls, Touch;
  }

  lemma ClaimTakes(s: State, step: Step)
    requires Enabled(s, step) && step.Poller? && step.action.Claim? && LocksMatch(s)
               && Takeable(s, s.polls[step.who].queue[0])
    ensures var item, s' := s.polls[step.who].queue[0], Next(s, step);
            && Apart(s, s', item.exec) && s'.rows == s.rows && s'.resumed == s.resumed
            && step.who in s'.polls && s'.polls[step.who] == Poll(s.polls[step.who].queue[1..], Claimed(item))
  {
    hide IsDueBatch, NextTurn;
    var e := s.polls[step.who].queue[0].exec;
    assert !WorksOn(s, step.who, e);
  }

  lemma CheckTakes(s: State, step: Step)
    requires Enabled(s, step) && step.Poller? && step.action == Check(true)
    requires step.who in s.polls && HasItem(s.polls[step.who].phase) && InDelay(s.rows, ItemOf(s, step.who))
    ensures var s' := Next(s, step);
            && Apart(s, s', ItemOf(s, step.who).exec) && s'.rows == s.rows && s'.resumed == s.resumed
            && step.who in s'.polls && s'.polls[step.who].phase == Checked(ItemOf(s, step.who))
  {
    hide IsDueBatch, NextTurn, NextLocks;
    CheckWritesNothing(s, step, ItemOf(s, step.who).exec);
    StepApart(s, step, ItemOf(s, step.who).exec);
  }

  ghost predicate LastTook(s: State, s': State, item: Due) {
    && item.exec in s.rows && |s'.resumed| == |s.resumed| + 1 && s'.resumed[..|s.resumed|] == s.resumed
    && s'.resumed[|s.resumed|].exec == item.exec && s'.resumed[|s.resumed|].gen == s.rows[item.exec].gen
  }

  /** The execution was taken out of the delay it was in, and no other was touched. */
  ghost predicate Took(s: State, s': State, item: Due) {
    && item.exec in s.rows && item.exec in s'.rows
    && Apart(s, s', item.exec) && LastTook(s, s', item)
    && !InDelay(s'.rows, Due(item.exec, s.rows[item.exec].gen))
    && s'.rows[item.exec].gen >= s.rows[item.exec].gen
  }

  /** And it is left as its workflow says. */
  ghost predicate TookTo(s: State, s': State, item: Due, job: Job) {
    Took(s, s', item) && LeftAs(s.rows[item.exec], s'.rows[item.exec], job, s'.resumed[|s.resumed|].at)
  }

  lemma UnlockKeepsTookTo(s: State, s1: State, step: Step, item: Due, job: Job)
    requires TookTo(s, s1, item, job) && Enabled(s1, step) && step.Poller? && WorksOn(s1, step.who, item.exec)
    requires step.action.Unlock?
    ensures TookTo(s, Next(s1, step), item, job)
  {
    hide Enabled, Next, Took, LeftAs;
    assert Took(s, s1, item);
    WriteKeepsTook(s, s1, step, item);
    TookHas(s, s1, item);
  }

  /** The execution has failed, and no other was touched. */
  ghost predicate FailedBy(s: State, s': State, e: ExecId) {
    e in s'.rows && s'.rows[e].status == W.FailedExec && s'.resumed == s.resumed && Apart(s, s', e)
  }

  lemma FailFails(s: State, s1: State, step: Step, e: ExecId)
    requires Enabled(s1, step) && step.Poller? && step.action == Fail(true) && WorksOn(s1, step.who, e)
    requires s1 == s || (Apart(s, s1, e) && s1.resumed == s.resumed)
    ensures FailedBy(s, Next(s1, step), e)
  {
    hide Enabled, Next, Apart;
    StepApart(s1, step, e);
    if s1 != s { ApartChain(s, s1, Next(s1, step), e); }
  }

  lemma UnlockKeepsFailed(s: State, s1: State, s2: State, step: Step, e: ExecId)
    requires Apart(s, s1, e) && s1.resumed == s.resumed && FailedBy(s1, s2, e)
    requires Enabled(s2, step) && step.Poller? && step.action.Unlock? && WorksOn(s2, step.who, e)
    ensures FailedBy(s, Next(s2, step), e)
  {
    hide Enabled, Next, Apart;
    StepApart(s2, step, e);
    ApartChain(s, s1, s2, e);
    ApartChain(s, s2, Next(s2, step), e);
  }

  lemma TookHas(s: State, s': State, item: Due)
    requires Took(s, s', item)
    ensures item.exec in s.rows && item.exec in s'.rows && |s'.resumed| == |s.resumed| + 1
  {
  }

  lemma CompletedAtOnce(job: Job, at: int)
    requires job.current in Indexed(job.nodes) && Indexed(job.nodes)[job.current].next == ""
    ensures forall before: Row, after: Row :: after.status == W.CompletedExec ==> LeftAs(before, after, job, at)
  {
  }

  lemma EndsAsNode(m: NodeMap, last: NodeId, before: Row, at: int, t: W.Trace)
    requires W.EndsAs(m, last, at, t)
    ensures t.result == None ==> AsNode(m, last, before, before.(status := W.FailedExec), at)
    ensures t.result == Some(W.WaitingForDelay) && t.row.nextRunAt.Some? ==>
              AsNode(m, last, before, Delayed(before, t.row.nextRunAt.value), at)
    ensures t.result.Some? && !t.result.value.WaitingForDelay? ==>
              AsNode(m, last, before, before.(status := t.result.value), at)
  {
  }

  /** What the executor's answer says is what the nodes ahead say. */
  lemma ResumeLeaves(job: Job, row: W.Row, at: int, before: Row)
    requires Runnable(job) && row.current == job.current
    requires Indexed(job.nodes)[job.current].next != ""
    ensures var t := W.Resume(Indexed(job.nodes), job.hasEmail, job.calls, at, row);
            var after := before.(status := W.Running);
            && (t.result == None ==> LeftAs(before, after.(status := W.FailedExec), job, at))
            && (t.result == Some(W.WaitingForDelay) && t.row.nextRunAt.Some? ==>
                 LeftAs(before, Delayed(after, t.row.nextRunAt.value), job, at))
            && (t.result.Some? && !t.result.value.WaitingForDelay? ==>
                 LeftAs(before, after.(status := t.result.value), job, at))
  {
    hide W.Walk, Indexed, W.EndsAs, AsNode, W.EndsThere, W.EmailsOn;
    var m := Indexed(job.nodes);
    var next := m[job.current].next;
    var walked := W.Row(W.Running, next, row.nextRunAt);
    var t := W.Walk(m, next, job.hasEmail, job.calls[1..], at, walked);
    assert W.Resume(m, job.hasEmail, job.calls, at, row) == t by { assert [] + t.mails == t.mails; }
    if forall k :: 0 <= k < |job.calls| ==> job.calls[k] {
      forall path | Ahead(m, job, path)
        ensures t.result == None ==> AsNode(m, path[|path| - 1], before, before.(status := W.FailedExec), at)
        ensures t.result == Some(W.WaitingForDelay) && t.row.nextRunAt.Some? ==>
                  AsNode(m, path[|path| - 1], before, Delayed(before, t.row.nextRunAt.value), at)
        ensures t.result.Some? && !t.result.value.WaitingForDelay? ==>
                  AsNode(m, path[|path| - 1], before, before.(status := t.result.value), at)
      {
        W.RunsAlong(m, path, job.hasEmail, job.calls[1..], at, walked);
        EndsAsNode(m, path[|path| - 1], before, at, t);
      }
    }
  }

  lemma ResumptionTakes(s: State, step: Step)
    requires Enabled(s, step) && step.Poller? && Resumes(step.action)
    requires step.who in s.polls && s.polls[step.who].phase.Checked?
    ensures Took(s, Next(s, step), ItemOf(s, step.who))
    ensures Next(s, step).rows[ItemOf(s, step.who).exec] == RowAfter(s.rows[ItemOf(s, step.who).exec], step.action)
    ensures Next(s, step).resumed[|s.resumed|].at == step.at
  {
    hide Enabled, Next, Apart;
    Unlocks(s, step);
    StepApart(s, step, ItemOf(s, step.who).exec);
  }

  lemma Unlocks(s: State, step: Step)
    requires Enabled(s, step) && step.Poller? && Resumes(step.action)
    requires step.who in s.polls && s.polls[step.who].phase.Checked?
    ensures WorksOn(s, step.who, ItemOf(s, step.who).exec) && ItemOf(s, step.who).exec in s.rows
    ensures ItemOf(s, step.who).exec in Next(s, step).rows
  {
    hide IsDueBatch;
  }

  /** A later step on the same execution does not put it back. */
  lemma WriteKeepsTook(s: State, s1: State, step: Step, item: Due)
    requires Took(s, s1, item) && Enabled(s1, step) && step.Poller? && WorksOn(s1, step.who, item.exec)
    requires step.action.Pause? || step.action.EndRun? || step.action.Unlock?
    ensures Took(s, Next(s1, step), item) && Next(s1, step).resumed == s1.resumed
    ensures Next(s1, step).rows[item.exec] == RowAfter(s1.rows[item.exec], step.action)
  {
    hide Enabled, Next, Apart;
    EndFits(s1, step);
    StepApart(s1, step, item.exec);
    ApartChain(s, s1, Next(s1, step), item.exec);
  }

  lemma EndFits(s: State, step: Step)
    requires Enabled(s, step) && step.Poller?
    ensures step.action.EndRun? ==> !step.action.status.WaitingForDelay?
  {
    hide IsDueBatch;
  }

  /** A step that only got there first. */
  lemma TookAfter(s: State, s1: State, s2: State, item: Due)
    requires Apart(s, s1, item.exec) && s1.rows == s.rows && s1.resumed == s.resumed && Took(s1, s2, item)
    ensures Took(s, s2, item)
  {
    ApartChain(s, s1, s2, item.exec);
  }

  lemma TookToAfter(s: State, s1: State, s2: State, item: Due, job: Job)
    requires Apart(s, s1, item.exec) && s1.rows == s.rows && s1.resumed == s.resumed && TookTo(s1, s2, item, job)
    ensures TookTo(s, s2, item, job)
  {
    hide Apart, Took, LeftAs;
    TookHas(s1, s2, item);
    TookAfter(s, s1, s2, item);
  }

  // ---------------------------------------------------------------------------------------
  // A whole undisturbed poll
  // ---------------------------------------------------------------------------------------

  /** Nothing disturbs the poll, the scheduler lock is free, the query gets its right answer, and
      none of the executions in it is locked. */
  ghost predicate Undisturbed(s: State, env: Environment) {
    && Calm(env) && L.Free(s.turn, s.now)
    && IsDueBatch(s.rows, Later(env, 1, Later(env, 0, s.now)), env.batch(1))
    && forall e :: e in env.batch(1) ==> L.Free(LockOf(s, e), s.now)
  }

  function Queue(s: State, batch: seq<ExecId>): seq<Due> {
    seq(|batch|, i requires 0 <= i < |batch| => Due(batch[i], if batch[i] in s.rows then s.rows[batch[i]].gen else 0))
  }

  /** The first `i` executions of the batch, in order, have been taken out of the delays they were
      in and left as their workflows say, and no other execution was touched. */
  ghost predicate Served(s: State, s': State, env: Environment, i: nat) {
    var batch := env.batch(1);
    && i <= |batch| && s.now <= s'.now
    && |s'.resumed| == |s.resumed| + i && s'.resumed[..|s.resumed|] == s.resumed
    && (forall j :: 0 <= j < i ==> ServedAt(s, s', env, batch[j], s'.resumed[|s.resumed| + j]))
    && (forall e :: e !in batch[..i] ==> Alike(s, s', e))
  }

  ghost predicate ServedAt(s: State, s': State, env: Environment, e: ExecId, r: Resumption) {
    && e in s.rows && e in s'.rows && r.exec == e && r.gen == s.rows[e].gen
    && !InDelay(s'.rows, Due(e, s.rows[e].gen))
    && env.job(e).Some? && LeftAs(s.rows[e], s'.rows[e], env.job(e).value, r.at)
    && L.Free(LockOf(s', e), s'.now)
  }

  lemma UndisturbedAt(s: State, env: Environment, k: nat)
    requires Undisturbed(s, env)
    ensures Calm(env) && env.others(k) == [] && env.ok(k) && !env.cancelled(k)
  {
    hide IsDueBatch;
  }

  lemma UndisturbedQuery(s: State, env: Environment)
    requires Undisturbed(s, env)
    ensures IsDueBatch(s.rows, Later(env, 1, Later(env, 0, s.now)), env.batch(1))
    ensures forall i :: 0 <= i < |env.batch(1)| ==> env.batch(1)[i] in s.rows
  {
  }

  lemma StartPolls(s: State, step: Step, env: Environment)
    requires Undisturbed(s, env) && TurnsMatch(s) && Enabled(s, step) && step.Poller? && step.action.Start?
    ensures var s' := Next(s, step);
            && step.who in s'.polls && s'.polls[step.who].phase.Fetching?
            && s'.rows == s.rows && s'.locks == s.locks && s'.resumed == s.resumed
  {
    hide IsDueBatch, NextLocks, PollAfter;
    StartWrites(s, step);
    assert step.who !in s.turn.deadlines;
  }

  lemma StartWrites(s: State, step: Step)
    requires Enabled(s, step) && step.Poller? && step.action.Start?
    ensures NextRows(s, step) == s.rows && NextLocks(s, step) == s.locks
  {
    hide IsDueBatch;
  }

  lemma FirstServed(s: State, s': State, who: Holder, env: Environment)
    requires Undisturbed(s, env) && s.now <= s'.now && s'.rows == s.rows && s'.locks == s.locks
               && s'.resumed == s.resumed
    requires who in s'.polls && forall i :: 0 <= i < |env.batch(1)| ==> env.batch(1)[i] in s'.rows
    requires s'.polls[who] == Poll(Fetched(s'.rows, env.batch(1)), Ready)
    ensures s'.polls[who].queue == Queue(s, env.batch(1))[0..] && Served(s, s', env, 0)
  {
    hide IsDueBatch, Calm;
  }

  lemma NextTakeable(s: State, s': State, env: Environment, i: nat)
    requires Undisturbed(s, env) && Served(s, s', env, i) && i < |env.batch(1)|
    ensures Takeable(s', Queue(s, env.batch(1))[i]) && Queue(s, env.batch(1))[i..][0] == Queue(s, env.batch(1))[i]
  {
    hide Calm;
    var e := env.batch(1)[i];
    assert e in env.batch(1);
    assert e !in env.batch(1)[..i];
    assert Alike(s, s', e);
  }

  lemma ServedNext(s: State, s1: State, s2: State, env: Environment, i: nat)
    requires Undisturbed(s, env) && Served(s, s1, env, i) && i < |env.batch(1)|
    requires var item := Queue(s, env.batch(1))[i];
               && env.job(item.exec).Some? && TookTo(s1, s2, item, env.job(item.exec).value)
               && L.Free(LockOf(s2, item.exec), s2.now)
    ensures Served(s, s2, env, i + 1)
    ensures Queue(s, env.batch(1))[i..][1..] == Queue(s, env.batch(1))[i + 1..]
  {
    hide Calm, LeftAs;
    var batch, n := env.batch(1), |s.resumed|;
    assert batch[i] !in batch[..i];
    assert Alike(s, s1, batch[i]);
    assert batch[..i + 1] == batch[..i] + [batch[i]];
    forall j | 0 <= j < i + 1 ensures ServedAt(s, s2, env, batch[j], s2.resumed[n + j]) {
      if j < i {
        assert s2.resumed[..|s1.resumed|][n + j] == s1.resumed[n + j];
        assert ServedAt(s, s1, env, batch[j], s1.resumed[n + j]);
        assert Alike(s1, s2, batch[j]);
      }
    }
    forall e | e !in batch[..i + 1] ensures Alike(s, s2, e) {
      assert Alike(s, s1, e) && Alike(s1, s2, e);
    }
    assert s2.resumed[..n] == s2.resumed[..|s1.resumed|][..n];
  }

  lemma FinishKeepsServed(s: State, s1: State, step: Step, env: Environment)
    requires Served(s, s1, env, |env.batch(1)|) && Enabled(s1, step) && step.Poller? && step.action.Finish?
    ensures Served(s, Next(s1, step), env, |env.batch(1)|)
  {
    hide IsDueBatch, NextTurn, NextPolls, LeftAs;
    var batch := env.batch(1);
    var s2 := Next(s1, step);
    assert s2.rows == s1.rows && s2.locks == s1.locks && s2.resumed == s1.resumed;
    forall e | e !in batch[..|batch|] ensures Alike(s, s2, e) { assert Alike(s, s1, e); }
    forall j | 0 <= j < |batch| ensures ServedAt(s, s2, env, batch[j], s2.resumed[|s.resumed| + j]) {
      assert ServedAt(s, s1, env, batch[j], s1.resumed[|s.resumed| + j]);
    }
  }

  /** Of the executions that had come due when an undisturbed poll asked, each is out of its delay, or
      fifty that had been due at least as long are. */
  lemma DueAreTaken(s: State, s': State, env: Environment, e: ExecId)
    requires Undisturbed(s, env) && Served(s, s', env, |env.batch(1)|)
    requires e in s.rows && s.rows[e].status.WaitingForDelay?
    requires s.rows[e].dueAt <= Later(env, 1, Later(env, 0, s.now))
    ensures if e in env.batch(1) then !InDelay(s'.rows, Due(e, s.rows[e].gen))
            else |env.batch(1)| == 50
                 && forall d :: d in env.batch(1) ==>
                      d in s.rows && s.rows[d].dueAt <= s.rows[e].dueAt && !InDelay(s'.rows, Due(d, s.rows[d].gen))
  {
    hide Calm, LeftAs;
    forall d | d in env.batch(1)
      ensures d in s.rows && !InDelay(s'.rows, Due(d, s.rows[d].gen))
    {
      var j :| 0 <= j < |env.batch(1)| && env.batch(1)[j] == d;
      assert ServedAt(s, s', env, env.batch(1)[j], s'.resumed[|s.resumed| + j]);
    }
  }

  /** Where a poll's own step leaves it. */
  ghost predicate Moved(before: Option<Poll>, action: Action, after: Poll) {
    match action
    case Start => after == Poll([], Fetching)
    case Fetch(_) => after.phase.Ready?
    case Skip => before.Some? && before.value.queue != [] && after == Poll(before.value.queue[1..], before.value.phase)
    case Claim => before.Some? && before.value.queue != [] && after.queue == before.value.queue[1..]
                  && (after.phase.Ready? || after.phase == Claimed(before.value.queue[0]))
    case Check(_) => before.Some? && HasItem(before.value.phase) && after.queue == before.value.queue
                     && (after.phase == Checked(before.value.phase.item)
                          || after.phase == Leaving(before.value.phase.item))
    case Advance =>
      before.Some? && HasItem(before.value.phase) && after == Poll(before.value.queue, Walking(before.value.phase.item))
    case Unlock(_) => before.Some? && after == Poll(before.value.queue, Ready)
    case Finish(_) => true
    case Crash => true
    case _ =>
      before.Some? && HasItem(before.value.phase) && after == Poll(before.value.queue, Leaving(before.value.phase.item))
  }

  lemma TimeOf(s: State, step: Step)
    requires Enabled(s, step)
    ensures Next(s, step).now == step.at >= s.now
  {
  }

  lemma FitsByPoll(s: State, s': State, who: Holder, action: Action)
    requires ActionFits(s, who, action) && (who in s'.polls <==> who in s.polls)
    requires who in s.polls ==> s'.polls[who] == s.polls[who]
    ensures ActionFits(s', who, action)
  {
  }

  lemma OwnStep(s: State, step: Step)
    requires Basics(s) && step.Poller? && step.at >= s.now && ActionFits(s, step.who, step.action)
               && !step.action.Fetch?
    ensures Enabled(s, step)
    ensures var polls := Next(s, step).polls;
            && (step.who in polls ==>
                 Moved(if step.who in s.polls then Some(s.polls[step.who]) else None, step.action, polls[step.who]))
            && (step.action.Finish? ==> step.who !in polls)
            && (!step.action.Finish? && !step.action.Crash? && !step.action.Start? ==> step.who in polls)
  {
    hide IsDueBatch, NextTurn, NextLocks, TurnsMatch, LocksMatch, LogSound;
    if step.who in s.polls { WorkedIsSound(s, step.who); }
  }

  /** The executor leaves a waiting row alone and fails, or completes the execution at once, or
      advances it and then pauses it again, completes it, or leaves it running with an error. */
  lemma ResumeShapes(m: NodeMap, hasEmail: bool, calls: seq<bool>, now: int, row: W.Row)
    requires row.status.WaitingForDelay?
    ensures var t := W.Resume(m, hasEmail, calls, now, row);
            if row.current !in m || !W.Granted(calls) then t.row == row && t.result == None
            else
              && (m[row.current].next == "" ==> t.result == Some(W.CompletedExec))
              && (t.result.Some? ==>
                   t.result.value == t.row.status && (t.row.status.WaitingForDelay? ==> t.row.nextRunAt.Some?))
  {
    if row.current in m && m[row.current].next != "" && W.Granted(calls) {
      var next := m[row.current].next;
      W.WalkShapes(m, next, hasEmail, calls[1..], now, W.Row(W.Running, next, row.nextRunAt));
    }
  }

  lemma OthersLeavePoll(s: State, step: Step, who: Holder)
    requires Enabled(s, step) && (step.Poller? ==> step.who != who)
    ensures who in NextPolls(s, step) <==> who in s.polls
    ensures who in s.polls ==> NextPolls(s, step)[who] == s.polls[who]
  {
    hide IsDueBatch, NextRows, NextTurn, NextLocks, PollAfter;
  }
}
