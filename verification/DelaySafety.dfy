/** What the delay scheduler's locks guarantee: a scheduled delay is resumed at most once, and
    not before it is due. */
module DelaySafety {
  import opened DelayMachine
  import L = Lease

  // ---------------------------------------------------------------------------------------
  // What every run keeps
  // ---------------------------------------------------------------------------------------

  /** The executions a poll may still take up. */
  ghost predicate Holds(poll: Poll, item: Due) {
    item in poll.queue || ((poll.phase.Claimed? || poll.phase.Checked?) && poll.phase.item == item)
  }

  /** A worker polls exactly while it believes it has the scheduler lock. */
  ghost predicate TurnsMatch(s: State) {
    && 0 <= s.turn.now <= s.now
    && (forall who :: who in s.polls <==> who in s.turn.deadlines)
  }

  /** A worker works on an execution exactly while it believes it has that execution's lock. */
  ghost predicate LocksMatch(s: State) {
    && 0 <= s.now
    && (forall e :: e in s.locks ==> s.locks[e].now <= s.now)
    && (forall e, who :: e in s.locks && who in s.locks[e].deadlines ==> WorksOn(s, who, e))
    && (forall who, e :: WorksOn(s, who, e) ==> e in s.locks && who in s.locks[e].deadlines)
  }

  ghost predicate WorksOn(s: State, who: Holder, e: ExecId) {
    who in s.polls && HasItem(s.polls[who].phase) && ItemOf(s, who).exec == e
  }

  /** What a poll holds was due when fetched, and stays due while that delay is not over. */
  ghost predicate ItemSound(s: State, item: Due) {
    && item.exec in s.rows && item.exec !in s.triggers
    && item.gen <= s.rows[item.exec].gen
    && (item.gen == s.rows[item.exec].gen ==> s.rows[item.exec].dueAt <= s.now)
  }

  ghost predicate ItemsSound(s: State) {
    && (forall who, item :: who in s.polls && Holds(s.polls[who], item) ==> ItemSound(s, item))
    && (forall who :: who in s.polls && HasItem(s.polls[who].phase) ==>
          s.polls[who].phase.item.exec in s.rows && s.polls[who].phase.item.exec !in s.triggers)
    && (forall e :: e in s.triggers ==> e in s.rows && s.rows[e].status.Running?)
  }

  ghost predicate LogSound(s: State) {
    forall i :: 0 <= i < |s.resumed| ==>
      var r := s.resumed[i];
      && r.exec in s.rows && r.fetched <= r.gen <= s.rows[r.exec].gen
      && (r.fetched == r.gen ==> r.dueAt <= r.at)
  }

  /** How a step may change the rows: no delay is forgotten, and without a new delay the due time
      stays and an execution does not wait again. */
  ghost predicate RowsGrow(rows: map<ExecId, Row>, rows': map<ExecId, Row>) {
    forall e :: e in rows ==>
      && e in rows' && rows[e].gen <= rows'[e].gen
      && (rows[e].gen == rows'[e].gen ==>
            rows[e].dueAt == rows'[e].dueAt && (rows'[e].status.WaitingForDelay? ==> rows[e].status.WaitingForDelay?))
  }

  lemma StepGrowsRows(s: State, step: Step)
    requires Enabled(s, step)
    ensures RowsGrow(s.rows, NextRows(s, step))
  {
    hide IsDueBatch;
  }

  /** What a poll holds after a step it already held, or has just fetched. */
  lemma HoldsFrom(s: State, step: Step, who: Holder, item: Due)
    requires Enabled(s, step) && who in NextPolls(s, step) && Holds(NextPolls(s, step)[who], item)
    ensures (who in s.polls && Holds(s.polls[who], item))
            || (step.Poller? && item.exec in s.rows && item.gen == s.rows[item.exec].gen
                && IsDue(s.rows[item.exec], step.at))
  {
    hide Touch, NextTurn, NextLocks;
  }

  lemma HasItemFrom(s: State, step: Step, who: Holder)
    requires Enabled(s, step) && who in NextPolls(s, step) && HasItem(NextPolls(s, step)[who].phase)
    ensures who in s.polls
    ensures var item := NextPolls(s, step)[who].phase.item;
            (HasItem(s.polls[who].phase) && ItemOf(s, who) == item) || Holds(s.polls[who], item)
  {
    hide Touch, NextTurn, NextLocks, IsDueBatch;
  }

  lemma HeldIsSound(s: State, who: Holder, item: Due)
    requires ItemsSound(s) && who in s.polls && Holds(s.polls[who], item)
    ensures ItemSound(s, item)
  {
  }

  lemma WorkedIsSound(s: State, who: Holder)
    requires ItemsSound(s) && who in s.polls
    ensures HasItem(s.polls[who].phase) ==> ItemOf(s, who).exec in s.rows && ItemOf(s, who).exec !in s.triggers
  {
  }

  lemma StepKeepsItems(s: State, step: Step)
    requires ItemsSound(s) && Enabled(s, step)
    ensures ItemsSound(Next(s, step))
  {
    hide Touch, IsDueBatch, NextTurn, NextLocks, NextPolls;
    StepGrowsRows(s, step);
    var s' := Next(s, step);
    forall who, item | who in s'.polls && Holds(s'.polls[who], item) ensures ItemSound(s', item) {
      HoldsFrom(s, step, who, item);
      if who in s.polls && Holds(s.polls[who], item) { HeldIsSound(s, who, item); }
    }
    forall who | who in s'.polls && HasItem(s'.polls[who].phase)
      ensures s'.polls[who].phase.item.exec in s'.rows && s'.polls[who].phase.item.exec !in s'.triggers
    {
      HasItemFrom(s, step, who);
      WorkedIsSound(s, who);
      if Holds(s.polls[who], s'.polls[who].phase.item) { HeldIsSound(s, who, s'.polls[who].phase.item); }
    }
  }

  lemma StepKeepsLog(s: State, step: Step)
    requires LogSound(s) && ItemsSound(s) && Enabled(s, step)
    ensures LogSound(Next(s, step))
  {
    hide Touch, IsDueBatch, NextTurn, NextLocks, NextPolls, NextRows;
    StepGrowsRows(s, step);
    if step.Poller? && Resumes(step.action) {
      HeldIsSound(s, step.who, ItemOf(s, step.who));
    }
  }

  lemma StepKeepsTurns(s: State, step: Step)
    requires TurnsMatch(s) && Enabled(s, step)
    ensures TurnsMatch(Next(s, step))
  {
    hide IsDueBatch, NextRows, NextLocks;
  }

  lemma OthersWorkOn(s: State, step: Step, who: Holder, e: ExecId)
    requires Enabled(s, step) && (step.Poller? ==> who != step.who)
    ensures WorksOn(Next(s, step), who, e) == WorksOn(s, who, e)
    ensures e in s.locks ==>
              e in NextLocks(s, step) && (who in NextLocks(s, step)[e].deadlines <==> who in s.locks[e].deadlines)
    ensures e in NextLocks(s, step) && who in NextLocks(s, step)[e].deadlines ==>
              e in s.locks && NextLocks(s, step)[e].deadlines[who] == s.locks[e].deadlines[who]
  {
    hide IsDueBatch, NextRows, NextTurn, PollAfter;
  }

  lemma ActorWorksOn(s: State, step: Step, e: ExecId)
    requires LocksMatch(s) && Enabled(s, step) && step.Poller?
    ensures WorksOn(Next(s, step), step.who, e) <==>
              (e in NextLocks(s, step) && step.who in NextLocks(s, step)[e].deadlines)
  {
    hide IsDueBatch, NextRows, NextTurn;
    assert WorksOn(s, step.who, e) <==> (e in s.locks && step.who in s.locks[e].deadlines);
  }

  lemma StepKeepsLocks(s: State, step: Step)
    requires LocksMatch(s) && Enabled(s, step)
    ensures LocksMatch(Next(s, step))
  {
    hide IsDueBatch, NextRows, NextTurn, PollAfter, NextPolls, WorksOn;
    var s' := Next(s, step);
    forall e, who ensures WorksOn(s', who, e) <==> (e in s'.locks && who in s'.locks[e].deadlines) {
      if step.Poller? && who == step.who { ActorWorksOn(s, step, e); } else { OthersWorkOn(s, step, who, e); }
    }
  }

  // ---------------------------------------------------------------------------------------
  // Leases that are kept
  // ---------------------------------------------------------------------------------------

  /** What a worker does for an execution it does before that execution's lease ends. */
  ghost predicate ResumeInTime(s: State, step: Step) {
    step.Poller? && !step.action.Crash? ==>
      forall e :: WorksOn(s, step.who, e) && step.who in LockOf(s, e).deadlines ==>
          step.at < LockOf(s, e).deadlines[step.who]
  }

  /** What a worker does in a poll it does before the scheduler lease ends. */
  ghost predicate PollInTime(s: State, step: Step) {
    step.Poller? && !step.action.Crash? && step.who in s.turn.deadlines ==> step.at < s.turn.deadlines[step.who]
  }

  ghost predicate ResumesInTime(s: State, steps: seq<Step>)
    requires ValidRun(s, steps)
    decreases |steps|
  {
    steps == [] ||
    (var front := steps[..|steps| - 1]; ResumesInTime(s, front) && ResumeInTime(Run(s, front), steps[|steps| - 1]))
  }

  ghost predicate PollsInTime(s: State, steps: seq<Step>)
    requires ValidRun(s, steps)
    decreases |steps|
  {
    steps == [] ||
    (var front := steps[..|steps| - 1]; PollsInTime(s, front) && PollInTime(Run(s, front), steps[|steps| - 1]))
  }

  /** The execution a resumption writes is waiting. */
  ghost predicate FreshStep(s: State, step: Step) {
    step.Poller? && Resumes(step.action) ==>
      forall e :: WorksOn(s, step.who, e) && e in s.rows ==> s.rows[e].status.WaitingForDelay?
  }

  /** Resumptions name different delays, and none of a delay that is still on. */
  ghost predicate Spent(s: State) {
    && (forall i :: 0 <= i < |s.resumed| ==>
          var r := s.resumed[i];
          r.exec in s.rows && r.gen <= s.rows[r.exec].gen
          && (r.gen == s.rows[r.exec].gen ==> !s.rows[r.exec].status.WaitingForDelay?))
    && (forall i, j :: 0 <= i < j < |s.resumed| ==>
          s.resumed[i].exec != s.resumed[j].exec || s.resumed[i].gen != s.resumed[j].gen)
  }

  lemma StepKeepsSpent(s: State, step: Step)
    requires Spent(s) && Enabled(s, step) && FreshStep(s, step)
    ensures Spent(Next(s, step))
  {
    hide IsDueBatch, NextTurn, NextLocks, NextPolls;
    StepGrowsRows(s, step);
    if step.Poller? && Resumes(step.action) {
      assert WorksOn(s, step.who, ItemOf(s, step.who).exec);
    }
  }

  // --- under the executions' leases ---

  ghost predicate ResumeOwned(s: State) {
    forall e :: e in s.locks ==> L.Owned(RESUME_LOCK, s.locks[e])
  }

  /** A worker between its re-check and its write, within its lease, still sees a waiting row. */
  ghost predicate CheckedWaits(s: State) {
    forall who :: who in s.polls && s.polls[who].phase.Checked? ==> StillWaits(s, who, ItemOf(s, who).exec)
  }

  ghost predicate StillWaits(s: State, who: Holder, e: ExecId) {
    who in LockOf(s, e).deadlines && s.now < LockOf(s, e).deadlines[who] ==>
        e in s.rows && s.rows[e].status.WaitingForDelay?
  }

  lemma StepKeepsResumeOwned(s: State, step: Step)
    requires ResumeOwned(s) && Enabled(s, step) && ResumeInTime(s, step)
    ensures ResumeOwned(Next(s, step))
  {
    hide IsDueBatch, NextTurn, NextPolls, NextRows, L.Next, L.Owned;
    var s' := Next(s, step);
    forall e | e in s'.locks ensures L.Owned(RESUME_LOCK, s'.locks[e]) {
      IdleIsOwned(RESUME_LOCK);
      if s'.locks[e] != LockOf(s, e) {
        var ev := LockEvent(step);
        assert s'.locks[e] == Touch(RESUME_LOCK, LockOf(s, e), ev);
        if L.Enabled(LockOf(s, e), ev) {
          assert step.action.Unlock? ==> WorksOn(s, step.who, e);
          L.EventKeepsOwned(RESUME_LOCK, LockOf(s, e), ev);
        }
      }
    }
  }

  function LockEvent(step: Step): L.Event
    requires step.Poller?
  {
    match step.action
    case Claim => L.Acquire(step.who, step.at)
    case Unlock(ok) => if ok then L.Release(step.who, step.at) else L.Vanish(step.who, step.at)
    case _ => L.Vanish(step.who, step.at)
  }

  lemma IdleIsOwned(u: L.Use)
    ensures L.Owned(u, L.IDLE)
  {
  }

  /** Two workers on one execution, both within their leases, are one. */
  lemma SoleWorker(s: State, e: ExecId, a: Holder, b: Holder, at: int)
    requires ResumeOwned(s) && LocksMatch(s) && s.now <= at && WorksOn(s, a, e) && WorksOn(s, b, e)
    requires a in LockOf(s, e).deadlines && at < LockOf(s, e).deadlines[a]
    requires b in LockOf(s, e).deadlines && at < LockOf(s, e).deadlines[b]
    ensures a == b
  {
  }

  lemma CheckedFrom(s: State, step: Step, who: Holder)
    requires Enabled(s, step) && who in NextPolls(s, step) && NextPolls(s, step)[who].phase.Checked?
    ensures who in s.polls && HasItem(s.polls[who].phase) && ItemOf(s, who) == NextPolls(s, step)[who].phase.item
    ensures if step.Poller? && step.who == who then step.action.Check?
              && s.rows[ItemOf(s, who).exec].status.WaitingForDelay?
            else s.polls[who].phase.Checked?
  {
    hide IsDueBatch, NextTurn, NextLocks;
  }

  /** A row changes only at the hands of a trigger that has not paused yet, or of a worker on it. */
  lemma WhoWrites(s: State, step: Step, e: ExecId)
    requires Enabled(s, step) && e in s.rows && e !in s.triggers
    ensures e in NextRows(s, step)
    ensures NextRows(s, step)[e] == s.rows[e] || (step.Poller? && !step.action.Crash? && WorksOn(s, step.who, e))
  {
    hide IsDueBatch;
  }

  lemma CheckedStays(s: State, step: Step, who: Holder)
    requires CheckedWaits(s) && ResumeOwned(s) && LocksMatch(s) && ItemsSound(s) && Enabled(s, step)
               && ResumeInTime(s, step)
    requires who in NextPolls(s, step) && NextPolls(s, step)[who].phase.Checked?
    ensures StillWaits(Next(s, step), who, NextPolls(s, step)[who].phase.item.exec)
  {
    hide IsDueBatch, NextTurn, NextPolls, NextRows, NextLocks, ResumeOwned, LocksMatch, ItemsSound, RowAfter;
    CheckedFrom(s, step, who);
    var e := ItemOf(s, who).exec;
    WorkedIsSound(s, who);
    WhoWrites(s, step, e);
    if step.Poller? && step.who == who {
      CheckWritesNothing(s, step, e);
    } else {
      assert StillWaits(s, who, e);
      OthersWorkOn(s, step, who, e);
      WorksLocked(s, who, e);
      if step.Poller? && !step.action.Crash? && WorksOn(s, step.who, e) {
        WorksLocked(s, step.who, e);
        if step.at < LockOf(s, e).deadlines[who] { SoleWorker(s, e, who, step.who, step.at); }
      }
    }
  }

  lemma CheckWritesNothing(s: State, step: Step, e: ExecId)
    requires Enabled(s, step) && step.Poller? && step.action.Check?
    ensures NextRows(s, step) == s.rows
  {
    hide IsDueBatch;
  }

  lemma WorksLocked(s: State, who: Holder, e: ExecId)
    requires LocksMatch(s) && WorksOn(s, who, e)
    ensures e in s.locks && who in s.locks[e].deadlines
  {
  }

  lemma StepKeepsCheckedWaits(s: State, step: Step)
    requires CheckedWaits(s) && ResumeOwned(s) && LocksMatch(s) && ItemsSound(s) && Enabled(s, step)
               && ResumeInTime(s, step)
    ensures CheckedWaits(Next(s, step))
  {
    hide IsDueBatch, NextTurn, NextPolls, NextRows, NextLocks, ResumeOwned, LocksMatch, ItemsSound;
    var s' := Next(s, step);
    forall who | who in s'.polls && s'.polls[who].phase.Checked? ensures StillWaits(s', who, ItemOf(s', who).exec) {
      CheckedStays(s, step, who);
    }
  }

  // --- under the scheduler lease ---

  /** A poll within its lease holds different executions, all still in the delay they were
      fetched for. */
  ghost predicate LivePoll(rows: map<ExecId, Row>, poll: Poll) {
    && (forall item :: Holds(poll, item) ==> InDelay(rows, item))
    && (forall i, j :: 0 <= i < j < |poll.queue| ==> poll.queue[i].exec != poll.queue[j].exec)
    && (HasItem(poll.phase) ==> forall i :: 0 <= i < |poll.queue| ==> poll.queue[i].exec != poll.phase.item.exec)
  }

  predicate InDelay(rows: map<ExecId, Row>, item: Due) {
    item.exec in rows && rows[item.exec].status.WaitingForDelay? && rows[item.exec].gen == item.gen
  }

  ghost predicate Live(s: State, who: Holder) {
    who in s.polls && who in s.turn.deadlines && s.now < s.turn.deadlines[who]
  }

  ghost predicate LivePolls(s: State) {
    forall who :: Live(s, who) ==> LivePoll(s.rows, s.polls[who])
  }

  /** Every resumption ended the delay its poll had fetched. */
  ghost predicate Current(s: State) {
    forall i :: 0 <= i < |s.resumed| ==> s.resumed[i].fetched == s.resumed[i].gen
  }

  lemma TurnStaysOwned(s: State, step: Step)
    requires L.Owned(POLL_LOCK, s.turn) && Enabled(s, step) && PollInTime(s, step)
    ensures L.Owned(POLL_LOCK, NextTurn(s, step))
  {
    hide IsDueBatch, L.Next, L.Owned;
    if step.Poller? && (step.action.Start? || step.action.Finish? || step.action.Crash?) {
      var ev := if step.action.Start? then L.Acquire(step.who, step.at)
                else if step.action.Finish? && step.action.ok then L.Release(step.who, step.at)
                    else L.Vanish(step.who, step.at);
      if L.Enabled(s.turn, ev) { L.EventKeepsOwned(POLL_LOCK, s.turn, ev); }
    }
  }

  lemma SolePoll(s: State, a: Holder, b: Holder, at: int)
    requires L.Owned(POLL_LOCK, s.turn) && TurnsMatch(s) && s.now <= at
    requires a in s.turn.deadlines && at < s.turn.deadlines[a]
    requires b in s.turn.deadlines && at < s.turn.deadlines[b]
    ensures a == b
  {
  }

  lemma LiveBefore(s: State, step: Step, who: Holder)
    requires TurnsMatch(s) && Enabled(s, step) && Live(Next(s, step), who)
    ensures step == Poller(who, step.at, Start)
            || (Live(s, who) && NextTurn(s, step).deadlines[who] == s.turn.deadlines[who]
                && step.at < s.turn.deadlines[who])
  {
    hide IsDueBatch, NextRows, NextLocks, PollAfter;
  }

  /** The rows of a live poll's items are the poll's alone. */
  lemma OthersLeaveLive(s: State, step: Step, who: Holder, item: Due)
    requires ItemsSound(s) && TurnsMatch(s) && L.Owned(POLL_LOCK, s.turn) && Enabled(s, step) && PollInTime(s, step)
    requires Live(s, who) && step.at < s.turn.deadlines[who] && LivePoll(s.rows, s.polls[who])
               && Holds(s.polls[who], item)
    requires step.Poller? ==> step.who != who
    ensures InDelay(NextRows(s, step), item)
  {
    hide IsDueBatch, NextRows, L.Owned, ItemsSound, TurnsMatch;
    HeldIsSound(s, who, item);
    WhoWrites(s, step, item.exec);
    if step.Poller? && !step.action.Crash? && WorksOn(s, step.who, item.exec) {
      PollerHasTurn(s, step.who);
      SolePoll(s, who, step.who, step.at);
    }
  }

  lemma PollerHasTurn(s: State, who: Holder)
    requires TurnsMatch(s) && who in s.polls
    ensures who in s.turn.deadlines
  {
  }

  lemma PolledBy(s: State, step: Step, who: Holder)
    requires Enabled(s, step) && who in s.polls && who in NextPolls(s, step) && (step.Poller? ==> step.who != who)
    ensures NextPolls(s, step)[who] == s.polls[who]
  {
    hide IsDueBatch, NextRows, NextTurn, NextLocks, PollAfter;
  }

  lemma FetchIsLive(s: State, step: Step)
    requires Enabled(s, step) && step.Poller? && step.action.Fetch?
    ensures LivePoll(NextRows(s, step), NextPolls(s, step)[step.who])
  {
    hide NextTurn, NextLocks;
    var batch := step.action.batch;
    var poll := NextPolls(s, step)[step.who];
    assert poll == Poll(Fetched(s.rows, batch), Ready) && NextRows(s, step) == s.rows;
  }

  /** What a poll's own steps leave of what it holds. */
  lemma OwnPoll(s: State, step: Step)
    requires Enabled(s, step) && step.Poller? && !step.action.Start? && !step.action.Fetch?
    requires step.who in NextPolls(s, step) && LivePoll(s.rows, s.polls[step.who])
    ensures LivePoll(NextRows(s, step), NextPolls(s, step)[step.who])
  {
    hide IsDueBatch, NextTurn, NextLocks;
    var who := step.who;
    var poll, poll' := s.polls[who], NextPolls(s, step)[who];
    var rows' := NextRows(s, step);
    forall item | Holds(poll', item) ensures InDelay(rows', item) {
      assert Holds(poll, item);
    }
  }

  lemma StepKeepsLivePolls(s: State, step: Step)
    requires LivePolls(s) && ItemsSound(s) && TurnsMatch(s) && L.Owned(POLL_LOCK, s.turn) && Enabled(s, step)
               && PollInTime(s, step)
    ensures LivePolls(Next(s, step))
  {
    hide IsDueBatch, NextTurn, NextPolls, NextRows, NextLocks, ItemsSound, TurnsMatch, L.Owned, LivePoll;
    var s' := Next(s, step);
    forall who | Live(s', who) ensures LivePoll(s'.rows, s'.polls[who]) {
      LivePollStays(s, step, who);
    }
  }

  lemma LivePollStays(s: State, step: Step, who: Holder)
    requires LivePolls(s) && ItemsSound(s) && TurnsMatch(s) && L.Owned(POLL_LOCK, s.turn) && Enabled(s, step)
               && PollInTime(s, step)
    requires Live(Next(s, step), who)
    ensures LivePoll(NextRows(s, step), NextPolls(s, step)[who])
  {
    hide IsDueBatch, NextTurn, NextPolls, NextRows, NextLocks, ItemsSound, TurnsMatch, L.Owned;
    LiveBefore(s, step, who);
    if step == Poller(who, step.at, Start) {
      StartHoldsNothing(s, step);
    } else if step.Poller? && step.who == who {
      if step.action.Fetch? { FetchIsLive(s, step); } else { OwnPoll(s, step); }
    } else {
      PolledBy(s, step, who);
      var poll := s.polls[who];
      assert LivePoll(s.rows, poll);
      forall item | Holds(poll, item) ensures InDelay(NextRows(s, step), item) {
        OthersLeaveLive(s, step, who, item);
      }
    }
  }

  lemma StartHoldsNothing(s: State, step: Step)
    requires Enabled(s, step) && step.Poller? && step.action.Start? && step.who in NextPolls(s, step)
    ensures NextPolls(s, step)[step.who] == Poll([], Fetching)
  {
    hide IsDueBatch, NextRows, NextTurn, NextLocks;
  }

  // ---------------------------------------------------------------------------------------
  // Main results
  // ---------------------------------------------------------------------------------------

  /** What every run keeps, however late its workers are. */
  ghost predicate Basics(s: State) {
    TurnsMatch(s) && LocksMatch(s) && ItemsSound(s) && LogSound(s)
  }

  lemma {:induction false} BasicsAlways(steps: seq<Step>)
    requires ValidRun(IDLE, steps)
    ensures Basics(Run(IDLE, steps))
    decreases |steps|
  {
    hide Next, Enabled, TurnsMatch, LocksMatch, ItemsSound, LogSound;
    if steps == [] {
      IdleIsSound();
    } else {
      var front, step := steps[..|steps| - 1], steps[|steps| - 1];
      BasicsAlways(front);
      var s := Run(IDLE, front);
      StepKeepsTurns(s, step);
      StepKeepsLocks(s, step);
      StepKeepsItems(s, step);
      StepKeepsLog(s, step);
    }
  }

  lemma IdleIsSound()
    ensures Basics(IDLE) && ResumeOwned(IDLE) && CheckedWaits(IDLE) && Spent(IDLE)
    ensures L.Owned(POLL_LOCK, IDLE.turn) && LivePolls(IDLE) && Current(IDLE)
  {
    IdleIsOwned(POLL_LOCK);
  }

  lemma ResumeIsFresh(s: State, step: Step)
    requires CheckedWaits(s) && LocksMatch(s) && Enabled(s, step) && ResumeInTime(s, step)
    ensures FreshStep(s, step)
  {
    hide IsDueBatch;
    if step.Poller? && Resumes(step.action) {
      var e := ItemOf(s, step.who).exec;
      assert WorksOn(s, step.who, e);
      assert StillWaits(s, step.who, e);
    }
  }

  lemma {:induction false} SpentByResumeLeases(steps: seq<Step>)
    requires ValidRun(IDLE, steps) && ResumesInTime(IDLE, steps)
    ensures var s := Run(IDLE, steps); ResumeOwned(s) && CheckedWaits(s) && Spent(s)
    decreases |steps|
  {
    hide Next, Enabled, TurnsMatch, LocksMatch, ItemsSound, LogSound, ResumeOwned, CheckedWaits, Spent, FreshStep,
        ResumeInTime;
    IdleIsSound();
    if steps != [] {
      var front, step := steps[..|steps| - 1], steps[|steps| - 1];
      SpentByResumeLeases(front);
      BasicsAlways(front);
      var s := Run(IDLE, front);
      ResumeIsFresh(s, step);
      StepKeepsResumeOwned(s, step);
      StepKeepsCheckedWaits(s, step);
      StepKeepsSpent(s, step);
    }
  }

  lemma PollIsFresh(s: State, step: Step)
    requires LivePolls(s) && TurnsMatch(s) && Enabled(s, step) && PollInTime(s, step)
    ensures FreshStep(s, step)
    ensures Current(s) ==> Current(Next(s, step))
  {
    hide IsDueBatch, NextRows, NextLocks, NextPolls, NextTurn;
    if step.Poller? && Resumes(step.action) {
      assert Live(s, step.who);
      assert Holds(s.polls[step.who], ItemOf(s, step.who));
    }
  }

  lemma {:induction false} SpentByPollLease(steps: seq<Step>)
    requires ValidRun(IDLE, steps) && PollsInTime(IDLE, steps)
    ensures var s := Run(IDLE, steps); L.Owned(POLL_LOCK, s.turn) && LivePolls(s) && Spent(s) && Current(s)
    decreases |steps|
  {
    hide Next, Enabled, TurnsMatch, LocksMatch, ItemsSound, LogSound, LivePolls, Spent, FreshStep, PollInTime, Current,
        L.Owned;
    IdleIsSound();
    if steps != [] {
      var front, step := steps[..|steps| - 1], steps[|steps| - 1];
      SpentByPollLease(front);
      BasicsAlways(front);
      var s := Run(IDLE, front);
      PollIsFresh(s, step);
      TurnStaysOwned(s, step);
      TurnAfter(s, step);
      StepKeepsLivePolls(s, step);
      StepKeepsSpent(s, step);
    }
  }

  lemma TurnAfter(s: State, step: Step)
    requires Enabled(s, step)
    ensures Next(s, step).turn == NextTurn(s, step)
  {
  }

  /** Never early: if polls keep within the scheduler lease, no delay is resumed before it is due. */
  lemma NeverEarly(steps: seq<Step>, i: nat)
    requires ValidRun(IDLE, steps) && PollsInTime(IDLE, steps) && i < |Run(IDLE, steps).resumed|
    ensures Run(IDLE, steps).resumed[i].dueAt <= Run(IDLE, steps).resumed[i].at
  {
    BasicsAlways(steps);
    SpentByPollLease(steps);
  }

  /** In any run at all, a delay is resumed early only by a poll that had fetched the execution
      for an earlier delay: the re-check looks at the status again, but not at the due time. */
  lemma EarlyMeansRescheduled(steps: seq<Step>, i: nat)
    requires ValidRun(IDLE, steps) && i < |Run(IDLE, steps).resumed|
    requires Run(IDLE, steps).resumed[i].at < Run(IDLE, steps).resumed[i].dueAt
    ensures Run(IDLE, steps).resumed[i].fetched < Run(IDLE, steps).resumed[i].gen
  {
    BasicsAlways(steps);
  }

  /** Neither scheduler lock excludes, since all workers write the same constant value. */
  lemma SchedulerLocksNotExclusive()
    ensures !L.Exclusive(POLL_LOCK) && !L.Exclusive(RESUME_LOCK)
  {
    L.ExclusiveExactly(POLL_LOCK);
    L.ExclusiveExactly(RESUME_LOCK);
    assert POLL_LOCK.value(0) == POLL_LOCK.value(1) && RESUME_LOCK.value(0) == RESUME_LOCK.value(1);
  }
}
