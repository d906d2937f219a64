/** How late the scheduler's workers may be: exactly which overruns of the two leases let a delay
    be resumed twice, or before it is due. Margins are in milliseconds after the lease ends. */
module DelayMargins {
  import opened Wrappers
  import opened DelayMachine
  import opened DelaySafety
  import L = Lease
  import W = WorkflowExecutor

  /** An execution lock set at any moment of a poll outlasts the scheduler lock by this much. */
  const SLACK := 75_000

  /** What a worker does in a poll it does before `p` after the end of its scheduler lease. */
  ghost predicate PollWithin(s: State, step: Step, p: int) {
    step.Poller? && !step.action.Crash? && step.who in s.turn.deadlines ==> step.at < s.turn.deadlines[step.who] + p
  }

  /** What it does for an execution it does before `r` after the end of that execution's lease. */
  ghost predicate ResumeWithin(s: State, step: Step, r: int) {
    step.Poller? && !step.action.Crash? ==>
      forall e :: WorksOn(s, step.who, e) && step.who in LockOf(s, e).deadlines ==>
        step.at < LockOf(s, e).deadlines[step.who] + r
  }

  /** The run can be taken, and all its workers keep both margins. */
  ghost predicate Within(steps: seq<Step>, p: int, r: int)
    ensures Within(steps, p, r) ==> ValidRun(IDLE, steps)
    decreases |steps|
  {
    steps == [] ||
    var front, step := steps[..|steps| - 1], steps[|steps| - 1];
    && Within(front, p, r)
    && Enabled(Run(IDLE, front), step)
    && PollWithin(Run(IDLE, front), step, p) && ResumeWithin(Run(IDLE, front), step, r)
  }

  lemma {:induction false} WithinWider(steps: seq<Step>, p: int, r: int, p': int, r': int)
    requires Within(steps, p, r) && p <= p' && r <= r'
    ensures Within(steps, p', r')
    decreases |steps|
  {
    hide Run, Enabled, LockOf;
    if steps != [] { WithinWider(steps[..|steps| - 1], p, r, p', r'); }
  }

  /** Every worker's lease of an execution ends well after its scheduler lease. */
  ghost predicate Outlasts(s: State) {
    && (forall who :: who in s.turn.deadlines ==> s.turn.deadlines[who] <= s.now + 45_000)
    && (forall who, e :: WorksOn(s, who, e) && who in s.turn.deadlines && who in LockOf(s, e).deadlines ==>
          s.turn.deadlines[who] + SLACK <= LockOf(s, e).deadlines[who])
  }

  lemma TurnDeadline(s: State, step: Step, who: Holder)
    requires Enabled(s, step) && who in NextTurn(s, step).deadlines
    ensures var d := NextTurn(s, step).deadlines[who];
            (who in s.turn.deadlines && d == s.turn.deadlines[who])
                || (step == Poller(who, step.at, Start) && d == step.at + 45_000)
  {
    hide IsDueBatch;
  }

  lemma LockDeadline(s: State, step: Step, e: ExecId)
    requires LocksMatch(s) && Enabled(s, step) && step.Poller? && WorksOn(Next(s, step), step.who, e)
    ensures (LockOf(Next(s, step), e).deadlines == LockOf(s, e).deadlines && WorksOn(s, step.who, e))
            || (step.action.Claim? && step.who in LockOf(Next(s, step), e).deadlines
                && LockOf(Next(s, step), e).deadlines[step.who] == step.at + 120_000)
  {
    hide IsDueBatch, NextRows, NextTurn;
    assert WorksOn(s, step.who, e) ==> e in s.locks && step.who in s.locks[e].deadlines;
    if step.action.Claim? {
      assert !WorksOn(s, step.who, s.polls[step.who].queue[0].exec);
    }
  }

  lemma StepKeepsOutlasts(s: State, step: Step)
    requires Outlasts(s) && LocksMatch(s) && TurnsMatch(s) && Enabled(s, step)
    ensures Outlasts(Next(s, step))
  {
    hide IsDueBatch, NextTurn, NextRows, NextLocks, NextPolls, LocksMatch, TurnsMatch, WorksOn;
    var s' := Next(s, step);
    forall who | who in s'.turn.deadlines ensures s'.turn.deadlines[who] <= s'.now + 45_000 {
      TurnDeadline(s, step, who);
    }
    forall who, e | WorksOn(s', who, e) && who in s'.turn.deadlines && who in LockOf(s', e).deadlines
      ensures s'.turn.deadlines[who] + SLACK <= LockOf(s', e).deadlines[who]
    {
      TurnDeadline(s, step, who);
      if step.Poller? && step.who == who {
        LockDeadline(s, step, e);
        StartWorksOnNothing(s, step, e);
      } else {
        OthersWorkOn(s, step, who, e);
      }
    }
  }

  lemma StartWorksOnNothing(s: State, step: Step, e: ExecId)
    requires Enabled(s, step) && step.Poller?
    ensures step.action.Start? ==> !WorksOn(Next(s, step), step.who, e)
  {
    hide IsDueBatch, NextTurn, NextRows, NextLocks;
  }

  /** Polls that overrun by no more than the slack keep every execution lease. */
  lemma {:induction false} SlackSuffices(steps: seq<Step>, p: int, r: int)
    requires Within(steps, p, r) && p <= SLACK
    ensures Outlasts(Run(IDLE, steps)) && ResumesInTime(IDLE, steps)
    decreases |steps|
  {
    hide Next, Enabled, Outlasts, TurnsMatch, LocksMatch, ItemsSound, LogSound, PollWithin, ResumeWithin, ResumeInTime;
    if steps == [] {
      IdleOutlasts();
    } else {
      var front, step := steps[..|steps| - 1], steps[|steps| - 1];
      SlackSuffices(front, p, r);
      BasicsAlways(front);
      StepKeepsOutlasts(Run(IDLE, front), step);
      SlackSufficesNow(Run(IDLE, front), step, p);
    }
  }

  lemma IdleOutlasts()
    ensures Outlasts(IDLE)
  {
  }

  lemma SlackSufficesNow(s: State, step: Step, p: int)
    requires Outlasts(s) && TurnsMatch(s) && Enabled(s, step) && PollWithin(s, step, p) && p <= SLACK
    ensures ResumeInTime(s, step)
  {
    hide IsDueBatch;
  }

  lemma {:induction false} NoMarginInTime(steps: seq<Step>, p: int, r: int)
    requires Within(steps, p, r)
    ensures r <= 0 ==> ResumesInTime(IDLE, steps)
    ensures p <= 0 ==> PollsInTime(IDLE, steps)
    decreases |steps|
  {
    hide Run, Enabled, LockOf;
    if steps != [] { NoMarginInTime(steps[..|steps| - 1], p, r); }
  }

  // ---------------------------------------------------------------------------------------
  // Two late workers
  // ---------------------------------------------------------------------------------------

  ghost predicate Reached(s: State, p: int, r: int) {
    exists steps :: Within(steps, p, r) && Run(IDLE, steps) == s
  }

  lemma Extend(s: State, step: Step, s': State, p: int, r: int)
    requires Reached(s, p, r) && Enabled(s, step) && Next(s, step) == s'
    requires PollWithin(s, step, p) && ResumeWithin(s, step, r)
    ensures Reached(s', p, r)
  {
    hide Enabled, PollWithin, ResumeWithin, Next;
    var steps :| Within(steps, p, r) && Run(IDLE, steps) == s;
    var longer := steps + [step];
    assert longer[..|longer| - 1] == steps;
    assert Within(longer, p, r) && Run(IDLE, longer) == s';
  }

  const FETCHED := Due(7, 1)
  const WAITS := Row(W.WaitingForDelay, 5, 1)
  const RUNS := Row(W.Running, 5, 1)

  /** The entry of a lock that worker `who` has set at `at`, and the believers. */
  function Held(u: L.Use, who: Holder, at: int, deadlines: map<Holder, int>): L.State {
    L.State(at, Some(L.Grant(u.value(who), at + u.ttl(who), who)), deadlines[who := at + u.ttl(who)])
  }

  const TURN_1 := Held(POLL_LOCK, 1, 10, map[])

  function Turn2(at: int): L.State { Held(POLL_LOCK, 2, at, map[1 := 45_010]) }

  /** Execution 7, alone. */
  function Scene(now: int, turn: L.State, locks: map<ExecId, L.State>, row: Row, polls: map<Holder, Poll>,
                 log: seq<Resumption>): State {
    State(now, turn, locks, map[7 := row], {}, polls, log)
  }

  const STALLED := Scene(10, TURN_1, map[], WAITS, map[1 := Poll([FETCHED], Ready)], [])

  lemma ReachIdle(p: int, r: int)
    ensures Reached(IDLE, p, r)
  {
    assert Within([], p, r) && Run(IDLE, []) == IDLE;
  }

  lemma ReachDelayed(p: int, r: int)
    ensures Reached(Scene(0, L.IDLE, map[], WAITS, map[], []), p, r)
  {
    hide Reached, IsDueBatch;
    ReachIdle(p, r);
    var s1 := Next(IDLE, Create(7, 0));
    Extend(IDLE, Create(7, 0), s1, p, r);
    Extend(s1, TriggerPauses(7, 0, 5), Scene(0, L.IDLE, map[], WAITS, map[], []), p, r);
  }

  lemma ReachStarted(p: int, r: int)
    requires p >= 0
    ensures Reached(Scene(10, TURN_1, map[], WAITS, map[1 := Poll([], Fetching)], []), p, r)
  {
    hide Reached, IsDueBatch;
    ReachDelayed(p, r);
    Extend(Scene(0, L.IDLE, map[], WAITS, map[], []), Poller(1, 10, Start),
           Scene(10, TURN_1, map[], WAITS, map[1 := Poll([], Fetching)], []), p, r);
  }

  /** Execution 7 is the whole answer of the query while it is due. */
  lemma OnlySeven(at: int)
    requires at >= 5
    ensures IsDueBatch(map[7 := WAITS], at, [7]) && Fetched(map[7 := WAITS], [7]) == [FETCHED]
  {
  }

  /** Worker 1 has fetched execution 7 and stalls. */
  lemma ReachStalled(p: int, r: int)
    requires p >= 0
    ensures Reached(STALLED, p, r)
  {
    hide Reached, IsDueBatch, Fetched;
    ReachStarted(p, r);
    OnlySeven(10);
    Extend(Scene(10, TURN_1, map[], WAITS, map[1 := Poll([], Fetching)], []), Poller(1, 10, Fetch([7])), STALLED, p, r);
  }

  /** The believers in execution 7's lock. */
  function Believers(locks: map<ExecId, L.State>): map<Holder, int> { if 7 in locks then locks[7].deadlines else map[] }

  /** At `at` worker 1's scheduler lease is over, nobody holds execution 7's lock, and worker 2 has
      never asked for it. */
  predicate Open(locks: map<ExecId, L.State>, now: int, at: int) {
    && at >= 45_010 && now <= at
    && (7 in locks ==> locks[7].now <= at && L.Free(locks[7], at) && 2 !in locks[7].deadlines)
  }

  function Before(now: int, locks: map<ExecId, L.State>, first: Poll): State {
    Scene(now, TURN_1, locks, WAITS, map[1 := first], [])
  }

  /** Worker 2 is at work at `at`, while worker 1 is where it was. */
  function During(at: int, locks: map<ExecId, L.State>, row: Row, first: Poll, second: Poll,
                  log: seq<Resumption>): State {
    Scene(at, Turn2(at), locks, row, map[1 := first, 2 := second], log)
  }

  lemma SecondStarts(now: int, locks: map<ExecId, L.State>, first: Poll, at: int, p: int, r: int)
    requires p >= 0 && Open(locks, now, at) && Reached(Before(now, locks, first), p, r)
    ensures Reached(During(at, locks, WAITS, first, Poll([], Fetching), []), p, r)
  {
    hide Reached, IsDueBatch;
    Extend(Before(now, locks, first), Poller(2, at, Start), During(at, locks, WAITS, first, Poll([], Fetching), []), p,
           r);
  }

  lemma SecondFetches(now: int, locks: map<ExecId, L.State>, first: Poll, at: int, p: int, r: int)
    requires p >= 0 && Open(locks, now, at) && Reached(Before(now, locks, first), p, r)
    ensures Reached(During(at, locks, WAITS, first, Poll([FETCHED], Ready), []), p, r)
  {
    hide Reached, IsDueBatch, Fetched;
    SecondStarts(now, locks, first, at, p, r);
    OnlySeven(at);
    Extend(During(at, locks, WAITS, first, Poll([], Fetching), []), Poller(2, at, Fetch([7])),
           During(at, locks, WAITS, first, Poll([FETCHED], Ready), []), p, r);
  }

  lemma SecondClaims(now: int, locks: map<ExecId, L.State>, first: Poll, at: int, p: int, r: int)
    requires p >= 0 && r >= 0 && Open(locks, now, at) && Reached(Before(now, locks, first), p, r)
    ensures var locks' := locks[7 := Held(RESUME_LOCK, 2, at, Believers(locks))];
            Reached(During(at, locks', WAITS, first, Poll([], Claimed(FETCHED)), []), p, r)
  {
    hide Reached, IsDueBatch;
    SecondFetches(now, locks, first, at, p, r);
    assert [FETCHED][1..] == [];
    var locks' := locks[7 := Held(RESUME_LOCK, 2, at, Believers(locks))];
    Extend(During(at, locks, WAITS, first, Poll([FETCHED], Ready), []), Poller(2, at, Claim),
           During(at, locks', WAITS, first, Poll([], Claimed(FETCHED)), []), p, r);
  }

  /** Worker 2 takes execution 7 out of its delay. */
  lemma SecondResumes(now: int, locks: map<ExecId, L.State>, first: Poll, at: int, p: int, r: int)
    requires p >= 0 && r >= 0 && Open(locks, now, at) && Reached(Before(now, locks, first), p, r)
    ensures var locks' := locks[7 := Held(RESUME_LOCK, 2, at, Believers(locks))];
            Reached(During(at, locks', RUNS, first, Poll([], Walking(FETCHED)), [Resumption(7, 1, 1, at, 5)]), p, r)
  {
    hide Reached, IsDueBatch;
    SecondClaims(now, locks, first, at, p, r);
    var locks' := locks[7 := Held(RESUME_LOCK, 2, at, Believers(locks))];
    var s1 := During(at, locks', WAITS, first, Poll([], Claimed(FETCHED)), []);
    var s2 := During(at, locks', WAITS, first, Poll([], Checked(FETCHED)), []);
    Extend(s1, Poller(2, at, Check(true)), s2, p, r);
    Extend(s2, Poller(2, at, Advance),
           During(at, locks', RUNS, first, Poll([], Walking(FETCHED)), [Resumption(7, 1, 1, at, 5)]), p, r);
  }

  // --- early ---

  const LATER := Row(W.WaitingForDelay, 9_000_000, 2)

  const ONCE := [Resumption(7, 1, 1, 45_010, 5)]
  const HELD_2 := map[7 := Held(RESUME_LOCK, 2, 45_010, map[])]
  const RELEASED := map[7 := L.State(45_010, None, map[])]
  const HELD_1 := map[7 := Held(RESUME_LOCK, 1, 45_010, map[])]

  /** The states of the early run from the takeover on. */
  function Taken(locks: map<ExecId, L.State>, row: Row, first: Poll, second: Poll): State {
    During(45_010, locks, row, first, second, ONCE)
  }

  /** Worker 2 has let the workflow run into its next delay. */
  lemma SecondPauses(p: int, r: int)
    requires p >= 0 && r >= 0
    ensures Reached(Taken(HELD_2, LATER, Poll([FETCHED], Ready), Poll([], Leaving(FETCHED))), p, r)
  {
    hide Reached, IsDueBatch;
    ReachStalled(p, r);
    SecondResumes(10, map[], Poll([FETCHED], Ready), 45_010, p, r);
    assert map[][7 := Held(RESUME_LOCK, 2, 45_010, Believers(map[]))] == HELD_2;
    Extend(Taken(HELD_2, RUNS, Poll([FETCHED], Ready), Poll([], Walking(FETCHED))),
           Poller(2, 45_010, Action.Pause(9_000_000)),
           Taken(HELD_2, LATER, Poll([FETCHED], Ready), Poll([], Leaving(FETCHED))), p, r);
  }

  /** And has given the lock back. */
  lemma SecondLeaves(p: int, r: int)
    requires p >= 0 && r >= 0
    ensures Reached(Taken(RELEASED, LATER, Poll([FETCHED], Ready), Poll([], Ready)), p, r)
  {
    hide Reached, IsDueBatch;
    SecondPauses(p, r);
    Extend(Taken(HELD_2, LATER, Poll([FETCHED], Ready), Poll([], Leaving(FETCHED))), Poller(2, 45_010, Unlock(true)),
           Taken(RELEASED, LATER, Poll([FETCHED], Ready), Poll([], Ready)), p, r);
  }

  const EARLY := ONCE + [Resumption(7, 2, 1, 45_010, 9_000_000)]

  /** Worker 1, one millisecond late, goes on where it was. */
  lemma FirstClaimsLate(p: int, r: int)
    requires p > 0 && r >= 0
    ensures Reached(Taken(HELD_1, LATER, Poll([], Claimed(FETCHED)), Poll([], Ready)), p, r)
  {
    hide Reached, IsDueBatch;
    SecondLeaves(p, r);
    assert [FETCHED][1..] == [];
    Extend(Taken(RELEASED, LATER, Poll([FETCHED], Ready), Poll([], Ready)), Poller(1, 45_010, Claim),
           Taken(HELD_1, LATER, Poll([], Claimed(FETCHED)), Poll([], Ready)), p, r);
  }

  /** It resumes the new delay. */
  lemma FirstResumesEarly(p: int, r: int) returns (s: State)
    requires p > 0 && r >= 0
    ensures Reached(s, p, r) && s.resumed == EARLY
  {
    hide Reached, IsDueBatch;
    FirstClaimsLate(p, r);
    var s2 := Taken(HELD_1, LATER, Poll([], Checked(FETCHED)), Poll([], Ready));
    Extend(Taken(HELD_1, LATER, Poll([], Claimed(FETCHED)), Poll([], Ready)), Poller(1, 45_010, Check(true)), s2, p, r);
    s := Next(s2, Poller(1, 45_010, Advance));
    Extend(s2, Poller(1, 45_010, Advance), s, p, r);
  }

  // --- twice ---

  const CHECKED := Poll([], Checked(FETCHED))

  /** Worker 1 has claimed and re-checked execution 7 and stalls. */
  lemma FirstChecks(p: int, r: int)
    requires p >= 0 && r >= 0
    ensures Reached(Before(10, map[7 := Held(RESUME_LOCK, 1, 10, map[])], CHECKED), p, r)
  {
    hide Reached, IsDueBatch;
    ReachStalled(p, r);
    assert [FETCHED][1..] == [];
    var held := map[7 := Held(RESUME_LOCK, 1, 10, map[])];
    var s1 := Before(10, held, Poll([], Claimed(FETCHED)));
    Extend(STALLED, Poller(1, 10, Claim), s1, p, r);
    Extend(s1, Poller(1, 10, Check(true)), Before(10, held, CHECKED), p, r);
  }

  const TWICE := [Resumption(7, 1, 1, 120_010, 5), Resumption(7, 1, 1, 120_010, 5)]

  /** When both its leases are over, worker 2 resumes the execution, and then worker 1 does. */
  lemma FirstResumesAgain(p: int, r: int) returns (s: State)
    requires p > SLACK && r > 0
    ensures Reached(s, p, r) && s.resumed == TWICE
  {
    hide Reached, IsDueBatch;
    var at, log := 120_010, [Resumption(7, 1, 1, 120_010, 5)];
    var locks := map[7 := Held(RESUME_LOCK, 1, 10, map[])];
    FirstChecks(p, r);
    SecondResumes(10, locks, CHECKED, at, p, r);
    var locks' := locks[7 := Held(RESUME_LOCK, 2, at, Believers(locks))];
    var s0 := During(at, locks', RUNS, CHECKED, Poll([], Walking(FETCHED)), log);
    s := Next(s0, Poller(1, at, Advance));
    Extend(s0, Poller(1, at, Advance), s, p, r);
  }

  // ---------------------------------------------------------------------------------------
  // Main results
  // ---------------------------------------------------------------------------------------

  ghost predicate EarlyAt(steps: seq<Step>, i: nat)
    requires ValidRun(IDLE, steps)
  {
    i < |Run(IDLE, steps).resumed| && Run(IDLE, steps).resumed[i].at < Run(IDLE, steps).resumed[i].dueAt
  }

  ghost predicate TwiceAt(steps: seq<Step>, i: nat, j: nat)
    requires ValidRun(IDLE, steps)
  {
    var log := Run(IDLE, steps).resumed;
    i < j < |log| && log[i].exec == log[j].exec && log[i].gen == log[j].gen
  }

  /** No run that keeps the margins resumes a delay before it is due. */
  ghost predicate NoEarly(p: int, r: int) {
    forall steps, i: nat :: Within(steps, p, r) ==> !EarlyAt(steps, i)
  }

  /** No run that keeps the margins resumes a delay twice. */
  ghost predicate NoTwice(p: int, r: int) {
    forall steps, i: nat, j: nat :: Within(steps, p, r) ==> !TwiceAt(steps, i, j)
  }

  /** However small the margin of polls, and with no margin for execution leases at all, a delay
      can be resumed hours early. */
  lemma OverrunResumesEarly(p: int, r: nat) returns (steps: seq<Step>)
    requires p > 0
    ensures Within(steps, p, r) && EarlyAt(steps, 1)
  {
    var s := FirstResumesEarly(p, r);
    steps :| Within(steps, p, r) && Run(IDLE, steps) == s;
  }

  /** Never early, exactly: however late execution leases are allowed to be, no delay is resumed
      before it is due if and only if polls may not outlive their lease at all. */
  lemma NoEarlyExactly(p: int, r: nat)
    ensures NoEarly(p, r) <==> p <= 0
  {
    if p <= 0 {
      forall steps, i: nat | Within(steps, p, r) ensures !EarlyAt(steps, i) {
        NoMarginInTime(steps, p, r);
        if i < |Run(IDLE, steps).resumed| { NeverEarly(steps, i); }
      }
    } else {
      var steps := OverrunResumesEarly(p, r);
    }
  }

  lemma OverrunResumesTwice(p: int, r: int) returns (steps: seq<Step>)
    requires p > SLACK && r > 0
    ensures Within(steps, p, r) && TwiceAt(steps, 0, 1)
  {
    var s := FirstResumesAgain(p, r);
    steps :| Within(steps, p, r) && Run(IDLE, steps) == s;
  }

  /** Never twice, exactly: no delay is resumed twice if and only if execution leases may not be
      overrun, or polls may overrun theirs by no more than execution leases outlast them. */
  lemma NoTwiceExactly(p: int, r: int)
    ensures NoTwice(p, r) <==> r <= 0 || p <= SLACK
  {
    if r <= 0 || p <= SLACK {
      forall steps, i: nat, j: nat | Within(steps, p, r) ensures !TwiceAt(steps, i, j) {
        NoMarginInTime(steps, p, r);
        if p <= SLACK { SlackSuffices(steps, p, r); }
        SpentByResumeLeases(steps);
      }
    } else {
      var steps := OverrunResumesTwice(p, r);
    }
  }
}
