/** When failed_count is exact, so that `completed` means that every recipient is terminal,
    and a run that shows what goes wrong otherwise. */
module ChunkExactness {
  import opened CampaignTables
  import opened ChunkMachine
  import opened ChunkAccounting
  import opened ChunkCompletion

  /** Database writes succeed; no chunk that has a failed recipient is delivered (again); and on
      its last delivery a handler neither runs out of time nor fails to read a status. */
  ghost predicate Careful(plan: Plan, s: State, step: Step)
    requires Enabled(plan, s, step)
  {
    && WritesSucceed(step)
    && (step.Deliver? ==> forall i :: 0 <= i < |plan[step.c]| && plan[step.c][i] in s.rows ==>
          !s.rows[plan[step.c][i]].Failed?)
    && (step.Cancelled? || (step.Check? && !step.ok) ==> s.mail[step.c].attempts < MAX_ATTEMPTS)
  }

  ghost predicate CarefulRun(plan: Plan, s: State, steps: seq<Step>)
    requires ValidRun(plan, s, steps)
    decreases |steps|
  {
    steps == [] ||
    var before := steps[..|steps| - 1];
    CarefulRun(plan, s, before) && Careful(plan, Run(plan, s, before), steps[|steps| - 1])
  }

  lemma {:induction false} CarefulWrites(plan: Plan, s: State, steps: seq<Step>)
    requires ValidRun(plan, s, steps) && CarefulRun(plan, s, steps)
    ensures forall k :: 0 <= k < |steps| ==> WritesSucceed(steps[k])
    decreases |steps|
  {
    if steps != [] { CarefulWrites(plan, s, steps[..|steps| - 1]); }
  }

  /** Nothing ahead of the handler has failed, nothing ahead of it is on the retry list, the
      list has no duplicates, and on the last delivery nothing on it is terminal before the
      dead-letter loop gets to it. */
  ghost predicate Untouched(recipients: seq<Rid>, rows: Rows, m: Mail) {
    m.Busy? ==>
      var w := m.work;
      && w.next <= |recipients| && w.marked <= |w.transient|
      && (forall i :: w.next <= i < |recipients| ==>
            recipients[i] in rows && !rows[recipients[i]].Failed? && recipients[i] !in w.transient)
      && (forall k, l :: 0 <= k < l < |w.transient| ==> w.transient[k] != w.transient[l])
      && (m.attempts >= MAX_ATTEMPTS ==>
            forall k :: w.marked <= k < |w.transient| ==> w.transient[k] in rows && !Terminal(rows[w.transient[k]]))
      && (w.pc.AtDeadMark? ==> m.attempts >= MAX_ATTEMPTS)
      && (w.pc.AtDeadMark? || w.pc.AtDeadTally? || w.pc.AtDeadComplete? || w.pc.AtDeadSettle? || w.marked == 0)
  }

  ghost predicate AllUntouched(plan: Plan, s: State) {
    |s.mail| == |plan| && forall c :: 0 <= c < |plan| ==> Untouched(plan[c], s.rows, s.mail[c])
  }

  ghost predicate LocalUntouched(plan: Plan, s: State, c: nat) {
    Local(plan, s, c) && Distinct(plan[c]) && Untouched(plan[c], s.rows, s.mail[c])
  }

  ghost predicate UntouchedAfter(plan: Plan, s: State, s': State, c: nat)
    requires c < |plan|
  {
    && c < |s'.mail|
    && Untouched(plan[c], s'.rows, s'.mail[c])
    && s'.ledger.recounted == s.ledger.recounted
  }

  lemma DeliverUntouched(plan: Plan, s: State, step: Step)
    requires step.Deliver?
    requires LocalUntouched(plan, s, step.c) && Enabled(plan, s, step) && Careful(plan, s, step)
    ensures UntouchedAfter(plan, s, Next(plan, s, step), step.c)
  {
  }

  lemma RetryUntouched(plan: Plan, s: State, step: Step)
    requires step.Cancelled? || step.Check?
    requires LocalUntouched(plan, s, step.c) && Enabled(plan, s, step) && Careful(plan, s, step)
    ensures UntouchedAfter(plan, s, Next(plan, s, step), step.c)
  {
  }

  lemma LimitUntouched(plan: Plan, s: State, step: Step)
    requires step.Limit?
    requires LocalUntouched(plan, s, step.c) && Enabled(plan, s, step) && Careful(plan, s, step)
    ensures UntouchedAfter(plan, s, Next(plan, s, step), step.c)
  {
  }

  lemma SesUntouched(plan: Plan, s: State, step: Step)
    requires step.Ses?
    requires LocalUntouched(plan, s, step.c) && Enabled(plan, s, step) && Careful(plan, s, step)
    ensures UntouchedAfter(plan, s, Next(plan, s, step), step.c)
  {
  }

  lemma SendUntouched(plan: Plan, s: State, step: Step)
    requires step.MarkRowSending?
    requires LocalUntouched(plan, s, step.c) && Enabled(plan, s, step) && Careful(plan, s, step)
    ensures UntouchedAfter(plan, s, Next(plan, s, step), step.c)
  {
  }

  lemma RecordUntouched(plan: Plan, s: State, step: Step)
    requires step.Record?
    requires LocalUntouched(plan, s, step.c) && Enabled(plan, s, step) && Careful(plan, s, step)
    ensures UntouchedAfter(plan, s, Next(plan, s, step), step.c)
  {
  }

  lemma DeadUntouched(plan: Plan, s: State, step: Step)
    requires step.DeadMark?
    requires LocalUntouched(plan, s, step.c) && Enabled(plan, s, step) && Careful(plan, s, step)
    ensures UntouchedAfter(plan, s, Next(plan, s, step), step.c)
  {
  }

  lemma EndUntouched(plan: Plan, s: State, step: Step)
    requires step.Tally? || step.TryComplete? || step.DeadTally?
    requires LocalUntouched(plan, s, step.c) && Enabled(plan, s, step) && Careful(plan, s, step)
    ensures UntouchedAfter(plan, s, Next(plan, s, step), step.c)
  {
  }

  lemma SettleUntouched(plan: Plan, s: State, step: Step)
    requires step.Settle? || step.DeadComplete? || step.DeadSettle?
    requires LocalUntouched(plan, s, step.c) && Enabled(plan, s, step) && Careful(plan, s, step)
    ensures UntouchedAfter(plan, s, Next(plan, s, step), step.c)
  {
  }

  lemma ChunkUntouched(plan: Plan, s: State, step: Step)
    requires !step.SetTotal? && !step.Bounce?
    requires LocalUntouched(plan, s, step.c) && Enabled(plan, s, step) && Careful(plan, s, step)
    ensures UntouchedAfter(plan, s, Next(plan, s, step), step.c)
  {
    if step.Deliver? { DeliverUntouched(plan, s, step); }
    else if step.Cancelled? || step.Check? { RetryUntouched(plan, s, step); }
    else if step.Limit? { LimitUntouched(plan, s, step); }
    else if step.Ses? { SesUntouched(plan, s, step); }
    else if step.MarkRowSending? { SendUntouched(plan, s, step); }
    else if step.Record? { RecordUntouched(plan, s, step); }
    else if step.DeadMark? { DeadUntouched(plan, s, step); }
    else if step.Tally? || step.TryComplete? || step.DeadTally? { EndUntouched(plan, s, step); }
    else { SettleUntouched(plan, s, step); }
  }

  lemma UntouchedElsewhere(plan: Plan, s: State, s': State, c: nat, r: Rid)
    requires Inv(plan, s) && AllUntouched(plan, s) && c < |plan| && r in plan[c]
    requires Balanced(s, s', c, r) && Untouched(plan[c], s'.rows, s'.mail[c])
    ensures AllUntouched(plan, s')
  {
    var i :| 0 <= i < |plan[c]| && plan[c][i] == r;
    forall d | 0 <= d < |plan| && d != c
      ensures Untouched(plan[d], s'.rows, s'.mail[d])
    {
      assert HandlerSound(plan[d], s.rows, s.mail[d]) && Untouched(plan[d], s.rows, s.mail[d]);
      forall j | 0 <= j < |plan[d]| ensures plan[d][j] != r {
        assert plan[d][j] == plan[c][i] ==> d == c;
      }
    }
  }

  lemma ChunkStepKeepsUntouched(plan: Plan, s: State, step: Step)
    requires Inv(plan, s) && AllUntouched(plan, s) && Enabled(plan, s, step) && Careful(plan, s, step)
    requires !step.SetTotal? && !step.Bounce?
    ensures AllUntouched(plan, Next(plan, s, step))
    ensures Next(plan, s, step).ledger.recounted == s.ledger.recounted
  {
    StepBalances(plan, s, step);
    assert Untouched(plan[step.c], s.rows, s.mail[step.c]);
    ChunkUntouched(plan, s, step);
    UntouchedElsewhere(plan, s, Next(plan, s, step), step.c, Target(plan[step.c], s.mail[step.c]));
  }

  lemma EnvironmentKeepsUntouched(plan: Plan, s: State, step: Step)
    requires Inv(plan, s) && AllUntouched(plan, s) && Enabled(plan, s, step)
    requires step.SetTotal? || step.Bounce?
    ensures AllUntouched(plan, Next(plan, s, step))
  {
    hide Inv;
    var s' := Next(plan, s, step);
    forall c | 0 <= c < |plan| ensures Untouched(plan[c], s'.rows, s'.mail[c]) {
      assert Untouched(plan[c], s.rows, s.mail[c]);
    }
  }

  lemma {:induction false} NothingRecounted(plan: Plan, s: State, steps: seq<Step>)
    requires Init(plan, s) && ValidRun(plan, s, steps) && CarefulRun(plan, s, steps)
    ensures AllUntouched(plan, Run(plan, s, steps)) && Run(plan, s, steps).ledger.recounted == 0
    decreases |steps|
  {
    if steps != [] {
      var before := steps[..|steps| - 1];
      var step := steps[|steps| - 1];
      NothingRecounted(plan, s, before);
      Conservation(plan, s, before);
      if step.SetTotal? || step.Bounce? { EnvironmentKeepsUntouched(plan, Run(plan, s, before), step); }
      else { ChunkStepKeepsUntouched(plan, Run(plan, s, before), step); }
    }
  }

  lemma CompletedMeansCounted(e: State)
    requires RowSound(e) && e.campaign.status.Completed?
    requires e.campaign.sent <= |DeliveredRows(e.rows)| && e.campaign.failed <= |FailedRows(e.rows)|
    ensures forall r :: r in e.rows ==> Terminal(e.rows[r])
  {
    TerminalCount(e.rows);
  }

  /** Main result: on careful runs failed_count plus the failures still held by handlers is
      exactly the number of failed recipients, and a completed campaign has no recipient left
      to serve. */
  lemma Exactness(plan: Plan, s: State, steps: seq<Step>)
    requires Init(plan, s) && ValidRun(plan, s, steps) && CarefulRun(plan, s, steps)
    ensures var e := Run(plan, s, steps);
            && e.campaign.failed + Sum(PendingFailed, e.mail) == |FailedRows(e.rows)|
            && (e.campaign.status.Completed? ==> forall r :: r in e.rows ==> Terminal(e.rows[r]))
  {
    var e := Run(plan, s, steps);
    CarefulWrites(plan, s, steps);
    NothingRecounted(plan, s, steps);
    AccountingWithoutWriteFaults(plan, s, steps);
    CompletedOnce(plan, s, steps);
    if e.campaign.status.Completed? { CompletedMeansCounted(e); }
  }

  /** A statement that opens a failed row again, or a dead-letter write to a row that already has
      an outcome. */
  ghost predicate Recount(plan: Plan, s: State, step: Step)
    requires Enabled(plan, s, step)
  {
    match step
    case MarkRowSending(c, ok) => ok && s.rows[plan[c][s.mail[c].work.next]].Failed?
    case DeadMark(c, ok) => ok && Terminal(s.rows[s.mail[c].work.transient[s.mail[c].work.marked]])
    case _ => false
  }

  ghost function Recounts(plan: Plan, s: State, steps: seq<Step>): nat
    requires ValidRun(plan, s, steps)
    decreases |steps|
  {
    if steps == [] then 0
    else
      var before := steps[..|steps| - 1];
      Recounts(plan, s, before) + if Recount(plan, Run(plan, s, before), steps[|steps| - 1]) then 1 else 0
  }

  lemma RecountIsCounted(plan: Plan, s: State, step: Step)
    requires Enabled(plan, s, step)
    ensures Next(plan, s, step).ledger.recounted == s.ledger.recounted + if Recount(plan, s, step) then 1 else 0
  {
  }

  lemma {:induction false} RecountsAreCounted(plan: Plan, s: State, steps: seq<Step>)
    requires ValidRun(plan, s, steps)
    ensures Run(plan, s, steps).ledger.recounted == s.ledger.recounted + Recounts(plan, s, steps)
    decreases |steps|
  {
    hide Next, Enabled, Recount;
    if steps != [] {
      var before := steps[..|steps| - 1];
      RecountsAreCounted(plan, s, before);
      RecountIsCounted(plan, Run(plan, s, before), steps[|steps| - 1]);
    }
  }

  /** Outcomes seen so far: on the campaign row, held by handlers, or lost on the way to it. */
  ghost function Seen(s: State): nat {
    s.campaign.sent + Sum(PendingSent, s.mail) + s.ledger.lostSent
    + s.campaign.failed + Sum(PendingFailed, s.mail) + s.ledger.lostFailed
  }

  /** The exact condition, on every run whatever fails: every recipient is terminal if and only if
      the outcomes seen cover the rows, every outcome whose row write failed, and every statement
      that counted a row again. */
  lemma TerminalExactly(plan: Plan, s: State, steps: seq<Step>)
    requires Init(plan, s) && ValidRun(plan, s, steps)
    ensures var e := Run(plan, s, steps);
            (forall r :: r in e.rows ==> Terminal(e.rows[r])) <==>
              Seen(e) >= |e.rows| + e.ledger.unwrittenSent + e.ledger.unwrittenFailed + Recounts(plan, s, steps)
  {
    RecountsAreCounted(plan, s, steps);
    Conservation(plan, s, steps);
    TerminalCount(Run(plan, s, steps).rows);
  }

  /** So a campaign that is completed with no handler at work has recipients left to serve if and
      only if its counters, with the outcomes that never reached them, fall short of its total, the
      outcomes whose row write failed and the statements that counted a row again. */
  lemma CompletedTooEarlyExactly(plan: Plan, s: State, steps: seq<Step>)
    requires Init(plan, s) && ValidRun(plan, s, steps)
    requires var e := Run(plan, s, steps);
             e.campaign.status.Completed? && forall c :: 0 <= c < |e.mail| ==> !e.mail[c].Busy?
    ensures var e := Run(plan, s, steps);
            && e.campaign.total <= e.campaign.sent + e.campaign.failed
            && ((exists r :: r in e.rows && !Terminal(e.rows[r])) <==>
                  e.campaign.sent + e.campaign.failed + e.ledger.lostSent + e.ledger.lostFailed
                  < e.campaign.total + e.ledger.unwrittenSent + e.ledger.unwrittenFailed + Recounts(plan, s, steps))
            && ((forall k :: 0 <= k < |steps| ==> WritesSucceed(steps[k])) ==>
                  ((exists r :: r in e.rows && !Terminal(e.rows[r])) <==>
                     e.campaign.sent + e.campaign.failed < e.campaign.total + Recounts(plan, s, steps)))
  {
    var e := Run(plan, s, steps);
    TerminalExactly(plan, s, steps);
    CompletedOnce(plan, s, steps);
    NothingPending(PendingSent, e.mail);
    NothingPending(PendingFailed, e.mail);
    if forall k :: 0 <= k < |steps| ==> WritesSucceed(steps[k]) { NoLostOutcomes(plan, s, steps); }
  }

  // ---------------------------------------------------------------------------------------
  // Two runs that show the hypotheses are needed
  // ---------------------------------------------------------------------------------------

  /** `e` is the end of some run from `s` in which no database write fails. */
  ghost predicate Reaches(plan: Plan, s: State, e: State) {
    exists steps :: ValidRun(plan, s, steps) && (forall k :: 0 <= k < |steps| ==> WritesSucceed(steps[k]))
        && Run(plan, s, steps) == e
  }

  lemma ReachesItself(plan: Plan, s: State)
    ensures Reaches(plan, s, s)
  {
    assert ValidRun(plan, s, []) && Run(plan, s, []) == s;
  }

  /** A run can be continued by an enabled step. */
  lemma Extend(plan: Plan, s: State, e: State, step: Step) returns (e': State)
    requires Reaches(plan, s, e) && Enabled(plan, e, step) && WritesSucceed(step)
    ensures e' == Next(plan, e, step) && Reaches(plan, s, e')
  {
    e' := Next(plan, e, step);
    var steps :| ValidRun(plan, s, steps) && (forall k :: 0 <= k < |steps| ==> WritesSucceed(steps[k]))
        && Run(plan, s, steps) == e;
    var longer := steps + [step];
    assert longer[..|longer| - 1] == steps;
    assert ValidRun(plan, s, longer) && Run(plan, s, longer) == e';
  }

  /** One delivery of the one-recipient chunk 0 up to the call to SES. */
  lemma Prepare(plan: Plan, s: State, e: State) returns (e': State)
    requires Reaches(plan, s, e) && |plan| > 0 && plan[0] == [0]
    requires |e.mail| == |plan| && e.mail[0].Waiting? && e.mail[0].attempts < MAX_ATTEMPTS
    requires 0 in e.rows && !Delivered(e.rows[0])
    ensures Reaches(plan, s, e') && e'.rows == e.rows[0 := Sending] && e'.campaign == e.campaign
    ensures e'.mail == e.mail[0 := Busy(e.mail[0].attempts + 1, Work(AtSes, 0, 0, 0, [], 0, 0))]
    ensures e'.ledger.checks == e.ledger.checks
  {
    hide Reaches;
    e' := Extend(plan, s, e, Deliver(0));
    e' := Extend(plan, s, e', Check(0, true));
    e' := Extend(plan, s, e', Limit(0, true));
    e' := Extend(plan, s, e', MarkRowSending(0, true));
  }

  /** The rest of that delivery up to and including the counter update. */
  lemma Serve(plan: Plan, s: State, e: State, reply: SesReply) returns (e': State)
    requires Reaches(plan, s, e) && |plan| > 0 && plan[0] == [0] && !reply.TransientError?
    requires |e.mail| == |plan| && e.mail[0].Waiting? && e.mail[0].attempts < MAX_ATTEMPTS
    requires 0 in e.rows && !Delivered(e.rows[0])
    ensures Reaches(plan, s, e') && e'.rows == e.rows[0 := if reply.Accepted? then Sent else Failed]
    ensures e'.campaign == if reply.Accepted? then Increment(e.campaign, 1, 0) else Increment(e.campaign, 0, 1)
    ensures e'.mail == e.mail[0 := Busy(e.mail[0].attempts + 1,
              Work(if Reached(e'.campaign) then AtComplete else AtSettle, 1, 0, 0, [], 0, 0))]
    ensures e.campaign.total == 0 ==> e'.ledger.checks == e.ledger.checks
  {
    hide Reaches;
    e' := Prepare(plan, s, e);
    e' := Extend(plan, s, e', Ses(0, reply));
    e' := Extend(plan, s, e', Record(0, true));
    e' := Extend(plan, s, e', Tally(0, true));
  }

  function Fresh(rows: Rows, chunks: nat): State {
    State(rows, Campaign(QueuedForSend, 0, 0, 0, false), seq(chunks, _ => Waiting(0)),
          Ledger(0, 0, 0, 0, 0, 0, 0, 0, 0, 0))
  }

  /** Two chunks with one recipient each. */
  const TWO_CHUNKS: Plan := [[0], [1]]

  const TWO_QUEUED := Fresh(map[0 := Queued, 1 := Queued], 2)

  lemma TwoQueued()
    ensures Init(TWO_CHUNKS, TWO_QUEUED) && |TWO_QUEUED.rows| == 2
  {
    assert TWO_CHUNKS[0][0] == 0 && TWO_CHUNKS[1][0] == 1;
    assert TWO_QUEUED.rows.Keys == {0, 1};
    assert |TWO_QUEUED.rows| == |TWO_QUEUED.rows.Keys| == 2;
  }

  /** One chunk with one recipient. */
  const ONE_CHUNK: Plan := [[0]]

  const ONE_QUEUED := Fresh(map[0 := Queued], 1)

  lemma OneQueued()
    ensures Init(ONE_CHUNK, ONE_QUEUED) && |ONE_QUEUED.rows| == 1
  {
    assert ONE_CHUNK[0][0] == 0;
    assert ONE_QUEUED.rows.Keys == {0};
    assert |ONE_QUEUED.rows| == |ONE_QUEUED.rows.Keys| == 1;
  }

  lemma FailTwice() returns (e: State)
    ensures Reaches(TWO_CHUNKS, TWO_QUEUED, e)
    ensures RunningAt(TWO_CHUNKS, e, 0, AtComplete) && Reached(e.campaign) && !e.campaign.completedAt
    ensures 1 in e.rows && e.rows[1] == Queued
  {
    hide Reaches;
    TwoQueued();
    ReachesItself(TWO_CHUNKS, TWO_QUEUED);
    e := Extend(TWO_CHUNKS, TWO_QUEUED, TWO_QUEUED, SetTotal);
    e := Serve(TWO_CHUNKS, TWO_QUEUED, e, PermanentError);
    e := Extend(TWO_CHUNKS, TWO_QUEUED, e, Settle(0, false));
    e := Serve(TWO_CHUNKS, TWO_QUEUED, e, PermanentError);
  }

  /** Redelivering a chunk whose recipient failed permanently counts that recipient twice: two
      chunks of one recipient each, an ack that gets lost, and the campaign is `completed`
      while nobody has even tried the second recipient. No database write fails. */
  lemma CompletedTooEarly() returns (e: State)
    ensures Init(TWO_CHUNKS, TWO_QUEUED) && Reaches(TWO_CHUNKS, TWO_QUEUED, e)
    ensures e.campaign.status.Completed? && 1 in e.rows && e.rows[1] == Queued
  {
    hide Reaches;
    TwoQueued();
    e := FailTwice();
    e := Extend(TWO_CHUNKS, TWO_QUEUED, e, TryComplete(0, true));
  }

  lemma FinishThenStore() returns (e: State)
    ensures Reaches(ONE_CHUNK, ONE_QUEUED, e)
    ensures Finished(e) && !e.campaign.status.Completed? && e.campaign.sent == e.campaign.total == |e.rows|
  {
    hide Reaches;
    OneQueued();
    ReachesItself(ONE_CHUNK, ONE_QUEUED);
    e := Serve(ONE_CHUNK, ONE_QUEUED, ONE_QUEUED, Accepted);
    e := Extend(ONE_CHUNK, ONE_QUEUED, e, Settle(0, true));
    e := Extend(ONE_CHUNK, ONE_QUEUED, e, SetTotal);
    assert e.rows.Keys == ONE_QUEUED.rows.Keys;
  }

  /** If the only chunk is done before the total is stored, the campaign stays in progress
      for ever, with every recipient served and the counters complete. */
  lemma StuckInProgress() returns (e: State)
    ensures Init(ONE_CHUNK, ONE_QUEUED) && Reaches(ONE_CHUNK, ONE_QUEUED, e)
    ensures Finished(e) && e.campaign.sent == e.campaign.total == |e.rows|
    ensures forall more :: ValidRun(ONE_CHUNK, e, more) ==> !Run(ONE_CHUNK, e, more).campaign.status.Completed?
  {
    hide Reaches;
    OneQueued();
    e := FinishThenStore();
    forall more | ValidRun(ONE_CHUNK, e, more)
      ensures !Run(ONE_CHUNK, e, more).campaign.status.Completed?
    {
      NeverCompletes(ONE_CHUNK, e, more);
    }
  }
}
