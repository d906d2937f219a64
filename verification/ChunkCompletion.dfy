/** When a campaign reaches `completed`, and when it never does. */
module ChunkCompletion {
  import opened Wrappers
  import opened CampaignTables
  import opened ChunkMachine
  import opened ChunkAccounting

  // ---------------------------------------------------------------------------------------
  // The campaign row, in every run
  // ---------------------------------------------------------------------------------------

  predicate Completing(m: Mail) { m.Busy? && m.work.pc.AtComplete? }

  predicate DeadCompleting(m: Mail) { m.Busy? && m.work.pc.AtDeadComplete? }

  ghost predicate RowSound(s: State) {
    && (s.campaign.status.QueuedForSend? || s.campaign.status.InProgress? || s.campaign.status.Completed?)
    && (s.campaign.status.Completed? <==> s.campaign.completedAt)
    && (s.campaign.total == 0 || s.campaign.total == |s.rows|)
    && |s.rows| > 0
    && (s.campaign.total == 0 ==> s.ledger.checks == 0)
    && (s.campaign.completedAt ==> Reached(s.campaign) && s.ledger.checks > 0)
    && s.ledger.completions == Weight(s.campaign.completedAt)
    && (forall c :: 0 <= c < |s.mail| && Completing(s.mail[c]) ==> Reached(s.campaign) && s.ledger.checks > 0)
  }

  /** A step of chunk `c` that leaves the campaign row and its history alone. */
  ghost predicate Quiet(s: State, s': State, c: nat) {
    && c < |s.mail| && |s'.mail| == |s.mail| && s'.mail == s.mail[c := s'.mail[c]]
    && s'.rows.Keys == s.rows.Keys
    && s'.campaign == s.campaign
    && s'.ledger.checks == s.ledger.checks
    && s'.ledger.countedAtTotal == s.ledger.countedAtTotal
    && s'.ledger.completions == s.ledger.completions
    && !Completing(s'.mail[c]) && !DeadCompleting(s'.mail[c])
  }

  predicate TouchesCampaign(step: Step) {
    match step
    case SetTotal => true
    case Tally(_, ok) => ok
    case TryComplete(_, _) => true
    case DeadTally(_, _) => true
    case DeadComplete(_, _) => true
    case Bounce(_) => true
    case _ => false
  }

  lemma QuietStep(plan: Plan, s: State, step: Step)
    requires !TouchesCampaign(step) && Enabled(plan, s, step)
    ensures Quiet(s, Next(plan, s, step), step.c)
  {
  }

  lemma SetTotalKeepsRow(plan: Plan, s: State)
    requires RowSound(s)
    ensures RowSound(Next(plan, s, SetTotal))
  {
  }

  lemma BounceKeepsRow(plan: Plan, s: State, r: Rid)
    requires RowSound(s) && Enabled(plan, s, Bounce(r))
    ensures RowSound(Next(plan, s, Bounce(r)))
  {
    assert Next(plan, s, Bounce(r)).rows.Keys == s.rows.Keys;
  }

  lemma CounterKeepsRow(plan: Plan, s: State, step: Step)
    requires step.Tally? || step.DeadTally?
    requires RowSound(s) && Enabled(plan, s, step)
    ensures RowSound(Next(plan, s, step))
  {
  }

  lemma CompleteKeepsRow(plan: Plan, s: State, step: Step)
    requires step.TryComplete? || step.DeadComplete?
    requires RowSound(s) && Enabled(plan, s, step)
    ensures RowSound(Next(plan, s, step))
  {
    assert step.TryComplete? ==> Completing(s.mail[step.c]);
  }

  lemma StepKeepsRow(plan: Plan, s: State, step: Step)
    requires RowSound(s) && Enabled(plan, s, step)
    ensures RowSound(Next(plan, s, step))
  {
    if step.SetTotal? { SetTotalKeepsRow(plan, s); }
    else if step.Bounce? { BounceKeepsRow(plan, s, step.r); }
    else if step.Tally? || step.DeadTally? { CounterKeepsRow(plan, s, step); }
    else if step.TryComplete? || step.DeadComplete? { CompleteKeepsRow(plan, s, step); }
    else { QuietStep(plan, s, step); }
  }

  /** Whatever fails, `completed` means that the counters reached the recipient total, and
      MarkCampaignComplete returned true exactly once; before that it never did. */
  lemma {:induction false} CompletedOnce(plan: Plan, s: State, steps: seq<Step>)
    requires Init(plan, s) && ValidRun(plan, s, steps)
    ensures var e := Run(plan, s, steps);
            && RowSound(e)
            && e.ledger.completions <= 1
            && (e.ledger.completions == 1 <==> e.campaign.status.Completed?)
            && (e.campaign.status.Completed? ==> e.campaign.total == |e.rows| <= e.campaign.sent + e.campaign.failed)
    decreases |steps|
  {
    if steps != [] {
      var before := steps[..|steps| - 1];
      CompletedOnce(plan, s, before);
      StepKeepsRow(plan, Run(plan, s, before), steps[|steps| - 1]);
    }
  }

  // ---------------------------------------------------------------------------------------
  // Completion without write faults
  // ---------------------------------------------------------------------------------------

  /** Some handler is about to try the completion update. */
  ghost predicate Watched(s: State) {
    exists c :: 0 <= c < |s.mail| && (Completing(s.mail[c]) || DeadCompleting(s.mail[c]))
  }

  ghost predicate DeadWatched(s: State) {
    exists c :: 0 <= c < |s.mail| && DeadCompleting(s.mail[c])
  }

  /** A reached total that somebody has checked for is about to be acted on; counters that
      nobody checked since the total is known have not moved since. */
  ghost predicate WatchInv(s: State) {
    && (s.ledger.checks > 0 && Reached(s.campaign) && !s.campaign.completedAt ==> Watched(s))
    && (s.campaign.total > 0 && s.ledger.checks == 0 ==>
          s.campaign.sent + s.campaign.failed == s.ledger.countedAtTotal || DeadWatched(s))
  }

  lemma WatchersElsewhere(s: State, s': State, c: nat)
    requires c < |s.mail| == |s'.mail| && s'.mail == s.mail[c := s'.mail[c]]
    requires !Completing(s.mail[c]) && !DeadCompleting(s.mail[c])
    ensures Watched(s) ==> Watched(s')
    ensures DeadWatched(s) ==> DeadWatched(s')
  {
    if Watched(s) {
      var d :| 0 <= d < |s.mail| && (Completing(s.mail[d]) || DeadCompleting(s.mail[d]));
      assert s'.mail[d] == s.mail[d];
    }
    if DeadWatched(s) {
      var d :| 0 <= d < |s.mail| && DeadCompleting(s.mail[d]);
      assert s'.mail[d] == s.mail[d];
    }
  }

  lemma QuietKeepsWatch(plan: Plan, s: State, step: Step)
    requires WatchInv(s) && !TouchesCampaign(step) && Enabled(plan, s, step) && WritesSucceed(step)
    ensures WatchInv(Next(plan, s, step))
  {
    QuietStep(plan, s, step);
    NotCompleting(plan, s, step);
    WatchersElsewhere(s, Next(plan, s, step), step.c);
  }

  lemma NotCompleting(plan: Plan, s: State, step: Step)
    requires !TouchesCampaign(step) && Enabled(plan, s, step) && WritesSucceed(step)
    ensures !Completing(s.mail[step.c]) && !DeadCompleting(s.mail[step.c])
  {
  }

  lemma CounterKeepsWatch(plan: Plan, s: State, step: Step)
    requires step.Tally? || step.DeadTally?
    requires WatchInv(s) && RowSound(s) && Enabled(plan, s, step) && WritesSucceed(step)
    ensures WatchInv(Next(plan, s, step))
  {
    var s' := Next(plan, s, step);
    var m := s'.mail[step.c];
    WatchersElsewhere(s, s', step.c);
    assert step.DeadTally? ==> DeadCompleting(m);
    assert step.Tally? && Reached(s'.campaign) ==> Completing(m);
  }

  lemma CompleteKeepsWatch(plan: Plan, s: State, step: Step)
    requires step.TryComplete? || step.DeadComplete?
    requires WatchInv(s) && RowSound(s) && Enabled(plan, s, step) && WritesSucceed(step)
    ensures WatchInv(Next(plan, s, step))
  {
    assert step.TryComplete? ==> Completing(s.mail[step.c]);
  }

  lemma EnvironmentKeepsWatch(plan: Plan, s: State, step: Step)
    requires step.SetTotal? || step.Bounce?
    requires WatchInv(s) && RowSound(s) && Enabled(plan, s, step)
    ensures WatchInv(Next(plan, s, step))
  {
    var s' := Next(plan, s, step);
    assert s'.mail == s.mail;
    assert Watched(s) ==> Watched(s');
    assert DeadWatched(s) ==> DeadWatched(s');
  }

  lemma StepKeepsWatch(plan: Plan, s: State, step: Step)
    requires WatchInv(s) && RowSound(s) && Enabled(plan, s, step) && WritesSucceed(step)
    ensures WatchInv(Next(plan, s, step))
  {
    if step.SetTotal? || step.Bounce? { EnvironmentKeepsWatch(plan, s, step); }
    else if step.Tally? || step.DeadTally? { CounterKeepsWatch(plan, s, step); }
    else if step.TryComplete? || step.DeadComplete? { CompleteKeepsWatch(plan, s, step); }
    else { QuietKeepsWatch(plan, s, step); }
  }

  // ---------------------------------------------------------------------------------------
  // What a settled chunk leaves behind
  // ---------------------------------------------------------------------------------------

  /** Recipients the handler is past are terminal or still on its retry list; once a chunk is
      acked or dead-lettered all its recipients are terminal. */
  ghost predicate Progress(recipients: seq<Rid>, rows: Rows, m: Mail) {
    match m
    case Waiting(_) => true
    case Acked(_) => forall i :: 0 <= i < |recipients| ==> recipients[i] in rows && Terminal(rows[recipients[i]])
    case DeadLettered(_) => forall i :: 0 <= i < |recipients| ==> recipients[i] in rows && Terminal(rows[recipients[i]])
    case Busy(_, w) =>
      && w.next <= |recipients|
      && w.marked <= |w.transient|
      && (forall i :: 0 <= i < w.next ==>
            recipients[i] in rows && (Terminal(rows[recipients[i]]) || recipients[i] in w.transient))
      && (forall k :: 0 <= k < w.marked ==> w.transient[k] in rows && Terminal(rows[w.transient[k]]))
      && (w.pc.AtDeadTally? || w.pc.AtDeadComplete? || w.pc.AtDeadSettle? ==> w.marked == |w.transient|)
      && (w.pc.AtDeadMark? || w.pc.AtDeadTally? || w.pc.AtDeadComplete? || w.pc.AtDeadSettle? || w.marked == 0)
  }

  ghost predicate AllProgress(plan: Plan, s: State) {
    |s.mail| == |plan| && forall c :: 0 <= c < |plan| ==> Progress(plan[c], s.rows, s.mail[c])
  }

  lemma ProgressElsewhere(plan: Plan, s: State, s': State, c: nat, r: Rid)
    requires Inv(plan, s) && AllProgress(plan, s) && c < |plan| && r in plan[c]
    requires Balanced(s, s', c, r) && Progress(plan[c], s'.rows, s'.mail[c])
    ensures AllProgress(plan, s')
  {
    var i :| 0 <= i < |plan[c]| && plan[c][i] == r;
    forall d | 0 <= d < |plan| && d != c
      ensures Progress(plan[d], s'.rows, s'.mail[d])
    {
      assert HandlerSound(plan[d], s.rows, s.mail[d]);
      forall j | 0 <= j < |plan[d]| ensures plan[d][j] != r {
        assert plan[d][j] == plan[c][i] ==> d == c;
      }
    }
  }

  ghost predicate Distinct(recipients: seq<Rid>) {
    forall i, j :: 0 <= i < |recipients| && 0 <= j < |recipients| && recipients[i] == recipients[j] ==> i == j
  }

  ghost predicate LocalProgress(plan: Plan, s: State, c: nat) {
    Local(plan, s, c) && Distinct(plan[c]) && Progress(plan[c], s.rows, s.mail[c])
  }

  lemma RetryProgress(plan: Plan, s: State, step: Step)
    requires step.Cancelled? || step.Limit? || step.Check?
    requires LocalProgress(plan, s, step.c) && Enabled(plan, s, step) && WritesSucceed(step)
    ensures Progress(plan[step.c], Next(plan, s, step).rows, Next(plan, s, step).mail[step.c])
  {
  }

  lemma SendProgress(plan: Plan, s: State, step: Step)
    requires step.MarkRowSending? || step.Ses?
    requires LocalProgress(plan, s, step.c) && Enabled(plan, s, step) && WritesSucceed(step)
    ensures Progress(plan[step.c], Next(plan, s, step).rows, Next(plan, s, step).mail[step.c])
  {
  }

  lemma RecordProgress(plan: Plan, s: State, step: Step)
    requires step.Record?
    requires LocalProgress(plan, s, step.c) && Enabled(plan, s, step) && WritesSucceed(step)
    ensures Progress(plan[step.c], Next(plan, s, step).rows, Next(plan, s, step).mail[step.c])
  {
  }

  lemma DeadProgress(plan: Plan, s: State, step: Step)
    requires step.DeadMark?
    requires LocalProgress(plan, s, step.c) && Enabled(plan, s, step) && WritesSucceed(step)
    ensures Progress(plan[step.c], Next(plan, s, step).rows, Next(plan, s, step).mail[step.c])
  {
  }

  lemma EndProgress(plan: Plan, s: State, step: Step)
    requires step.Tally? || step.TryComplete? || step.DeadTally?
    requires LocalProgress(plan, s, step.c) && Enabled(plan, s, step) && WritesSucceed(step)
    ensures Progress(plan[step.c], Next(plan, s, step).rows, Next(plan, s, step).mail[step.c])
  {
  }

  lemma SettleProgress(plan: Plan, s: State, step: Step)
    requires step.Deliver? || step.Settle? || step.DeadComplete? || step.DeadSettle?
    requires LocalProgress(plan, s, step.c) && Enabled(plan, s, step) && WritesSucceed(step)
    ensures Progress(plan[step.c], Next(plan, s, step).rows, Next(plan, s, step).mail[step.c])
  {
  }

  lemma ChunkProgress(plan: Plan, s: State, step: Step)
    requires !step.SetTotal? && !step.Bounce? && LocalProgress(plan, s, step.c) && Enabled(plan, s, step)
               && WritesSucceed(step)
    ensures Progress(plan[step.c], Next(plan, s, step).rows, Next(plan, s, step).mail[step.c])
  {
    if step.Cancelled? || step.Limit? || step.Check? { RetryProgress(plan, s, step); }
    else if step.MarkRowSending? || step.Ses? { SendProgress(plan, s, step); }
    else if step.Record? { RecordProgress(plan, s, step); }
    else if step.DeadMark? { DeadProgress(plan, s, step); }
    else if step.Tally? || step.TryComplete? || step.DeadTally? { EndProgress(plan, s, step); }
    else { SettleProgress(plan, s, step); }
  }

  lemma ChunkIsDistinct(plan: Plan, rows: set<Rid>, c: nat)
    requires WellFormed(plan, rows) && c < |plan|
    ensures Distinct(plan[c])
  {
  }

  /** What the accounting knows about a chunk step, with the row it is about. */
  lemma StepBalances(plan: Plan, s: State, step: Step)
    requires Inv(plan, s) && Enabled(plan, s, step) && !step.SetTotal? && !step.Bounce?
    ensures Local(plan, s, step.c) && Distinct(plan[step.c]) && Target(plan[step.c], s.mail[step.c]) in plan[step.c]
    ensures Balanced(s, Next(plan, s, step), step.c, Target(plan[step.c], s.mail[step.c]))
  {
    StepIsLocal(plan, s, step);
    ChunkStep(plan, s, step);
    ChunkIsDistinct(plan, s.rows.Keys, step.c);
    TargetInChunk(plan, s, step.c);
  }

  lemma TargetInChunk(plan: Plan, s: State, c: nat)
    requires Local(plan, s, c)
    ensures Target(plan[c], s.mail[c]) in plan[c]
  {
  }

  lemma StepKeepsProgress(plan: Plan, s: State, step: Step)
    requires Inv(plan, s) && AllProgress(plan, s) && Enabled(plan, s, step) && WritesSucceed(step)
    requires !step.SetTotal? && !step.Bounce?
    ensures AllProgress(plan, Next(plan, s, step))
  {
    StepBalances(plan, s, step);
    assert Progress(plan[step.c], s.rows, s.mail[step.c]);
    ChunkProgress(plan, s, step);
    ProgressElsewhere(plan, s, Next(plan, s, step), step.c, Target(plan[step.c], s.mail[step.c]));
  }

  lemma EnvironmentKeepsProgress(plan: Plan, s: State, step: Step)
    requires Inv(plan, s) && AllProgress(plan, s) && Enabled(plan, s, step)
    requires step.SetTotal? || step.Bounce?
    ensures AllProgress(plan, Next(plan, s, step))
  {
    var s' := Next(plan, s, step);
    forall c | 0 <= c < |plan| ensures Progress(plan[c], s'.rows, s'.mail[c]) {
      assert Progress(plan[c], s.rows, s.mail[c]);
    }
  }

  ghost predicate CleanInv(plan: Plan, s: State) {
    Inv(plan, s) && RowSound(s) && WatchInv(s) && AllProgress(plan, s)
  }

  lemma StepKeepsClean(plan: Plan, s: State, step: Step)
    requires CleanInv(plan, s) && Enabled(plan, s, step) && WritesSucceed(step)
    ensures CleanInv(plan, Next(plan, s, step))
  {
    StepKeepsInv(plan, s, step);
    StepKeepsRow(plan, s, step);
    StepKeepsWatch(plan, s, step);
    if step.SetTotal? || step.Bounce? { EnvironmentKeepsProgress(plan, s, step); }
    else { StepKeepsProgress(plan, s, step); }
  }

  lemma {:induction false} CleanRun(plan: Plan, s: State, steps: seq<Step>)
    requires Init(plan, s) && ValidRun(plan, s, steps)
    requires forall k :: 0 <= k < |steps| ==> WritesSucceed(steps[k])
    ensures CleanInv(plan, Run(plan, s, steps))
    decreases |steps|
  {
    if steps == [] {
      InitHolds(plan, s);
    } else {
      var before := steps[..|steps| - 1];
      CleanRun(plan, s, before);
      StepKeepsClean(plan, Run(plan, s, before), steps[|steps| - 1]);
    }
  }

  predicate Finished(s: State) {
    forall c :: 0 <= c < |s.mail| ==> s.mail[c].Acked? || s.mail[c].DeadLettered?
  }

  lemma AllTerminal(plan: Plan, s: State)
    requires CleanInv(plan, s) && Finished(s)
    ensures forall r :: r in s.rows ==> Terminal(s.rows[r])
  {
    forall r | r in s.rows ensures Terminal(s.rows[r]) {
      var c, i :| 0 <= c < |plan| && 0 <= i < |plan[c]| && plan[c][i] == r;
      assert Progress(plan[c], s.rows, s.mail[c]);
    }
  }

  lemma TerminalCount(rows: Rows)
    ensures (forall r :: r in rows ==> Terminal(rows[r])) <==> |DeliveredRows(rows)| + |FailedRows(rows)| >= |rows|
  {
    var both := DeliveredRows(rows) + FailedRows(rows);
    assert DeliveredRows(rows) !! FailedRows(rows);
    assert |both| == |DeliveredRows(rows)| + |FailedRows(rows)|;
    if forall r :: r in rows ==> Terminal(rows[r]) {
      assert both == rows.Keys;
    } else {
      var r :| r in rows && !Terminal(rows[r]);
      SubsetSize(both, rows.Keys - {r});
    }
  }

  lemma FinishedCounts(plan: Plan, e: State)
    requires Inv(plan, e) && Finished(e)
    requires e.ledger.lostSent == e.ledger.lostFailed == 0
    requires forall r :: r in e.rows ==> Terminal(e.rows[r])
    ensures e.campaign.sent + e.campaign.failed >= |e.rows|
  {
    TerminalCount(e.rows);
    NothingPending(PendingSent, e.mail);
    NothingPending(PendingFailed, e.mail);
  }

  lemma FinishedStatus(e: State)
    requires RowSound(e) && WatchInv(e) && Finished(e) && e.campaign.total > 0
    requires e.campaign.sent + e.campaign.failed >= |e.rows|
    ensures e.campaign.status.Completed? <==> e.ledger.checks > 0
    ensures e.ledger.countedAtTotal < |e.rows| ==> e.campaign.status.Completed?
  {
    assert !Watched(e) && !DeadWatched(e);
  }

  /** Main result: with database writes succeeding, once every chunk is acked or dead-lettered
      no recipient is left queued or sending. If the recipient total has been stored, the
      campaign is completed exactly when some handler made a completion check after that; in
      particular it is completed whenever the counters were still short of the total when the
      total was stored. */
  lemma CompletionExactly(plan: Plan, s: State, steps: seq<Step>)
    requires Init(plan, s) && ValidRun(plan, s, steps)
    requires forall k :: 0 <= k < |steps| ==> WritesSucceed(steps[k])
    requires Finished(Run(plan, s, steps))
    ensures var e := Run(plan, s, steps);
            && (forall r :: r in e.rows ==> Terminal(e.rows[r]))
            && (e.campaign.total > 0 ==>
                  && (e.campaign.status.Completed? <==> e.ledger.checks > 0)
                  && (e.ledger.countedAtTotal < |e.rows| ==> e.campaign.status.Completed?))
  {
    var e := Run(plan, s, steps);
    CleanRun(plan, s, steps);
    AllTerminal(plan, e);
    NoLostOutcomes(plan, s, steps);
    FinishedCounts(plan, e);
    if e.campaign.total > 0 { FinishedStatus(e); }
  }

  lemma IdleStep(plan: Plan, e: State, step: Step)
    requires Finished(e) && Enabled(plan, e, step)
    ensures step.SetTotal? || step.Bounce?
  {
  }

  /** The other half of the picture: a campaign whose chunks have all settled before the total
      is stored stays incomplete for ever. */
  lemma {:induction false} NeverCompletes(plan: Plan, e: State, more: seq<Step>)
    requires Finished(e) && !e.campaign.status.Completed?
    requires ValidRun(plan, e, more)
    ensures Finished(Run(plan, e, more)) && !Run(plan, e, more).campaign.status.Completed?
    decreases |more|
  {
    if more != [] {
      var before := more[..|more| - 1];
      NeverCompletes(plan, e, before);
      var step := more[|more| - 1];
      IdleStep(plan, Run(plan, e, before), step);
    }
  }
}
