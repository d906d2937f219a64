/** Conservation laws of the campaign counters, for every interleaving of the chunk handlers
    and every pattern of faults, crashes and redeliveries. */
module ChunkAccounting {
  import opened CampaignTables
  import opened ChunkMachine

  ghost function DeliveredRows(rows: Rows): set<Rid> { set r | r in rows && Delivered(rows[r]) }

  ghost function FailedRows(rows: Rows): set<Rid> { set r | r in rows && rows[r].Failed? }

  /** What a handler has seen but not yet added to the counters, or not yet written to the row. */
  function PendingSent(m: Mail): nat { if m.Busy? then m.work.sent else 0 }

  function PendingFailed(m: Mail): nat { if m.Busy? then m.work.failed + m.work.dead else 0 }

  function PendingRecord(m: Mail): nat { if m.Busy? && m.work.pc.AtRecordSent? then 1 else 0 }

  function Sum(f: Mail -> nat, mail: seq<Mail>): nat {
    if mail == [] then 0 else f(mail[0]) + Sum(f, mail[1..])
  }

  lemma {:induction false} SumUpdate(f: Mail -> nat, mail: seq<Mail>, c: nat, m: Mail)
    requires c < |mail|
    ensures Sum(f, mail[c := m]) + f(mail[c]) == Sum(f, mail) + f(m)
  {
    if c == 0 {
      assert mail[c := m][1..] == mail[1..];
    } else {
      assert mail[c := m][1..] == mail[1..][c - 1 := m];
      SumUpdate(f, mail[1..], c - 1, m);
    }
  }

  lemma {:induction false} NothingPending(f: Mail -> nat, mail: seq<Mail>)
    requires forall c :: 0 <= c < |mail| ==> f(mail[c]) == 0
    ensures Sum(f, mail) == 0
  {
    if mail != [] { NothingPending(f, mail[1..]); }
  }

  function Weight(b: bool): nat { if b then 1 else 0 }

  lemma SameButFor(a: set<Rid>, b: set<Rid>, r: Rid)
    requires a - {r} == b - {r}
    ensures |a| + Weight(r in b) == |b| + Weight(r in a)
  {
    assert |a - {r}| == |a| - Weight(r in a);
    assert |b - {r}| == |b| - Weight(r in b);
  }

  /** How changing one row's status moves the two populations. */
  lemma StatusUpdate(rows: Rows, r: Rid, v: RecipientStatus)
    requires r in rows
    ensures |DeliveredRows(rows[r := v])| + Weight(Delivered(rows[r])) == |DeliveredRows(rows)| + Weight(Delivered(v))
    ensures |FailedRows(rows[r := v])| + Weight(rows[r].Failed?) == |FailedRows(rows)| + Weight(v.Failed?)
  {
    var rows' := rows[r := v];
    SameButFor(DeliveredRows(rows'), DeliveredRows(rows), r);
    SameButFor(FailedRows(rows'), FailedRows(rows), r);
  }

  /** Sent outcomes: every one is on the campaign row, still held by a handler, or recorded as
      lost; and each stands for a delivered row or for a sent write that failed. */
  ghost predicate SentConserved(s: State) {
    s.campaign.sent + Sum(PendingSent, s.mail) + s.ledger.lostSent
    == |DeliveredRows(s.rows)| + s.ledger.unwrittenSent
  }

  ghost predicate FailedConserved(s: State) {
    s.campaign.failed + Sum(PendingFailed, s.mail) + s.ledger.lostFailed
    == |FailedRows(s.rows)| + s.ledger.unwrittenFailed + s.ledger.recounted
  }

  /** Every mail SES accepted stands for a delivered row, apart from those whose sent write
      failed, was never reached, or is the next thing a handler will do. */
  ghost predicate MailConserved(s: State) {
    s.ledger.accepted
    == |DeliveredRows(s.rows)| + s.ledger.unwrittenSent + s.ledger.unrecorded + Sum(PendingRecord, s.mail)
  }

  /** A handler past the status check works on a row that nobody has delivered, and from the
      SES call on that row is `sending`. */
  ghost predicate HandlerSound(recipients: seq<Rid>, rows: Rows, m: Mail) {
    m.Busy? ==>
      && 1 <= m.attempts <= MAX_ATTEMPTS
      && Shaped(recipients, m.work)
      && (forall k :: 0 <= k < |m.work.transient| ==> m.work.transient[k] in recipients)
      && ((m.work.pc.AtLimit? || m.work.pc.AtSending?) ==>
           recipients[m.work.next] in rows && !Delivered(rows[recipients[m.work.next]]))
      && ((m.work.pc.AtSes? || m.work.pc.AtRecordSent? || m.work.pc.AtRecordFailed?) ==>
            recipients[m.work.next] in rows && rows[recipients[m.work.next]] == Sending)
      && ((m.work.pc.AtSettle? || m.work.pc.AtComplete? || m.work.pc.AtDeadMark? || m.work.pc.AtDeadTally?
           || m.work.pc.AtDeadComplete? || m.work.pc.AtDeadSettle?) ==>
            m.work.sent == m.work.failed == 0)
      && ((!m.work.pc.AtDeadMark? && !m.work.pc.AtDeadTally?) ==> m.work.dead == 0)
  }

  ghost predicate Inv(plan: Plan, s: State) {
    && WellFormed(plan, s.rows.Keys)
    && |s.mail| == |plan|
    && (forall c :: 0 <= c < |plan| ==> HandlerSound(plan[c], s.rows, s.mail[c]))
    && SentConserved(s)
    && FailedConserved(s)
    && MailConserved(s)
  }

  /** A row of one chunk is in no other chunk, so writing it leaves the other handlers' view alone. */
  lemma OthersUnaffected(plan: Plan, s: State, c: nat, r: Rid, v: RecipientStatus)
    requires WellFormed(plan, s.rows.Keys) && |s.mail| == |plan| && c < |plan| && r in plan[c]
    requires forall d :: 0 <= d < |plan| ==> HandlerSound(plan[d], s.rows, s.mail[d])
    ensures forall d :: 0 <= d < |plan| && d != c ==> HandlerSound(plan[d], s.rows[r := v], s.mail[d])
  {
    var i :| 0 <= i < |plan[c]| && plan[c][i] == r;
    forall d | 0 <= d < |plan| && d != c
      ensures HandlerSound(plan[d], s.rows[r := v], s.mail[d])
    {
      forall j | 0 <= j < |plan[d]| ensures plan[d][j] != r {
        assert plan[d][j] == plan[c][i] ==> d == c;
      }
    }
  }

  /** A step of chunk `c` that changes nothing but its own handler, the status of row `r` of
      its chunk, the counters and the history, and that balances the three books. */
  ghost predicate Balanced(s: State, s': State, c: nat, r: Rid)
    requires c < |s.mail|
  {
    && |s'.mail| == |s.mail| && s'.mail == s.mail[c := s'.mail[c]]
    && r in s.rows && r in s'.rows && s'.rows == s.rows[r := s'.rows[r]]
    && s'.campaign.sent + PendingSent(s'.mail[c]) + s'.ledger.lostSent - Weight(Delivered(s'.rows[r]))
         - s'.ledger.unwrittenSent
       == s.campaign.sent + PendingSent(s.mail[c]) + s.ledger.lostSent - Weight(Delivered(s.rows[r]))
           - s.ledger.unwrittenSent
    && s'.campaign.failed + PendingFailed(s'.mail[c]) + s'.ledger.lostFailed
         - Weight(s'.rows[r].Failed?) - s'.ledger.unwrittenFailed - s'.ledger.recounted
       == s.campaign.failed + PendingFailed(s.mail[c]) + s.ledger.lostFailed
         - Weight(s.rows[r].Failed?) - s.ledger.unwrittenFailed - s.ledger.recounted
    && s'.ledger.accepted - Weight(Delivered(s'.rows[r])) - s'.ledger.unwrittenSent - s'.ledger.unrecorded
         - PendingRecord(s'.mail[c])
       == s.ledger.accepted - Weight(Delivered(s.rows[r])) - s.ledger.unwrittenSent - s.ledger.unrecorded
           - PendingRecord(s.mail[c])
  }

  lemma Frame(plan: Plan, s: State, s': State, c: nat, r: Rid)
    requires Inv(plan, s) && c < |plan| && r in plan[c]
    requires Balanced(s, s', c, r) && HandlerSound(plan[c], s'.rows, s'.mail[c])
    ensures Inv(plan, s')
  {
    assert s'.rows.Keys == s.rows.Keys;
    OthersUnaffected(plan, s, c, r, s'.rows[r]);
    StatusUpdate(s.rows, r, s'.rows[r]);
    SumUpdate(PendingSent, s.mail, c, s'.mail[c]);
    SumUpdate(PendingFailed, s.mail, c, s'.mail[c]);
    SumUpdate(PendingRecord, s.mail, c, s'.mail[c]);
  }

  /** The row a step of a chunk is about. */
  ghost function Target(recipients: seq<Rid>, m: Mail): Rid
    requires recipients != []
  {
    if m.Busy? && InLoop(m.work.pc) && m.work.next < |recipients| then recipients[m.work.next]
    else if m.Busy? && m.work.pc.AtDeadMark? && m.work.marked < |m.work.transient| then m.work.transient[m.work.marked]
    else recipients[0]
  }

  ghost predicate Local(plan: Plan, s: State, c: nat) {
    && c < |plan| == |s.mail| && plan[c] != []
    && (forall i :: 0 <= i < |plan[c]| ==> plan[c][i] in s.rows)
    && HandlerSound(plan[c], s.rows, s.mail[c])
  }

  ghost predicate Kept(plan: Plan, s: State, s': State, c: nat)
    requires Local(plan, s, c)
  {
    Balanced(s, s', c, Target(plan[c], s.mail[c])) && HandlerSound(plan[c], s'.rows, s'.mail[c])
  }

  lemma RetryingStep(plan: Plan, s: State, step: Step)
    requires step.Cancelled? || step.Limit?
    requires Local(plan, s, step.c) && Enabled(plan, s, step)
    ensures Kept(plan, s, Next(plan, s, step), step.c)
  {
  }

  lemma CheckStep(plan: Plan, s: State, step: Step)
    requires step.Check?
    requires Local(plan, s, step.c) && Enabled(plan, s, step)
    ensures Kept(plan, s, Next(plan, s, step), step.c)
  {
  }

  lemma SendingStep(plan: Plan, s: State, step: Step)
    requires step.MarkRowSending?
    requires Local(plan, s, step.c) && Enabled(plan, s, step)
    ensures Kept(plan, s, Next(plan, s, step), step.c)
  {
  }

  lemma SesStep(plan: Plan, s: State, step: Step)
    requires step.Ses?
    requires Local(plan, s, step.c) && Enabled(plan, s, step)
    ensures Kept(plan, s, Next(plan, s, step), step.c)
  {
  }

  lemma RecordStep(plan: Plan, s: State, step: Step)
    requires step.Record?
    requires Local(plan, s, step.c) && Enabled(plan, s, step)
    ensures Kept(plan, s, Next(plan, s, step), step.c)
  {
  }

  lemma DeliverStep(plan: Plan, s: State, step: Step)
    requires step.Deliver?
    requires Local(plan, s, step.c) && Enabled(plan, s, step)
    ensures Kept(plan, s, Next(plan, s, step), step.c)
  {
  }

  lemma TallyStep(plan: Plan, s: State, step: Step)
    requires step.Tally? || step.TryComplete?
    requires Local(plan, s, step.c) && Enabled(plan, s, step)
    ensures Kept(plan, s, Next(plan, s, step), step.c)
  {
  }

  lemma SettleStep(plan: Plan, s: State, step: Step)
    requires step.Settle?
    requires Local(plan, s, step.c) && Enabled(plan, s, step)
    ensures Kept(plan, s, Next(plan, s, step), step.c)
  {
  }

  lemma DeadMarkStep(plan: Plan, s: State, step: Step)
    requires step.DeadMark?
    requires Local(plan, s, step.c) && Enabled(plan, s, step)
    ensures Kept(plan, s, Next(plan, s, step), step.c)
  {
  }

  lemma DeadTallyStep(plan: Plan, s: State, step: Step)
    requires step.DeadTally?
    requires Local(plan, s, step.c) && Enabled(plan, s, step)
    ensures Kept(plan, s, Next(plan, s, step), step.c)
  {
  }

  lemma DeadEndStep(plan: Plan, s: State, step: Step)
    requires step.DeadComplete? || step.DeadSettle?
    requires Local(plan, s, step.c) && Enabled(plan, s, step)
    ensures Kept(plan, s, Next(plan, s, step), step.c)
  {
  }

  lemma CrashStep(plan: Plan, s: State, step: Step)
    requires step.Crash?
    requires Local(plan, s, step.c) && Enabled(plan, s, step)
    ensures Kept(plan, s, Next(plan, s, step), step.c)
  {
  }

  lemma BounceStep(plan: Plan, s: State, r: Rid)
    requires Inv(plan, s) && Enabled(plan, s, Bounce(r))
    ensures Inv(plan, Next(plan, s, Bounce(r)))
  {
    var s' := Next(plan, s, Bounce(r));
    StatusUpdate(s.rows, r, Bounced);
    assert s'.rows.Keys == s.rows.Keys;
  }

  lemma ChunkStep(plan: Plan, s: State, step: Step)
    requires !step.SetTotal? && !step.Bounce? && Local(plan, s, step.c) && Enabled(plan, s, step)
    ensures Kept(plan, s, Next(plan, s, step), step.c)
  {
    match step
    case Deliver(_) => DeliverStep(plan, s, step);
    case Cancelled(_) => RetryingStep(plan, s, step);
    case Check(_, _) => CheckStep(plan, s, step);
    case Limit(_, _) => RetryingStep(plan, s, step);
    case MarkRowSending(_, _) => SendingStep(plan, s, step);
    case Ses(_, _) => SesStep(plan, s, step);
    case Record(_, _) => RecordStep(plan, s, step);
    case Tally(_, _) => TallyStep(plan, s, step);
    case TryComplete(_, _) => TallyStep(plan, s, step);
    case Settle(_, _) => SettleStep(plan, s, step);
    case DeadMark(_, _) => DeadMarkStep(plan, s, step);
    case DeadTally(_, _) => DeadTallyStep(plan, s, step);
    case DeadComplete(_, _) => DeadEndStep(plan, s, step);
    case DeadSettle(_) => DeadEndStep(plan, s, step);
    case Crash(_) => CrashStep(plan, s, step);
  }

  lemma StepIsLocal(plan: Plan, s: State, step: Step)
    requires Inv(plan, s) && Enabled(plan, s, step) && !step.SetTotal? && !step.Bounce?
    ensures Local(plan, s, step.c)
  {
    var c := step.c;
    assert c < |plan|;
    assert HandlerSound(plan[c], s.rows, s.mail[c]);
  }

  lemma SetTotalStep(plan: Plan, s: State)
    requires Inv(plan, s)
    ensures Inv(plan, Next(plan, s, SetTotal))
  {
  }

  lemma KeptIsEnough(plan: Plan, s: State, s': State, c: nat)
    requires Inv(plan, s) && Local(plan, s, c) && Kept(plan, s, s', c)
    ensures Inv(plan, s')
  {
    Frame(plan, s, s', c, Target(plan[c], s.mail[c]));
  }

  lemma ChunkStepKeepsInv(plan: Plan, s: State, step: Step)
    requires Inv(plan, s) && Enabled(plan, s, step) && !step.SetTotal? && !step.Bounce?
    ensures Inv(plan, Next(plan, s, step))
  {
    StepIsLocal(plan, s, step);
    ChunkStep(plan, s, step);
    KeptIsEnough(plan, s, Next(plan, s, step), step.c);
  }

  lemma StepKeepsInv(plan: Plan, s: State, step: Step)
    requires Inv(plan, s) && Enabled(plan, s, step)
    ensures Inv(plan, Next(plan, s, step))
  {
    if step.SetTotal? {
      SetTotalStep(plan, s);
    } else if step.Bounce? {
      BounceStep(plan, s, step.r);
    } else {
      ChunkStepKeepsInv(plan, s, step);
    }
  }

  lemma InitHolds(plan: Plan, s: State)
    requires Init(plan, s)
    ensures Inv(plan, s)
  {
    NothingPending(PendingSent, s.mail);
    NothingPending(PendingFailed, s.mail);
    NothingPending(PendingRecord, s.mail);
    assert DeliveredRows(s.rows) == {} && FailedRows(s.rows) == {};
  }

  /** Main result: the three conservation laws hold after every run, whatever fails. */
  lemma {:induction false} Conservation(plan: Plan, s: State, steps: seq<Step>)
    requires Init(plan, s) && ValidRun(plan, s, steps)
    ensures Inv(plan, Run(plan, s, steps))
    decreases |steps|
  {
    if steps == [] {
      InitHolds(plan, s);
    } else {
      var before := steps[..|steps| - 1];
      Conservation(plan, s, before);
      StepKeepsInv(plan, Run(plan, s, before), steps[|steps| - 1]);
    }
  }

  /** A step in which no database write fails and no handler dies. Reads, the rate limiter,
      SES, acks and handler timeouts may still fail. */
  predicate WritesSucceed(step: Step) {
    match step
    case MarkRowSending(_, ok) => ok
    case Record(_, ok) => ok
    case Tally(_, ok) => ok
    case TryComplete(_, ok) => ok
    case DeadMark(_, ok) => ok
    case DeadTally(_, ok) => ok
    case DeadComplete(_, ok) => ok
    case Crash(_) => false
    case _ => true
  }

  /** A step in which a row write that fails is the sending write, which has no outcome yet. */
  predicate OutcomesRecorded(step: Step) {
    step.Record? ==> step.ok
  }

  lemma {:induction false} NoLostOutcomes(plan: Plan, s: State, steps: seq<Step>)
    requires Init(plan, s) && ValidRun(plan, s, steps)
    requires forall k :: 0 <= k < |steps| ==> WritesSucceed(steps[k])
    ensures var l := Run(plan, s, steps).ledger;
            l.lostSent == l.lostFailed == l.unwrittenSent == l.unwrittenFailed == l.unrecorded == 0
    decreases |steps|
  {
    if steps != [] {
      var before := steps[..|steps| - 1];
      NoLostOutcomes(plan, s, before);
      assert WritesSucceed(steps[|steps| - 1]);
    }
  }

  lemma {:induction false} NoUnwrittenOutcomes(plan: Plan, s: State, steps: seq<Step>)
    requires Init(plan, s) && ValidRun(plan, s, steps)
    requires forall k :: 0 <= k < |steps| ==> OutcomesRecorded(steps[k])
    ensures var l := Run(plan, s, steps).ledger; l.unwrittenSent == l.unwrittenFailed == 0
    decreases |steps|
  {
    if steps != [] {
      var before := steps[..|steps| - 1];
      NoUnwrittenOutcomes(plan, s, before);
      assert OutcomesRecorded(steps[|steps| - 1]);
    }
  }

  /** With database writes succeeding, sent_count plus the outcomes still held by handlers is
      exactly the number of delivered recipients, SES has accepted one mail for each of these and
      for each `sent` write still to come (ChunkMail has this per recipient), and failed_count
      never falls short of the failed recipients. It is exact if and only if no failed row was ever
      tried or counted again. */
  lemma AccountingWithoutWriteFaults(plan: Plan, s: State, steps: seq<Step>)
    requires Init(plan, s) && ValidRun(plan, s, steps)
    requires forall k :: 0 <= k < |steps| ==> WritesSucceed(steps[k])
    ensures var e := Run(plan, s, steps);
            && e.campaign.sent + Sum(PendingSent, e.mail) == |DeliveredRows(e.rows)|
            && e.ledger.accepted == |DeliveredRows(e.rows)| + Sum(PendingRecord, e.mail)
            && e.campaign.failed + Sum(PendingFailed, e.mail) >= |FailedRows(e.rows)|
            && (e.campaign.failed + Sum(PendingFailed, e.mail) == |FailedRows(e.rows)| <==> e.ledger.recounted == 0)
  {
    Conservation(plan, s, steps);
    NoLostOutcomes(plan, s, steps);
  }

  /** Even when increments fail and handlers die, sent_count never exceeds the number of
      delivered recipients, as long as the write of each outcome succeeds. */
  lemma SentNeverOverstated(plan: Plan, s: State, steps: seq<Step>)
    requires Init(plan, s) && ValidRun(plan, s, steps)
    requires forall k :: 0 <= k < |steps| ==> OutcomesRecorded(steps[k])
    ensures Run(plan, s, steps).campaign.sent <= |DeliveredRows(Run(plan, s, steps).rows)|
  {
    Conservation(plan, s, steps);
    NoUnwrittenOutcomes(plan, s, steps);
  }
}
