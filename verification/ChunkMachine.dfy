/** All chunk handlers of one campaign, interleaved statement by statement. One step is one
    SQL statement, one SES call or one broker action. The local variables of every handler
    that is running are part of the state, so the outcomes it has seen but not yet added to
    the campaign counters are visible to the invariants. */
module ChunkMachine {
  import opened CampaignTables

  const MAX_ATTEMPTS := 6

  /** What a running handler is about to do. */
  datatype Pc =
    | AtCheck | AtLimit | AtSending | AtSes | AtRecordSent | AtRecordFailed
    | AtTally | AtComplete | AtSettle
    | AtDeadMark | AtDeadTally | AtDeadComplete | AtDeadSettle

  /** Locals of one Handle call: `next` indexes the recipient loop, `sent` and `failed` are the
      outcomes not yet added to the campaign row, `transient` the recipients to retry, `marked`
      indexes the dead-letter loop and `dead` is its finalFailed count. */
  datatype Work = Work(pc: Pc, next: nat, sent: nat, failed: nat, transient: seq<Rid>, marked: nat, dead: nat)

  /** A chunk message at the broker; `attempts` counts its deliveries. */
  datatype Mail =
    | Waiting(attempts: nat)
    | Busy(attempts: nat, work: Work)
    | Acked(attempts: nat)
    | DeadLettered(attempts: nat)

  /** History variables: what happened, never read by a handler.
      accepted        SES acceptances
      unrecorded      acceptances whose sent write was never applied because the handler died first
      unwrittenSent   sent outcomes counted although the sent write failed
      unwrittenFailed failed outcomes counted although the failed write failed
      lostSent        sent outcomes whose counter increment was never applied
      lostFailed      failed outcomes whose counter increment was never applied
      recounted       times a failed row was left again or counted as failed once more, or a
                      delivered row was counted as failed by the dead-letter loop
      checks          completion checks made while the total was known
      countedAtTotal  sent + failed when the total was first stored
      completions     times MarkCampaignComplete returned true */
  datatype Ledger = Ledger(
    accepted: nat, unrecorded: nat,
    unwrittenSent: nat, unwrittenFailed: nat,
    lostSent: nat, lostFailed: nat,
    recounted: nat, checks: nat, countedAtTotal: nat, completions: nat)

  datatype State = State(rows: Rows, campaign: Campaign, mail: seq<Mail>, ledger: Ledger)

  /** The recipients of each chunk message. */
  type Plan = seq<seq<Rid>>

  datatype SesReply = Accepted | PermanentError | TransientError

  datatype Step =
    | SetTotal
    | Bounce(r: Rid)
    | Deliver(c: nat)
    | Cancelled(c: nat)
    | Check(c: nat, ok: bool)
    | Limit(c: nat, ok: bool)
    | MarkRowSending(c: nat, ok: bool)
    | Ses(c: nat, reply: SesReply)
    | Record(c: nat, ok: bool)
    | Tally(c: nat, ok: bool)
    | TryComplete(c: nat, ok: bool)
    | Settle(c: nat, ackOk: bool)
    | DeadMark(c: nat, ok: bool)
    | DeadTally(c: nat, ok: bool)
    | DeadComplete(c: nat, ok: bool)
    | DeadSettle(c: nat)
    | Crash(c: nat)

  /** The chunks hold every recipient row exactly once, and none is empty. */
  ghost predicate WellFormed(plan: Plan, rows: set<Rid>) {
    && (forall c :: 0 <= c < |plan| ==> plan[c] != [])
    && (forall c, i :: 0 <= c < |plan| && 0 <= i < |plan[c]| ==> plan[c][i] in rows)
    && (forall c, i, d, j ::
          (0 <= c < |plan| && 0 <= d < |plan| && 0 <= i < |plan[c]| && 0 <= j < |plan[d]|
              && plan[c][i] == plan[d][j]) ==>
          c == d && i == j)
    && (forall r :: r in rows ==> exists c, i :: 0 <= c < |plan| && 0 <= i < |plan[c]| && plan[c][i] == r)
  }

  /** Before any chunk is delivered and before the total is stored. */
  ghost predicate Init(plan: Plan, s: State) {
    && WellFormed(plan, s.rows.Keys)
    && |s.rows| > 0
    && (forall r :: r in s.rows ==> s.rows[r] == Queued)
    && s.campaign.status in {QueuedForSend, InProgress}
    && s.campaign.total == s.campaign.sent == s.campaign.failed == 0
    && !s.campaign.completedAt
    && |s.mail| == |plan|
    && (forall c :: 0 <= c < |plan| ==> s.mail[c] == Waiting(0))
    && s.ledger == Ledger(0, 0, 0, 0, 0, 0, 0, 0, 0, 0)
  }

  predicate RunningAt(plan: Plan, s: State, c: nat, pc: Pc) {
    c < |plan| && c < |s.mail| && s.mail[c].Busy? && s.mail[c].work.pc == pc
  }

  predicate InLoop(pc: Pc) {
    (pc.AtCheck? || pc.AtLimit? || pc.AtSending? || pc.AtSes? || pc.AtRecordSent? || pc.AtRecordFailed?)
  }

  /** Indices that the handler's loops keep in range. */
  predicate Shaped(recipients: seq<Rid>, w: Work) {
    && w.next <= |recipients|
    && (InLoop(w.pc) <==> w.next < |recipients|)
    && w.marked <= |w.transient|
    && (w.pc.AtDeadMark? ==> w.marked < |w.transient|)
  }

  predicate Enabled(plan: Plan, s: State, step: Step) {
    match step
    case SetTotal => true
    case Bounce(r) => r in s.rows && s.rows[r].Sent?
    case Deliver(c) =>
      c < |plan| && c < |s.mail| && s.mail[c].Waiting? && s.mail[c].attempts < MAX_ATTEMPTS && plan[c] != []
    case Cancelled(c) => RunningAt(plan, s, c, AtCheck) && Shaped(plan[c], s.mail[c].work)
    case Check(c, _) =>
      RunningAt(plan, s, c, AtCheck) && Shaped(plan[c], s.mail[c].work) && plan[c][s.mail[c].work.next] in s.rows
    case Limit(c, _) => RunningAt(plan, s, c, AtLimit) && Shaped(plan[c], s.mail[c].work)
    case MarkRowSending(c, _) =>
      RunningAt(plan, s, c, AtSending) && Shaped(plan[c], s.mail[c].work) && plan[c][s.mail[c].work.next] in s.rows
    case Ses(c, _) => RunningAt(plan, s, c, AtSes) && Shaped(plan[c], s.mail[c].work)
    case Record(c, _) =>
      (RunningAt(plan, s, c, AtRecordSent) || RunningAt(plan, s, c, AtRecordFailed)) && Shaped(plan[c], s.mail[c].work)
    case Tally(c, _) => RunningAt(plan, s, c, AtTally)
    case TryComplete(c, _) => RunningAt(plan, s, c, AtComplete)
    case Settle(c, _) => RunningAt(plan, s, c, AtSettle)
    case DeadMark(c, _) =>
      RunningAt(plan, s, c, AtDeadMark) && Shaped(plan[c], s.mail[c].work)
          && s.mail[c].work.transient[s.mail[c].work.marked] in s.rows
    case DeadTally(c, _) => RunningAt(plan, s, c, AtDeadTally)
    case DeadComplete(c, _) => RunningAt(plan, s, c, AtDeadComplete)
    case DeadSettle(c) => RunningAt(plan, s, c, AtDeadSettle)
    case Crash(c) => c < |plan| && c < |s.mail| && s.mail[c].Busy?
  }

  /** The loop moves on; after the last recipient comes the counter update if there is
      anything fresh to add, otherwise the disposition. */
  function Advance(recipients: seq<Rid>, w: Work): Work {
    var w' := w.(next := w.next + 1);
    if w'.next < |recipients| then w'.(pc := AtCheck)
    else if w'.sent > 0 || w'.failed > 0 then w'.(pc := AtTally)
    else w'.(pc := AtSettle)
  }

  function Retry(recipients: seq<Rid>, w: Work): Work
    requires w.next < |recipients|
  {
    Advance(recipients, w.(transient := w.transient + [recipients[w.next]]))
  }

  function FreshWork(): Work { Work(AtCheck, 0, 0, 0, [], 0, 0) }

  function Put(s: State, c: nat, w: Work): State
    requires c < |s.mail| && s.mail[c].Busy?
  {
    s.(mail := s.mail[c := Busy(s.mail[c].attempts, w)])
  }

  function SetTotal(s: State): State {
    s.(campaign := Started(s.campaign, |s.rows|),
       ledger := if s.campaign.total == 0 then s.ledger.(countedAtTotal := s.campaign.sent + s.campaign.failed)
           else s.ledger)
  }

  /** GetCampaignRecipientStatus */
  function OnCheck(recipients: seq<Rid>, s: State, c: nat, ok: bool): State
    requires c < |s.mail| && s.mail[c].Busy? && s.mail[c].work.next < |recipients|
    requires recipients[s.mail[c].work.next] in s.rows
  {
    var w := s.mail[c].work;
    Put(s, c,
        if !ok then Retry(recipients, w)
        else if Delivered(s.rows[recipients[w.next]]) then Advance(recipients, w)
        else w.(pc := AtLimit))
  }

  /** MarkCampaignRecipientSending */
  function OnMarkSending(recipients: seq<Rid>, s: State, c: nat, ok: bool): State
    requires c < |s.mail| && s.mail[c].Busy? && s.mail[c].work.next < |recipients|
    requires recipients[s.mail[c].work.next] in s.rows
  {
    var w := s.mail[c].work;
    if !ok then Put(s, c, Retry(recipients, w))
    else
      var r := recipients[w.next];
      Put(s, c, w.(pc := AtSes)).(
        rows := MarkSending(s.rows, r),
        ledger := s.ledger.(recounted := s.ledger.recounted + if s.rows[r].Failed? then 1 else 0))
  }

  function OnSes(recipients: seq<Rid>, s: State, c: nat, reply: SesReply): State
    requires c < |s.mail| && s.mail[c].Busy? && s.mail[c].work.next < |recipients|
  {
    var w := s.mail[c].work;
    match reply
    case Accepted => Put(s, c, w.(pc := AtRecordSent)).(ledger := s.ledger.(accepted := s.ledger.accepted + 1))
    case PermanentError => Put(s, c, w.(pc := AtRecordFailed))
    case TransientError => Put(s, c, Retry(recipients, w))
  }

  /** MarkCampaignRecipientSent or MarkCampaignRecipientFailed. An error is only logged: the
      outcome is counted all the same. */
  function OnRecord(recipients: seq<Rid>, s: State, c: nat, ok: bool): State
    requires c < |s.mail| && s.mail[c].Busy? && s.mail[c].work.next < |recipients|
  {
    var w := s.mail[c].work;
    var r := recipients[w.next];
    var missed := if ok then 0 else 1;
    if w.pc.AtRecordSent? then
      Put(s, c, Advance(recipients, w.(sent := w.sent + 1))).(
        rows := if ok then MarkSent(s.rows, r) else s.rows,
        ledger := s.ledger.(unwrittenSent := s.ledger.unwrittenSent + missed))
    else
      Put(s, c, Advance(recipients, w.(failed := w.failed + 1))).(
        rows := if ok then MarkFailed(s.rows, r) else s.rows,
        ledger := s.ledger.(unwrittenFailed := s.ledger.unwrittenFailed + missed))
  }

  /** IncrementCampaignCounts; an error naks the message. */
  function OnTally(s: State, c: nat, ok: bool): State
    requires c < |s.mail| && s.mail[c].Busy?
  {
    var w := s.mail[c].work;
    var l := s.ledger;
    if !ok then
      s.(mail := s.mail[c := Waiting(s.mail[c].attempts)],
         ledger := l.(lostSent := l.lostSent + w.sent, lostFailed := l.lostFailed + w.failed + w.dead))
    else
      var campaign := Increment(s.campaign, w.sent, w.failed);
      Put(s, c, w.(sent := 0, failed := 0, pc := if Reached(campaign) then AtComplete else AtSettle)).(
        campaign := campaign,
        ledger := l.(checks := l.checks + if campaign.total > 0 then 1 else 0))
  }

  /** MarkCampaignComplete; an error is ignored. */
  function OnComplete(s: State, c: nat, ok: bool, nextPc: Pc): State
    requires c < |s.mail| && s.mail[c].Busy?
  {
    var s' := Put(s, c, s.mail[c].work.(pc := nextPc));
    if ok then
      s'.(campaign := Complete(s.campaign),
          ledger := s.ledger.(completions := s.ledger.completions + if Complete(s.campaign) != s.campaign then 1
              else 0))
    else s'
  }

  /** Ack, nak, or on to the dead-letter loop. */
  function OnSettle(s: State, c: nat, ackOk: bool): State
    requires c < |s.mail| && s.mail[c].Busy?
  {
    var w := s.mail[c].work;
    var attempts := s.mail[c].attempts;
    if w.transient == [] then s.(mail := s.mail[c := if ackOk then Acked(attempts) else Waiting(attempts)])
    else if attempts >= MAX_ATTEMPTS then Put(s, c, w.(pc := AtDeadMark, marked := 0, dead := 0))
    else s.(mail := s.mail[c := Waiting(attempts)])
  }

  /** MarkCampaignRecipientFailed for one transient recipient of the final delivery. The update
      reports no error when its guard matches no row. */
  function OnDeadMark(s: State, c: nat, ok: bool): State
    requires c < |s.mail| && s.mail[c].Busy? && s.mail[c].work.marked < |s.mail[c].work.transient|
    requires s.mail[c].work.transient[s.mail[c].work.marked] in s.rows
  {
    var w := s.mail[c].work;
    var r := w.transient[w.marked];
    var dead := if ok then w.dead + 1 else w.dead;
    var pc := if w.marked + 1 < |w.transient| then AtDeadMark else if dead > 0 then AtDeadTally else AtDeadSettle;
    var s' := Put(s, c, w.(marked := w.marked + 1, dead := dead, pc := pc));
    if !ok then s'
    else
      s'.(rows := MarkFailed(s.rows, r),
          ledger := s.ledger.(recounted := s.ledger.recounted + if Terminal(s.rows[r]) then 1 else 0))
  }

  /** The dead-letter increment; an error is only logged. */
  function OnDeadTally(s: State, c: nat, ok: bool): State
    requires c < |s.mail| && s.mail[c].Busy?
  {
    var w := s.mail[c].work;
    var s' := Put(s, c, w.(dead := 0, pc := AtDeadComplete));
    if ok then s'.(campaign := Increment(s.campaign, 0, w.dead))
    else s'.(ledger := s.ledger.(lostFailed := s.ledger.lostFailed + w.dead))
  }

  function OnDeadComplete(s: State, c: nat, ok: bool): State
    requires c < |s.mail| && s.mail[c].Busy?
  {
    var s' := OnComplete(s, c, ok, AtDeadSettle);
    s'.(ledger := s'.ledger.(checks := s.ledger.checks + if ok && s.campaign.total > 0 then 1 else 0))
  }

  /** The process dies; the broker redelivers the message if deliveries are left. */
  function OnCrash(s: State, c: nat): State
    requires c < |s.mail| && s.mail[c].Busy?
  {
    var w := s.mail[c].work;
    var l := s.ledger;
    s.(mail := s.mail[c := Waiting(s.mail[c].attempts)],
       ledger := l.(
         lostSent := l.lostSent + w.sent,
         lostFailed := l.lostFailed + w.failed + w.dead,
         unrecorded := l.unrecorded + if w.pc.AtRecordSent? then 1 else 0))
  }

  function Next(plan: Plan, s: State, step: Step): State
    requires Enabled(plan, s, step)
  {
    match step
    case SetTotal => SetTotal(s)
    case Bounce(r) => s.(rows := s.rows[r := Bounced])
    case Deliver(c) => s.(mail := s.mail[c := Busy(s.mail[c].attempts + 1, FreshWork())])
    case Cancelled(c) => Put(s, c, Retry(plan[c], s.mail[c].work))
    case Check(c, ok) => OnCheck(plan[c], s, c, ok)
    case Limit(c, ok) => Put(s, c, if ok then s.mail[c].work.(pc := AtSending) else Retry(plan[c], s.mail[c].work))
    case MarkRowSending(c, ok) => OnMarkSending(plan[c], s, c, ok)
    case Ses(c, reply) => OnSes(plan[c], s, c, reply)
    case Record(c, ok) => OnRecord(plan[c], s, c, ok)
    case Tally(c, ok) => OnTally(s, c, ok)
    case TryComplete(c, ok) => OnComplete(s, c, ok, AtSettle)
    case Settle(c, ackOk) => OnSettle(s, c, ackOk)
    case DeadMark(c, ok) => OnDeadMark(s, c, ok)
    case DeadTally(c, ok) => OnDeadTally(s, c, ok)
    case DeadComplete(c, ok) => OnDeadComplete(s, c, ok)
    case DeadSettle(c) => s.(mail := s.mail[c := DeadLettered(s.mail[c].attempts)])
    case Crash(c) => OnCrash(s, c)
  }

  /** The steps can be taken one after the other from `s`. */
  predicate ValidRun(plan: Plan, s: State, steps: seq<Step>)
    decreases |steps|, 0
  {
    steps == [] ||
    var before := steps[..|steps| - 1];
    && ValidRun(plan, s, before)
    && Enabled(plan, Run(plan, s, before), steps[|steps| - 1])
  }

  function Run(plan: Plan, s: State, steps: seq<Step>): State
    requires ValidRun(plan, s, steps)
    decreases |steps|, 1
  {
    if steps == [] then s
    else Next(plan, Run(plan, s, steps[..|steps| - 1]), steps[|steps| - 1])
  }
}
