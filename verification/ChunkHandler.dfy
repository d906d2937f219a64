/** The chunk handler as the worker writes it, running against shared tables that the other
    chunk handlers, the start handler and bounces change between any two of its statements.
    Everything it does, under every interference and every pattern of failures, is a run of
    the machine in ChunkMachine, so the results about runs hold for it. */
module ChunkHandler {
  import opened CampaignTables
  import opened Messages
  import opened ChunkMachine
  import opened ChunkAccounting
  import ChunkCompletion

  /** What the world does during one Handle call: the steps others take just before its k-th
      statement, and for each recipient whether the time is up, which of the calls made for it
      succeed and what SES says; then whether the calls made once for the chunk succeed. */
  datatype Environment = Environment(
    others: nat -> seq<Step>,
    cancelled: Rid -> bool,
    checks: Rid -> bool,
    grants: Rid -> bool,
    opens: Rid -> bool,
    reply: Rid -> SesReply,
    records: Rid -> bool,
    counts: bool,
    completes: bool,
    settles: bool,
    deadMarks: Rid -> bool,
    deadCounts: bool,
    deadCompletes: bool)

  /** Nobody else takes a step during the call. */
  ghost predicate Calm(env: Environment) { forall k: nat :: env.others(k) == [] }

  lemma CalmAt(env: Environment, k: nat)
    ensures Calm(env) ==> env.others(k) == []
  {
  }

  datatype Outcome = SentOutcome | DuplicateOutcome | PermanentOutcome | TransientOutcome

  // --- what a delivery does to a recipient whose row had the given status, whatever fails ---

  /** SES is asked. */
  predicate Asked(env: Environment, r: Rid, status: RecipientStatus) {
    !env.cancelled(r) && env.checks(r) && !status.Sent? && !status.Bounced? && env.grants(r) && env.opens(r)
  }

  function OutcomeOf(reply: SesReply): Outcome {
    match reply
    case Accepted => SentOutcome
    case PermanentError => PermanentOutcome
    case TransientError => TransientOutcome
  }

  function Fate(env: Environment, r: Rid, status: RecipientStatus): Outcome {
    if Asked(env, r, status) then OutcomeOf(env.reply(r))
    else if !env.cancelled(r) && env.checks(r) && (status.Sent? || status.Bounced?) then DuplicateOutcome
    else TransientOutcome
  }

  /** The row once SES has answered: the outcome, if it could be written. */
  function RecordedAs(env: Environment, r: Rid): RecipientStatus {
    if env.reply(r).TransientError? || !env.records(r) then Sending
    else if env.reply(r).Accepted? then Sent else Failed
  }

  function StatusAfter(env: Environment, r: Rid, status: RecipientStatus): RecipientStatus {
    if Asked(env, r, status) then RecordedAs(env, r) else status
  }

  /** The dead-letter loop of the last delivery fails what is left and was not delivered. */
  function StatusAtEnd(env: Environment, r: Rid, status: RecipientStatus, exhausted: bool): RecipientStatus {
    var after := StatusAfter(env, r, status);
    if exhausted && Fate(env, r, status).TransientOutcome? && env.deadMarks(r) && !after.Sent? && !after.Bounced?
    then Failed
    else after
  }

  /** The recipients with the given fate, in order. */
  function Those(recipients: seq<Rid>, before: Rows, env: Environment, outcome: Outcome): (those: seq<Rid>)
    requires forall r :: r in recipients ==> r in before
    ensures forall r :: r in those <==> r in recipients && Fate(env, r, before[r]) == outcome
  {
    if recipients == [] then []
    else
      var r := recipients[|recipients| - 1];
      Those(recipients[..|recipients| - 1], before, env, outcome)
      + if Fate(env, r, before[r]) == outcome then [r] else []
  }

  /** The recipients SES is asked to mail, in order. */
  function AskedFor(recipients: seq<Rid>, before: Rows, env: Environment): (asked: seq<Rid>)
    requires forall r :: r in recipients ==> r in before
    ensures forall r :: r in asked <==> r in recipients && Asked(env, r, before[r])
  {
    if recipients == [] then []
    else
      var r := recipients[|recipients| - 1];
      AskedFor(recipients[..|recipients| - 1], before, env) + if Asked(env, r, before[r]) then [r] else []
  }

  /** Every recipient has exactly one fate; if no call before SES fails, SES is asked for those that
      are sent, failed or retried. */
  lemma {:induction false} FatesPartition(recipients: seq<Rid>, before: Rows, env: Environment)
    requires forall r :: r in recipients ==> r in before
    ensures |recipients| == |Those(recipients, before, env, SentOutcome)|
                          + |Those(recipients, before, env, DuplicateOutcome)|
                          + |Those(recipients, before, env, PermanentOutcome)|
                          + |Those(recipients, before, env, TransientOutcome)|
    ensures NothingRefused(recipients, env) ==>
              |AskedFor(recipients, before, env)| == |Those(recipients, before, env, SentOutcome)|
                                                   + |Those(recipients, before, env, PermanentOutcome)|
                                                   + |Those(recipients, before, env, TransientOutcome)|
  {
    if recipients != [] {
      var init := recipients[..|recipients| - 1];
      FatesPartition(init, before, env);
      assert forall r :: r in init ==> r in recipients;
    }
  }

  predicate NothingRefused(recipients: seq<Rid>, env: Environment) {
    forall r :: r in recipients ==> !env.cancelled(r) && env.checks(r) && env.grants(r) && env.opens(r)
  }

  /** Then SES is asked for exactly the recipients that were not delivered, and a retry is needed
      exactly if SES refuses one of them transiently. */
  lemma PlainDelivery(recipients: seq<Rid>, before: Rows, env: Environment)
    requires (forall r :: r in recipients ==> r in before) && NothingRefused(recipients, env)
    ensures forall r :: r in recipients ==>
              (r in AskedFor(recipients, before, env) <==> before[r] != Sent && before[r] != Bounced)
    ensures Those(recipients, before, env, TransientOutcome) == [] <==>
              forall r :: r in recipients && before[r] != Sent && before[r] != Bounced ==>
                !env.reply(r).TransientError?
  {
    var transient := Those(recipients, before, env, TransientOutcome);
    if transient != [] { assert transient[0] in transient; }
    forall r | r in recipients && before[r] != Sent && before[r] != Bounced && env.reply(r).TransientError?
      ensures r in transient
    {
    }
  }

  /** How many of them the dead-letter loop fails. */
  function DeadOf(transient: seq<Rid>, env: Environment): nat {
    if transient == [] then 0
    else
      DeadOf(transient[..|transient| - 1], env) + if env.deadMarks(transient[|transient| - 1]) then 1 else 0
  }

  /** Others can only make a bounce of a sent row. */
  predicate AsLeft(calm: bool, before: RecipientStatus, after: RecipientStatus) {
    after == before || (!calm && before.Sent? && after.Bounced?)
  }

  /** Between the two tables others at most bounced recipients of the chunk; if it was calm they
      did nothing at all. */
  predicate LeftAlone(recipients: seq<Rid>, calm: bool, before: Rows, after: Rows) {
    && (forall r :: r in recipients ==> r in before && r in after && AsLeft(calm, before[r], after[r]))
    && (calm ==> after == before)
  }

  lemma LeftAloneTwice(recipients: seq<Rid>, calm: bool, calm0: bool, calm1: bool, a: Rows, b: Rows, c: Rows)
    requires LeftAlone(recipients, calm0, a, b) && LeftAlone(recipients, calm1, b, c)
    requires calm ==> calm0 && calm1
    ensures LeftAlone(recipients, calm, a, c)
  {
  }

  lemma LeftAloneWeaker(recipients: seq<Rid>, calm: bool, calm0: bool, before: Rows, after: Rows)
    requires LeftAlone(recipients, calm0, before, after) && (calm ==> calm0)
    ensures LeftAlone(recipients, calm, before, after)
  {
  }

  lemma LeftAloneAndWritten(recipients: seq<Rid>, calm: bool, before: Rows, after: Rows, r: Rid,
                            status: RecipientStatus)
    requires LeftAlone(recipients, calm, before, after) && r in recipients
    ensures LeftAlone(recipients, calm, before[r := status], after[r := status])
  {
  }

  lemma LeftAloneRow(recipients: seq<Rid>, calm: bool, calm0: bool, before: Rows, after: Rows, r: Rid)
    requires LeftAlone(recipients, calm0, before, after) && r in recipients && (calm ==> calm0)
    ensures r in before && r in after && AsLeft(calm0, before[r], after[r])
    ensures LeftAlone(recipients, calm, before, after) && before[r := before[r]] == before
  {
    assert before[r := before[r]] == before;
  }

  /** A row that is left alone and then written, and others after it. */
  lemma LeftAloneThenWritten(recipients: seq<Rid>, calm: bool, calm0: bool, calm1: bool, a: Rows, b: Rows, c: Rows,
                             r: Rid, status: RecipientStatus)
    requires LeftAlone(recipients, calm0, a, b) && LeftAlone(recipients, calm1, b[r := status], c)
    requires r in recipients && (calm ==> calm0 && calm1)
    ensures LeftAlone(recipients, calm, a[r := status], c)
  {
    LeftAloneAndWritten(recipients, calm0, a, b, r, status);
    LeftAloneTwice(recipients, calm, calm0, calm1, a[r := status], b[r := status], c);
  }

  /** A row that is written twice is as it was written last. */
  lemma WrittenTwice(recipients: seq<Rid>, calm: bool, calm0: bool, calm1: bool, a: Rows, b: Rows, c: Rows, r: Rid,
                     first: RecipientStatus, last: RecipientStatus)
    requires LeftAlone(recipients, calm0, a[r := first], b) && LeftAlone(recipients, calm1, b[r := last], c)
    requires r in recipients && r in a && (calm ==> calm0 && calm1)
    ensures LeftAlone(recipients, calm, a[r := last], c)
  {
    LeftAloneThenWritten(recipients, calm, calm0, calm1, a[r := first], b, c, r, last);
    assert a[r := first][r := last] == a[r := last];
  }

  /** The rows after the recipients in `done` have been treated. */
  function Treated(done: seq<Rid>, before: Rows, env: Environment): Rows {
    map r | r in before :: if r in done then StatusAfter(env, r, before[r]) else before[r]
  }

  /** The rows after the dead-letter loop has been over those in `dead`. */
  function DeadRows(dead: seq<Rid>, before: Rows, env: Environment): Rows {
    map r | r in before ::
      if r in dead && env.deadMarks(r) && !before[r].Sent? && !before[r].Bounced? then Failed else before[r]
  }

  lemma TreatedNext(recipients: seq<Rid>, i: nat, before: Rows, env: Environment, calm: bool, rows: Rows, rows': Rows)
    requires i < |recipients| && forall j :: 0 <= j < i ==> recipients[j] != recipients[i]
    requires LeftAlone(recipients, calm, Treated(recipients[..i], before, env), rows)
    requires recipients[i] in before && recipients[i] in rows
    requires LeftAlone(recipients, calm,
               rows[recipients[i] := StatusAfter(env, recipients[i], rows[recipients[i]])], rows')
    ensures LeftAlone(recipients, calm, Treated(recipients[..i + 1], before, env), rows')
    ensures Fate(env, recipients[i], rows[recipients[i]]) == Fate(env, recipients[i], before[recipients[i]])
    ensures Asked(env, recipients[i], rows[recipients[i]]) == Asked(env, recipients[i], before[recipients[i]])
  {
    var r := recipients[i];
    assert recipients[..i + 1] == recipients[..i] + [r];
    assert r !in recipients[..i];
    assert AsLeft(calm, before[r], rows[r]);
    if calm { assert rows' == Treated(recipients[..i + 1], before, env); }
  }

  lemma SkipTreats(recipients: seq<Rid>, env: Environment, r: Rid, calm0: bool, calm: bool, rows: Rows, rows': Rows)
    requires env.cancelled(r) && r in recipients && r in rows
    requires LeftAlone(recipients, calm0, rows, rows') && (calm ==> calm0)
    ensures LeftAlone(recipients, calm, rows[r := StatusAfter(env, r, rows[r])], rows')
    ensures Fate(env, r, rows[r]) == TransientOutcome && !Asked(env, r, rows[r])
  {
    LeftAloneRow(recipients, calm, calm0, rows, rows', r);
  }

  lemma DeadRowsNext(recipients: seq<Rid>, dead: seq<Rid>, j: nat, before: Rows, env: Environment, calm: bool,
                     calm0: bool, rows: Rows, rows': Rows)
    requires j < |dead| && dead[j] in recipients && (calm ==> calm0)
    requires LeftAlone(recipients, calm, DeadRows(dead[..j], before, env), rows)
    requires dead[j] in rows
    requires LeftAlone(recipients, calm0, if !env.deadMarks(dead[j]) || Delivered(rows[dead[j]]) then rows
                                         else rows[dead[j] := Failed], rows')
    ensures LeftAlone(recipients, calm, DeadRows(dead[..j + 1], before, env), rows')
    ensures DeadOf(dead[..j + 1], env) == DeadOf(dead[..j], env) + if env.deadMarks(dead[j]) then 1 else 0
  {
    assert dead[..j + 1] == dead[..j] + [dead[j]];
    assert dead[..j + 1][..j] == dead[..j];
    if calm { assert rows' == DeadRows(dead[..j + 1], before, env); }
  }

  /** MarkCampaignComplete on a row that no other statement touches. */
  function CompletedIf(campaign: Campaign, ok: bool): Campaign {
    if ok && !campaign.completedAt && campaign.total > 0 && campaign.sent + campaign.failed >= campaign.total
    then campaign.(status := Completed, completedAt := true)
    else campaign
  }

  /** The main increment and the completion it may bring. */
  function Progressed(campaign: Campaign, sent: nat, failed: nat, env: Environment): Campaign {
    if !env.counts then campaign
    else CompletedIf(campaign.(sent := campaign.sent + sent, failed := campaign.failed + failed), env.completes)
  }

  /** The dead-letter increment and the completion it may bring. */
  function DeadCounted(campaign: Campaign, dead: nat, env: Environment): Campaign {
    CompletedIf(if env.deadCounts then campaign.(failed := campaign.failed + dead) else campaign, env.deadCompletes)
  }

  /** How the message is settled: naked if the counters could not be written. */
  function DispositionOf(recipients: seq<Rid>, before: Rows, env: Environment, attempt: nat): Disposition
    requires forall r :: r in recipients ==> r in before
  {
    var transient := Those(recipients, before, env, TransientOutcome);
    var counted := Those(recipients, before, env, SentOutcome) + Those(recipients, before, env, PermanentOutcome);
    if counted != [] && !env.counts then Nak
    else if transient == [] then Ack
    else if attempt >= 6 then Term
    else Nak
  }

  /** The campaign row after a delivery that nobody interfered with. */
  function CampaignAtEnd(campaign: Campaign, recipients: seq<Rid>, before: Rows, env: Environment, exhausted: bool):
    Campaign
    requires forall r :: r in recipients ==> r in before
  {
    var sent := |Those(recipients, before, env, SentOutcome)|;
    var failed := |Those(recipients, before, env, PermanentOutcome)|;
    var dead := DeadOf(Those(recipients, before, env, TransientOutcome), env);
    var progressed := if sent + failed > 0 then Progressed(campaign, sent, failed, env) else campaign;
    if exhausted && dead > 0 then DeadCounted(progressed, dead, env) else progressed
  }

  lemma TreatedNone(recipients: seq<Rid>, before: Rows, env: Environment, calm: bool)
    requires forall r :: r in recipients ==> r in before
    ensures LeftAlone(recipients, calm, Treated([], before, env), before)
  {
    assert Treated([], before, env) == before;
  }

  lemma DeadRowsNone(recipients: seq<Rid>, before: Rows, env: Environment, calm: bool)
    requires forall r :: r in recipients ==> r in before
    ensures LeftAlone(recipients, calm, DeadRows([], before, env), before)
  {
    assert DeadRows([], before, env) == before;
  }

  lemma DeadRowsLater(recipients: seq<Rid>, dead: seq<Rid>, env: Environment, calm: bool, a: Rows, b: Rows, c: Rows)
    requires (forall r :: r in dead ==> r in recipients) && LeftAlone(recipients, calm, a, b)
    requires LeftAlone(recipients, calm, DeadRows(dead, b, env), c)
    ensures LeftAlone(recipients, calm, DeadRows(dead, a, env), c)
  {
  }

  /** After all recipients have been treated, and the dead-letter loop if the delivery got there. */
  lemma RowsEnd(recipients: seq<Rid>, before: Rows, env: Environment, calm: bool, rows: Rows, rows': Rows,
                exhausted: bool)
    requires forall r :: r in recipients ==> r in before
    requires LeftAlone(recipients, calm, Treated(recipients, before, env), rows)
    requires (!exhausted && rows' == rows)
          || LeftAlone(recipients, calm,
               if exhausted then DeadRows(Those(recipients, before, env, TransientOutcome), rows, env) else rows, rows')
    ensures forall r :: r in recipients ==>
              r in rows' && AsLeft(calm, StatusAtEnd(env, r, before[r], exhausted), rows'[r])
    ensures calm ==> forall r :: r in before && r !in recipients ==> r in rows' && rows'[r] == before[r]
  {
  }

  /** The locals of Handle after one recipient's outcome has been added to them. */
  function AfterOutcome(recipients: seq<Rid>, w: Work, outcome: Outcome): Work
    requires w.next < |recipients|
  {
    match outcome
    case SentOutcome => Advance(recipients, w.(sent := w.sent + 1))
    case DuplicateOutcome => Advance(recipients, w)
    case PermanentOutcome => Advance(recipients, w.(failed := w.failed + 1))
    case TransientOutcome => Retry(recipients, w)
  }

  function LoopPc(next: nat, all: nat, sent: nat, failed: nat): Pc {
    if next < all then AtCheck else if sent > 0 || failed > 0 then AtTally else AtSettle
  }

  function DeadPc(marked: nat, all: nat, dead: nat): Pc {
    if marked < all then AtDeadMark else if dead > 0 then AtDeadTally else AtDeadSettle
  }

  /** The dead-letter loop's locals after one recipient. */
  function AfterDeadMark(w: Work, ok: bool): Work {
    var dead := if ok then w.dead + 1 else w.dead;
    w.(marked := w.marked + 1, dead := dead, pc := DeadPc(w.marked + 1, |w.transient|, dead))
  }

  predicate ByOthers(step: Step, c: nat) {
    step.SetTotal? || step.Bounce? || step.c != c
  }

  lemma {:induction false} AppendStep(plan: Plan, s: State, steps: seq<Step>, step: Step)
    requires ValidRun(plan, s, steps) && Enabled(plan, Run(plan, s, steps), step)
    ensures ValidRun(plan, s, steps + [step])
    ensures Run(plan, s, steps + [step]) == Next(plan, Run(plan, s, steps), step)
  {
    assert (steps + [step])[..|steps + [step]| - 1] == steps;
  }

  /** However far a recipient got, its outcome leaves the handler at the same place. */
  lemma PcIsOverwritten(recipients: seq<Rid>, w: Work)
    requires w.next < |recipients|
    ensures forall pc: Pc, outcome: Outcome {:trigger AfterOutcome(recipients, w.(pc := pc), outcome)} ::
              AfterOutcome(recipients, w.(pc := pc), outcome) == AfterOutcome(recipients, w, outcome)
  {
  }

  /** The loop's locals before and after one recipient. */
  lemma LoopStep(recipients: seq<Rid>, i: nat, sent: nat, failed: nat, transient: seq<Rid>, outcome: Outcome)
    requires i < |recipients|
    ensures AfterOutcome(recipients, Work(LoopPc(i, |recipients|, sent, failed), i, sent, failed, transient, 0, 0),
                         outcome)
         == (var sent' := if outcome.SentOutcome? then sent + 1 else sent;
             var failed' := if outcome.PermanentOutcome? then failed + 1 else failed;
             var transient' := if outcome.TransientOutcome? then transient + [recipients[i]] else transient;
             Work(LoopPc(i + 1, |recipients|, sent', failed'), i + 1, sent', failed', transient', 0, 0))
  {
  }

  /** What the loop has done when it has been over `done`: its locals, SES's requests and the rows. */
  predicate SoFar(recipients: seq<Rid>, done: seq<Rid>, before: Rows, env: Environment, calm: bool, w: Work,
                  asked: seq<Rid>, rows: Rows)
    requires forall r :: r in done ==> r in before
  {
    && w.sent == |Those(done, before, env, SentOutcome)|
    && w.failed == |Those(done, before, env, PermanentOutcome)|
    && w.transient == Those(done, before, env, TransientOutcome)
    && asked == AskedFor(done, before, env)
    && LeftAlone(recipients, calm, Treated(done, before, env), rows)
  }

  lemma SoFarNone(recipients: seq<Rid>, before: Rows, env: Environment, calm: bool, w: Work)
    requires (forall r :: r in recipients ==> r in before) && w.sent == w.failed == 0 && w.transient == []
    ensures SoFar(recipients, recipients[..0], before, env, calm, w, [], before)
  {
    assert Treated(recipients[..0], before, env) == before;
  }

  lemma SoFarAll(recipients: seq<Rid>, before: Rows, env: Environment, calm: bool, w: Work, asked: seq<Rid>, rows: Rows)
    requires forall r :: r in recipients ==> r in before
    requires SoFar(recipients, recipients[..|recipients|], before, env, calm, w, asked, rows)
    ensures w.sent == |Those(recipients, before, env, SentOutcome)|
    ensures w.failed == |Those(recipients, before, env, PermanentOutcome)|
    ensures w.transient == Those(recipients, before, env, TransientOutcome)
    ensures asked == AskedFor(recipients, before, env)
    ensures LeftAlone(recipients, calm, Treated(recipients, before, env), rows)
  {
    assert recipients[..|recipients|] == recipients;
  }

  lemma ThoseNext(recipients: seq<Rid>, i: nat, before: Rows, env: Environment, outcome: Outcome)
    requires i < |recipients| && forall r :: r in recipients ==> r in before
    ensures Those(recipients[..i + 1], before, env, outcome)
         == Those(recipients[..i], before, env, outcome)
            + if Fate(env, recipients[i], before[recipients[i]]) == outcome then [recipients[i]] else []
    ensures AskedFor(recipients[..i + 1], before, env)
         == AskedFor(recipients[..i], before, env)
            + if Asked(env, recipients[i], before[recipients[i]]) then [recipients[i]] else []
  {
    assert recipients[..i + 1][..i] == recipients[..i];
  }

  /** One recipient more. */
  lemma SoFarNext(recipients: seq<Rid>, i: nat, before: Rows, env: Environment, calm: bool, w: Work, w': Work,
                  asked: seq<Rid>, asked': seq<Rid>, rows: Rows, rows': Rows)
    requires i < |recipients| && (forall r :: r in recipients ==> r in before)
    requires forall j :: 0 <= j < i ==> recipients[j] != recipients[i]
    requires SoFar(recipients, recipients[..i], before, env, calm, w, asked, rows)
    requires w.next == i && recipients[i] in rows
    requires w' == AfterOutcome(recipients, w, Fate(env, recipients[i], rows[recipients[i]]))
    requires asked' == asked + if Asked(env, recipients[i], rows[recipients[i]]) then [recipients[i]] else []
    requires LeftAlone(recipients, calm,
               rows[recipients[i] := StatusAfter(env, recipients[i], rows[recipients[i]])], rows')
    ensures SoFar(recipients, recipients[..i + 1], before, env, calm, w', asked', rows')
  {
    hide LeftAlone, Treated, Fate, Asked, StatusAfter, Those, AskedFor;
    TreatedNext(recipients, i, before, env, calm, rows, rows');
    ThoseNext(recipients, i, before, env, SentOutcome);
    ThoseNext(recipients, i, before, env, PermanentOutcome);
    ThoseNext(recipients, i, before, env, TransientOutcome);
  }

  class Cluster {
    const plan: Plan
    var rows: Rows
    var campaign: Campaign
    var mail: seq<Mail>
    var ledger: Ledger
    /** The recipients SES was asked to mail, in order. */
    var requests: seq<Rid>
    ghost const init: State
    ghost var log: seq<Step>

    function Now(): State reads this { State(rows, campaign, mail, ledger) }

    /** The present state is the end of the logged run. */
    ghost predicate Valid() reads this {
      && Init(plan, init)
      && ValidRun(plan, init, log)
      && Run(plan, init, log) == Now()
    }

    /** The state the last logged step was taken in. */
    ghost function Before(): State
      requires Valid() && log != []
      reads this
    {
      Run(plan, init, log[..|log| - 1])
    }

    lemma Sound()
      requires Valid()
      ensures Inv(plan, Now())
    {
      Conservation(plan, init, log);
    }

    constructor (plan: Plan, s: State)
      requires Init(plan, s)
      ensures Valid() && this.plan == plan && Now() == s && log == [] && requests == []
    {
      this.plan := plan;
      requests := [];
      rows, campaign, mail, ledger := s.rows, s.campaign, s.mail, s.ledger;
      init, log := s, [];
    }

    /** Records that the statement just executed was `step`. */
    ghost method Log(before: State, step: Step)
      requires Init(plan, init) && ValidRun(plan, init, log) && Run(plan, init, log) == before
      requires Enabled(plan, before, step) && Now() == Next(plan, before, step)
      modifies this`log
      ensures Valid() && log == old(log) + [step] && Before() == before
    {
      AppendStep(plan, init, log, step);
      log := log + [step];
      assert log[..|log| - 1] == old(log);
    }

    /** Other parties take those of the given steps that are open to them. */
    method Interfere(c: nat, steps: seq<Step>)
      requires Valid() && c < |mail| && c < |plan|
      modifies this
      ensures Valid() && old(log) <= log
      ensures |mail| == old(|mail|) && mail[c] == old(mail[c]) && rows.Keys == old(rows.Keys)
      ensures |mail| == |plan| && LeftAlone(plan[c], steps == [], old(rows), rows) && requests == old(requests)
      ensures steps == [] ==> campaign == old(campaign)
    {
      hide ValidRun, Run, Enabled, Next, Init, LeftAlone, ByOthers, Inv;
      Sound();
      OthersIdle(plan, Now(), c, steps == []);
      for i := 0 to |steps|
        invariant Valid() && old(log) <= log && requests == old(requests) && |mail| == |plan|
        invariant |mail| == old(|mail|) && mail[c] == old(mail[c]) && rows.Keys == old(rows.Keys)
        invariant LeftAlone(plan[c], steps == [], old(rows), rows) && (steps == [] ==> campaign == old(campaign))
      {
        ghost var before := Now();
        if ByOthers(steps[i], c) && Enabled(plan, Now(), steps[i]) {
          var s := Next(plan, Now(), steps[i]);
          Sound();
          OthersKeepMail(plan, before, steps[i], c);
          OthersKeepRows(plan, before, steps[i], c);
          LeftAloneTwice(plan[c], false, steps == [], false, old(rows), rows, s.rows);
          rows, campaign, mail, ledger := s.rows, s.campaign, s.mail, s.ledger;
          Log(before, steps[i]);
        }
      }
    }

    /** The handler of chunk `c` is about to execute `pc`. */
    ghost predicate At(c: nat, pc: Pc) reads this {
      Valid() && RunningAt(plan, Now(), c, pc)
    }

    /** The run grew by the statement `step` of chunk `c`, possibly after steps of others, and
        left the handler with the locals `w`. */
    twostate predicate Went(c: nat, w: Work, step: Step) reads this {
      && Valid() && old(log) < log && log[|log| - 1] == step && rows.Keys == old(rows.Keys)
      && c < old(|mail|) == |mail| && old(mail[c]).Busy? && mail[c] == Busy(old(mail[c]).attempts, w)
    }

    /** What every running handler can rely on. */
    lemma Grounded(c: nat)
      requires Valid() && c < |plan|
      ensures |mail| == |plan| && plan[c] != []
      ensures forall i :: 0 <= i < |plan[c]| ==> plan[c][i] in rows
      ensures forall i, j :: 0 <= i < j < |plan[c]| ==> plan[c][i] != plan[c][j]
      ensures forall r :: r in plan[c] ==> r in rows
      ensures mail[c].Busy? && (mail[c].work.pc.AtLimit? || mail[c].work.pc.AtSending?) ==>
                mail[c].work.next < |plan[c]| && !Delivered(rows[plan[c][mail[c].work.next]])
      ensures mail[c].Busy?
                && (mail[c].work.pc.AtSes? || mail[c].work.pc.AtRecordSent? || mail[c].work.pc.AtRecordFailed?) ==>
                mail[c].work.next < |plan[c]| && rows[plan[c][mail[c].work.next]] == Sending
      ensures mail[c].Busy? ==> Shaped(plan[c], mail[c].work) && 1 <= mail[c].attempts <= MAX_ATTEMPTS
      ensures mail[c].Busy? ==> forall k :: 0 <= k < |mail[c].work.transient| ==> mail[c].work.transient[k] in plan[c]
    {
      Sound();
      assert HandlerSound(plan[c], rows, mail[c]);
    }

    // --- one method per statement of processRecipient ---

    method GetRecipientStatus(c: nat, r: Rid, others: seq<Step>, ok: bool) returns (err: bool, status: RecipientStatus)
      requires At(c, AtCheck) && mail[c].work.next < |plan[c]| && r == plan[c][mail[c].work.next]
      modifies this
      ensures err == !ok && requests == old(requests) && LeftAlone(plan[c], others == [], old(rows), rows)
      ensures others == [] ==> campaign == old(campaign)
      ensures r in rows && status == rows[r]
      ensures Went(c, if err then AfterOutcome(plan[c], old(mail[c].work), TransientOutcome)
                      else if Delivered(status) then AfterOutcome(plan[c], old(mail[c].work), DuplicateOutcome)
                      else old(mail[c].work).(pc := AtLimit), Check(c, ok))
    {
      hide ValidRun, Run, LeftAlone;
      Interfere(c, others);
      Grounded(c);
      ghost var before := Now();
      var w := mail[c].work;
      err, status := !ok, rows[r];
      mail := mail[c := Busy(mail[c].attempts,
        if err then Retry(plan[c], w) else if Delivered(status) then Advance(plan[c], w) else w.(pc := AtLimit))];
      Log(before, Check(c, ok));
    }

    method AcquireToken(c: nat, others: seq<Step>, ok: bool) returns (err: bool)
      requires At(c, AtLimit) && mail[c].work.next < |plan[c]|
      modifies this
      ensures err == !ok && requests == old(requests) && LeftAlone(plan[c], others == [], old(rows), rows)
      ensures others == [] ==> campaign == old(campaign)
      ensures Went(c, if err then AfterOutcome(plan[c], old(mail[c].work), TransientOutcome)
                else old(mail[c].work).(pc := AtSending), Limit(c, ok))
    {
      hide ValidRun, Run, LeftAlone;
      Interfere(c, others);
      Grounded(c);
      ghost var before := Now();
      var w := mail[c].work;
      err := !ok;
      mail := mail[c := Busy(mail[c].attempts, if err then Retry(plan[c], w) else w.(pc := AtSending))];
      Log(before, Limit(c, ok));
    }

    method MarkRecipientSending(c: nat, r: Rid, others: seq<Step>, ok: bool) returns (err: bool)
      requires At(c, AtSending) && mail[c].work.next < |plan[c]| && r == plan[c][mail[c].work.next]
      modifies this
      ensures err == !ok && requests == old(requests) && (others == [] ==> campaign == old(campaign))
      ensures r in plan[c] && r in old(rows)
      ensures LeftAlone(plan[c], others == [], if err then old(rows) else old(rows)[r := Sending], rows)
      ensures Went(c, if err then AfterOutcome(plan[c], old(mail[c].work), TransientOutcome)
                else old(mail[c].work).(pc := AtSes), MarkRowSending(c, ok))
    {
      hide ValidRun, Run, LeftAlone;
      Interfere(c, others);
      Grounded(c);
      ghost var before := Now();
      var w := mail[c].work;
      err := !ok;
      if err {
        mail := mail[c := Busy(mail[c].attempts, Retry(plan[c], w))];
      } else {
        if rows[r].Failed? { ledger := ledger.(recounted := ledger.recounted + 1); }
        LeftAloneRow(plan[c], others == [], others == [], old(rows), rows, r);
        LeftAloneAndWritten(plan[c], others == [], old(rows), rows, r, Sending);
        rows := CampaignTables.MarkSending(rows, r);
        mail := mail[c := Busy(mail[c].attempts, w.(pc := AtSes))];
      }
      Log(before, MarkRowSending(c, ok));
    }

    method SendEmail(c: nat, r: Rid, others: seq<Step>, reply: SesReply)
      requires At(c, AtSes) && mail[c].work.next < |plan[c]| && r == plan[c][mail[c].work.next]
      modifies this
      ensures requests == old(requests) + [r] && r in old(rows) && r in rows && old(rows[r]) == rows[r] == Sending
      ensures LeftAlone(plan[c], others == [], old(rows), rows) && (others == [] ==> campaign == old(campaign))
      ensures Went(c, match reply
                      case Accepted => old(mail[c].work).(pc := AtRecordSent)
                      case PermanentError => old(mail[c].work).(pc := AtRecordFailed)
                      case TransientError => AfterOutcome(plan[c], old(mail[c].work), TransientOutcome), Ses(c, reply))
    {
      hide ValidRun, Run, LeftAlone;
      Interfere(c, others);
      Grounded(c);
      ghost var before := Now();
      var w := mail[c].work;
      LeftAloneRow(plan[c], others == [], others == [], old(rows), rows, r);
      requests := requests + [r];
      match reply {
        case Accepted =>
          ledger := ledger.(accepted := ledger.accepted + 1);
          mail := mail[c := Busy(mail[c].attempts, w.(pc := AtRecordSent))];
        case PermanentError => mail := mail[c := Busy(mail[c].attempts, w.(pc := AtRecordFailed))];
        case TransientError => mail := mail[c := Busy(mail[c].attempts, Retry(plan[c], w))];
      }
      Log(before, Ses(c, reply));
    }

    method MarkRecipientSent(c: nat, r: Rid, others: seq<Step>, ok: bool)
      requires At(c, AtRecordSent) && mail[c].work.next < |plan[c]| && r == plan[c][mail[c].work.next]
      modifies this
      ensures requests == old(requests) && (others == [] ==> campaign == old(campaign))
      ensures LeftAlone(plan[c], others == [], old(rows)[r := if ok then Sent else Sending], rows)
      ensures Went(c, AfterOutcome(plan[c], old(mail[c].work), SentOutcome), Record(c, ok))
    {
      hide ValidRun, Run, LeftAlone;
      Interfere(c, others);
      Grounded(c);
      ghost var before := Now();
      LeftAloneRow(plan[c], others == [], others == [], old(rows), rows, r);
      if ok {
        LeftAloneAndWritten(plan[c], others == [], old(rows), rows, r, Sent);
        rows := CampaignTables.MarkSent(rows, r);
      } else {
        ledger := ledger.(unwrittenSent := ledger.unwrittenSent + 1);
      }
      mail := mail[c := Busy(mail[c].attempts, AfterOutcome(plan[c], mail[c].work, SentOutcome))];
      Log(before, Record(c, ok));
    }

    method MarkRecipientFailed(c: nat, r: Rid, others: seq<Step>, ok: bool)
      requires At(c, AtRecordFailed) && mail[c].work.next < |plan[c]| && r == plan[c][mail[c].work.next]
      modifies this
      ensures requests == old(requests) && (others == [] ==> campaign == old(campaign))
      ensures LeftAlone(plan[c], others == [], old(rows)[r := if ok then Failed else Sending], rows)
      ensures Went(c, AfterOutcome(plan[c], old(mail[c].work), PermanentOutcome), Record(c, ok))
    {
      hide ValidRun, Run, LeftAlone;
      Interfere(c, others);
      Grounded(c);
      ghost var before := Now();
      LeftAloneRow(plan[c], others == [], others == [], old(rows), rows, r);
      if ok {
        LeftAloneAndWritten(plan[c], others == [], old(rows), rows, r, Failed);
        rows := CampaignTables.MarkFailed(rows, r);
      } else {
        ledger := ledger.(unwrittenFailed := ledger.unwrittenFailed + 1);
      }
      mail := mail[c := Busy(mail[c].attempts, AfterOutcome(plan[c], mail[c].work, PermanentOutcome))];
      Log(before, Record(c, ok));
    }

    /** The row write that follows an answer of SES that is not transient. */
    method RecordOutcome(c: nat, r: Rid, reply: SesReply, others: seq<Step>, ok: bool) returns (outcome: Outcome)
      requires !reply.TransientError? && At(c, if reply.Accepted? then AtRecordSent else AtRecordFailed)
      requires mail[c].work.next < |plan[c]| && r == plan[c][mail[c].work.next]
      modifies this
      ensures outcome == OutcomeOf(reply) && requests == old(requests) && (others == [] ==> campaign == old(campaign))
      ensures LeftAlone(plan[c], others == [],
                old(rows)[r := if !ok then Sending else if reply.Accepted? then Sent else Failed], rows)
      ensures Went(c, AfterOutcome(plan[c], old(mail[c].work), outcome), Record(c, ok))
    {
      hide ValidRun, Run, Init, Valid, AfterOutcome, LeftAlone, Shaped, Enabled;
      if reply.PermanentError? {
        MarkRecipientFailed(c, r, others, ok);
        return PermanentOutcome;
      }
      MarkRecipientSent(c, r, others, ok);
      return SentOutcome;
    }

    /** The part of processRecipient from the SES call on. */
    method SendAndRecord(c: nat, r: Rid, env: Environment, clock: nat) returns (outcome: Outcome, clock': nat)
      requires At(c, AtSes) && mail[c].work.next < |plan[c]| && r == plan[c][mail[c].work.next]
      modifies this
      ensures Valid() && old(log) < log && rows.Keys == old(rows.Keys)
      ensures |mail| == old(|mail|)
      ensures mail[c] == Busy(old(mail[c]).attempts, AfterOutcome(plan[c], old(mail[c].work), outcome))
      ensures requests == old(requests) + [r] && (Calm(env) ==> campaign == old(campaign))
      ensures outcome == OutcomeOf(env.reply(r))
      ensures LeftAlone(plan[c], Calm(env), old(rows)[r := RecordedAs(env, r)], rows)
    {
      hide ValidRun, Run, Init, Valid, AfterOutcome, LeftAlone, Shaped, Enabled, Calm, AsLeft, Delivered;
      ghost var w, rows0 := mail[c].work, rows;
      PcIsOverwritten(plan[c], w);
      var reply := env.reply(r);
      SendEmail(c, r, env.others(clock), reply);
      clock' := clock + 2;
      ghost var rows1, quiet := rows, env.others(clock) == [];
      CalmAt(env, clock);
      LeftAloneRow(plan[c], Calm(env), quiet, rows0, rows, r);
      if reply.TransientError? { return TransientOutcome, clock'; }
      outcome := RecordOutcome(c, r, reply, env.others(clock + 1), env.records(r));
      CalmAt(env, clock + 1);
      WrittenTwice(plan[c], Calm(env), quiet, env.others(clock + 1) == [], rows0, rows1, rows, r, Sending,
                   RecordedAs(env, r));
    }

    /** The rate limiter, then the row becomes `sending`. */
    method OpenIfGranted(c: nat, r: Rid, env: Environment, clock: nat) returns (err: bool, clock': nat)
      requires At(c, AtLimit) && mail[c].work.next < |plan[c]| && r == plan[c][mail[c].work.next]
      modifies this
      ensures Valid() && old(log) < log && rows.Keys == old(rows.Keys)
      ensures |mail| == old(|mail|) && requests == old(requests) && (Calm(env) ==> campaign == old(campaign))
      ensures err == (!env.grants(r) || !env.opens(r)) && r in plan[c] && r in old(rows)
      ensures mail[c]
                == Busy(old(mail[c]).attempts, if err then AfterOutcome(plan[c], old(mail[c].work), TransientOutcome)
                                                     else old(mail[c].work).(pc := AtSes))
      ensures LeftAlone(plan[c], Calm(env), if err then old(rows) else old(rows)[r := Sending], rows)
    {
      hide ValidRun, Run, Init, Valid, AfterOutcome, LeftAlone, Shaped, Enabled, Calm, AsLeft, Delivered;
      ghost var w, rows0 := mail[c].work, rows;
      PcIsOverwritten(plan[c], w);
      err := AcquireToken(c, env.others(clock), env.grants(r));
      clock' := clock + 1;
      ghost var rows1, quiet0, quiet1 := rows, env.others(clock) == [], env.others(clock') == [];
      CalmAt(env, clock);
      LeftAloneRow(plan[c], Calm(env), quiet0, rows0, rows, r);
      if err { return; }
      err := MarkRecipientSending(c, r, env.others(clock'), env.opens(r));
      CalmAt(env, clock');
      clock' := clock' + 1;
      if err {
        LeftAloneTwice(plan[c], Calm(env), quiet0, quiet1, rows0, rows1, rows);
      } else {
        LeftAloneThenWritten(plan[c], Calm(env), quiet0, quiet1, rows0, rows1, rows, r, Sending);
      }
    }

    /** The part of processRecipient from the rate limiter on, for a row that is not delivered. */
    method SendIfGranted(c: nat, r: Rid, env: Environment, clock: nat) returns (outcome: Outcome, clock': nat)
      requires At(c, AtLimit) && mail[c].work.next < |plan[c]| && r == plan[c][mail[c].work.next]
      modifies this
      ensures Valid() && old(log) < log && rows.Keys == old(rows.Keys)
      ensures |mail| == old(|mail|)
      ensures mail[c] == Busy(old(mail[c]).attempts, AfterOutcome(plan[c], old(mail[c].work), outcome))
      ensures requests == old(requests) + if env.grants(r) && env.opens(r) then [r] else []
      ensures Calm(env) ==> campaign == old(campaign)
      ensures r in plan[c] && r in old(rows)
      ensures outcome == if !env.grants(r) || !env.opens(r) then TransientOutcome else OutcomeOf(env.reply(r))
      ensures LeftAlone(plan[c], Calm(env), old(rows)[r :=
                          if !env.grants(r) || !env.opens(r) then old(rows[r]) else RecordedAs(env, r)], rows)
    {
      hide ValidRun, Run, Init, Valid, AfterOutcome, LeftAlone, Shaped, Enabled, Calm, AsLeft, Delivered, RecordedAs,
        OutcomeOf;
      ghost var w, rows0 := mail[c].work, rows;
      PcIsOverwritten(plan[c], w);
      var err;
      err, clock' := OpenIfGranted(c, r, env, clock);
      ghost var rows1 := rows;
      if err {
        LeftAloneRow(plan[c], Calm(env), Calm(env), rows0, rows, r);
        return TransientOutcome, clock';
      }
      outcome, clock' := SendAndRecord(c, r, env, clock');
      WrittenTwice(plan[c], Calm(env), Calm(env), Calm(env), rows0, rows1, rows, r, Sending, RecordedAs(env, r));
    }

    /** One recipient: status check, rate limit, `sending`, SES, and the outcome's row write. */
    method ProcessRecipient(c: nat, r: Rid, env: Environment, clock: nat) returns (outcome: Outcome, clock': nat)
      requires At(c, AtCheck) && mail[c].work.next < |plan[c]| && r == plan[c][mail[c].work.next]
      requires !env.cancelled(r)
      modifies this
      ensures Valid() && old(log) < log && rows.Keys == old(rows.Keys)
      ensures |mail| == old(|mail|)
      ensures mail[c] == Busy(old(mail[c]).attempts, AfterOutcome(plan[c], old(mail[c].work), outcome))
      ensures r in plan[c] && r in old(rows) && outcome == Fate(env, r, old(rows[r]))
      ensures requests == old(requests) + if Asked(env, r, old(rows[r])) then [r] else []
      ensures LeftAlone(plan[c], Calm(env), old(rows)[r := StatusAfter(env, r, old(rows[r]))], rows)
      ensures Calm(env) ==> campaign == old(campaign)
    {
      hide ValidRun, Run, Init, Valid, AfterOutcome, LeftAlone, Shaped, Enabled, Calm, AsLeft;
      ghost var w, rows0 := mail[c].work, rows;
      PcIsOverwritten(plan[c], w);
      CalmAt(env, clock);
      clock' := clock + 1;
      var err, status := GetRecipientStatus(c, r, env.others(clock), env.checks(r));
      ghost var rows1, quiet := rows, env.others(clock) == [];
      LeftAloneRow(plan[c], Calm(env), quiet, rows0, rows, r);
      if err { return TransientOutcome, clock'; }
      if Delivered(status) { return DuplicateOutcome, clock'; }

      outcome, clock' := SendIfGranted(c, r, env, clock');
      LeftAloneThenWritten(plan[c], Calm(env), quiet, Calm(env), rows0, rows1, rows, r, StatusAfter(env, r, rows0[r]));
    }

    // --- one method per statement of the rest of Handle ---

    /** The broker delivers the message; the result is its delivery count. */
    method Receive(c: nat) returns (attempt: nat)
      requires Valid() && Enabled(plan, Now(), Deliver(c))
      modifies this
      ensures Valid() && old(log) < log && rows.Keys == old(rows.Keys) && |mail| == old(|mail|)
      ensures attempt == old(mail[c]).attempts + 1 && mail[c] == Busy(attempt, FreshWork())
      ensures rows == old(rows) && campaign == old(campaign) && requests == old(requests)
    {
      hide ValidRun, Run;
      ghost var before := Now();
      attempt := mail[c].attempts + 1;
      mail := mail[c := Busy(attempt, FreshWork())];
      Log(before, Deliver(c));
    }

    /** The context is done: the recipient is left for the next delivery. */
    method SkipRecipient(c: nat, others: seq<Step>)
      requires At(c, AtCheck) && mail[c].work.next < |plan[c]|
      modifies this
      ensures requests == old(requests) && LeftAlone(plan[c], others == [], old(rows), rows)
                && (others == [] ==> campaign == old(campaign))
      ensures Went(c, AfterOutcome(plan[c], old(mail[c].work), TransientOutcome), Cancelled(c))
    {
      hide ValidRun, Run, LeftAlone;
      Interfere(c, others);
      Grounded(c);
      ghost var before := Now();
      mail := mail[c := Busy(mail[c].attempts, Retry(plan[c], mail[c].work))];
      Log(before, Cancelled(c));
    }

    /** IncrementCampaignCounts for the main loop; on an error the caller naks. */
    method IncrementCounts(c: nat, sent: nat, failed: nat, others: seq<Step>, ok: bool)
      returns (err: bool, reached: bool)
      requires At(c, AtTally) && mail[c].work.sent == sent && mail[c].work.failed == failed
      modifies this
      ensures err == !ok && requests == old(requests)
      ensures LeftAlone(plan[c], others == [], old(rows), rows)
      ensures Valid() && old(log) < log && log[|log| - 1] == Tally(c, ok) && rows.Keys == old(rows.Keys)
                && |mail| == old(|mail|)
      ensures mail[c] == if err then Waiting(old(mail[c]).attempts)
                         else Busy(old(mail[c]).attempts, old(mail[c].work).(
                                     sent := 0, failed := 0, pc := if reached then AtComplete else AtSettle))
      ensures others == [] ==> Before().campaign == old(campaign)
      ensures campaign == if err then Before().campaign
                          else Before().campaign.(sent := Before().campaign.sent + sent,
                                                  failed := Before().campaign.failed + failed)
      ensures reached <==> !err && campaign.total > 0 && campaign.sent + campaign.failed >= campaign.total
    {
      hide ValidRun, Run, LeftAlone;
      Interfere(c, others);
      Grounded(c);
      ghost var before := Now();
      var a, w := mail[c].attempts, mail[c].work;
      err := !ok;
      if err {
        reached := false;
        mail := mail[c := Waiting(a)];
        ledger := ledger.(lostSent := ledger.lostSent + w.sent, lostFailed := ledger.lostFailed + w.failed + w.dead);
      } else {
        campaign := Increment(campaign, sent, failed);
        reached := Reached(campaign);
        mail := mail[c := Busy(a, w.(sent := 0, failed := 0, pc := if reached then AtComplete else AtSettle))];
        if campaign.total > 0 { ledger := ledger.(checks := ledger.checks + 1); }
      }
      Log(before, Tally(c, ok));
    }

    /** MarkCampaignComplete: true means that this very statement completed the campaign, and that
        none did before. */
    method MarkComplete(c: nat, others: seq<Step>, ok: bool) returns (done: bool)
      requires At(c, AtComplete)
      modifies this
      ensures Went(c, old(mail[c].work).(pc := AtSettle), TryComplete(c, ok))
      ensures LeftAlone(plan[c], others == [], old(rows), rows) && requests == old(requests)
      ensures others == [] ==> Before().campaign == old(campaign)
      ensures done <==> ok && !Before().campaign.completedAt && Before().campaign.total > 0
                        && Before().campaign.sent + Before().campaign.failed >= Before().campaign.total
      ensures !done ==> campaign == Before().campaign
      ensures done <==> ledger.completions == Before().ledger.completions + 1
      ensures done ==> campaign == Before().campaign.(status := Completed, completedAt := true)
      ensures done ==> Before().ledger.completions == 0
    {
      hide ValidRun, Run, LeftAlone;
      Interfere(c, others);
      ghost var before := Now();
      done := ok && Complete(campaign) != campaign;
      if ok { campaign := Complete(campaign); }
      if done { ledger := ledger.(completions := ledger.completions + 1); }
      mail := mail[c := Busy(mail[c].attempts, mail[c].work.(pc := AtSettle))];
      Log(before, TryComplete(c, ok));
      ChunkCompletion.CompletedOnce(plan, init, log);
    }

    /** Ack, nak, or start of the dead-letter loop. */
    method Finish(c: nat, attempt: nat, others: seq<Step>, ackOk: bool)
      returns (exhausted: bool, disposition: Disposition)
      requires At(c, AtSettle) && mail[c].attempts == attempt
      modifies this
      ensures Valid() && old(log) < log && rows.Keys == old(rows.Keys) && |mail| == old(|mail|)
      ensures log[|log| - 1] == Settle(c, ackOk)
      ensures LeftAlone(plan[c], others == [], old(rows), rows) && requests == old(requests)
      ensures others == [] ==> campaign == old(campaign)
      ensures exhausted == (old(mail[c].work.transient) != [] && attempt >= MAX_ATTEMPTS)
      ensures disposition == if old(mail[c].work.transient) == [] then Ack else Nak
      ensures mail[c] == if exhausted then Busy(attempt, old(mail[c].work).(pc := AtDeadMark, marked := 0, dead := 0))
                         else if disposition.Ack? && ackOk then Acked(attempt) else Waiting(attempt)
    {
      hide ValidRun, Run, LeftAlone;
      Interfere(c, others);
      ghost var before := Now();
      var w := mail[c].work;
      exhausted, disposition := false, Nak;
      if w.transient != [] {
        if attempt >= MAX_ATTEMPTS {
          exhausted := true;
          mail := mail[c := Busy(attempt, w.(pc := AtDeadMark, marked := 0, dead := 0))];
        } else {
          mail := mail[c := Waiting(attempt)];
        }
      } else {
        disposition := Ack;
        mail := mail[c := if ackOk then Acked(attempt) else Waiting(attempt)];
      }
      Log(before, Settle(c, ackOk));
    }

    method MarkDeadRecipient(c: nat, r: Rid, others: seq<Step>, ok: bool) returns (err: bool)
      requires At(c, AtDeadMark) && mail[c].work.marked < |mail[c].work.transient|
      requires r == mail[c].work.transient[mail[c].work.marked]
      modifies this
      ensures err == !ok && requests == old(requests) && (others == [] ==> campaign == old(campaign))
      ensures r in plan[c] && r in old(rows)
      ensures LeftAlone(plan[c], others == [],
                if err || Delivered(old(rows[r])) then old(rows) else old(rows)[r := Failed], rows)
      ensures Went(c, AfterDeadMark(old(mail[c].work), ok), DeadMark(c, ok))
    {
      hide ValidRun, Run, LeftAlone;
      Interfere(c, others);
      Grounded(c);
      ghost var before := Now();
      var w := mail[c].work;
      err := !ok;
      LeftAloneRow(plan[c], others == [], others == [], old(rows), rows, r);
      LeftAloneAndWritten(plan[c], others == [], old(rows), rows, r, Failed);
      if !err {
        if Terminal(rows[r]) { ledger := ledger.(recounted := ledger.recounted + 1); }
        rows := CampaignTables.MarkFailed(rows, r);
      }
      mail := mail[c := Busy(mail[c].attempts, AfterDeadMark(w, ok))];
      Log(before, DeadMark(c, ok));
    }

    method IncrementDead(c: nat, finalFailed: nat, others: seq<Step>, ok: bool)
      requires At(c, AtDeadTally) && mail[c].work.dead == finalFailed
      modifies this
      ensures Went(c, old(mail[c].work).(dead := 0, pc := AtDeadComplete), DeadTally(c, ok))
      ensures LeftAlone(plan[c], others == [], old(rows), rows) && requests == old(requests)
      ensures others == [] ==> Before().campaign == old(campaign)
      ensures campaign == if ok then Before().campaign.(failed := Before().campaign.failed + finalFailed)
                          else Before().campaign
    {
      hide ValidRun, Run, LeftAlone;
      Interfere(c, others);
      ghost var before := Now();
      var w := mail[c].work;
      if ok {
        campaign := Increment(campaign, 0, finalFailed);
      } else {
        ledger := ledger.(lostFailed := ledger.lostFailed + finalFailed);
      }
      mail := mail[c := Busy(mail[c].attempts, w.(dead := 0, pc := AtDeadComplete))];
      Log(before, DeadTally(c, ok));
    }

    method MarkDeadComplete(c: nat, others: seq<Step>, ok: bool)
      requires At(c, AtDeadComplete)
      modifies this
      ensures Went(c, old(mail[c].work).(pc := AtDeadSettle), DeadComplete(c, ok))
      ensures LeftAlone(plan[c], others == [], old(rows), rows) && requests == old(requests)
      ensures others == [] ==> Before().campaign == old(campaign)
      ensures campaign == CompletedIf(Before().campaign, ok)
    {
      hide ValidRun, Run, LeftAlone;
      Interfere(c, others);
      ghost var before := Now();
      if ok {
        if campaign.total > 0 { ledger := ledger.(checks := ledger.checks + 1); }
        if Complete(campaign) != campaign { ledger := ledger.(completions := ledger.completions + 1); }
        campaign := Complete(campaign);
      }
      mail := mail[c := Busy(mail[c].attempts, mail[c].work.(pc := AtDeadSettle))];
      Log(before, DeadComplete(c, ok));
    }

    method Terminate(c: nat, others: seq<Step>)
      requires At(c, AtDeadSettle)
      modifies this
      ensures Valid() && old(log) < log && rows.Keys == old(rows.Keys) && |mail| == old(|mail|)
      ensures mail[c] == DeadLettered(old(mail[c]).attempts)
      ensures LeftAlone(plan[c], others == [], old(rows), rows) && requests == old(requests)
      ensures others == [] ==> campaign == old(campaign)
    {
      hide ValidRun, Run, LeftAlone;
      Interfere(c, others);
      ghost var before := Now();
      mail := mail[c := DeadLettered(mail[c].attempts)];
      Log(before, DeadSettle(c));
    }

    /** The final delivery's loop over the transient recipients. */
    method FailTransients(c: nat, transient: seq<Rid>, env: Environment, clock: nat)
      returns (finalFailed: nat, clock': nat)
      requires At(c, AtDeadMark) && transient != [] && forall r :: r in transient ==> r in plan[c]
      requires mail[c].work == Work(AtDeadMark, |plan[c]|, 0, 0, transient, 0, 0)
      modifies this
      ensures Valid() && old(log) <= log && rows.Keys == old(rows.Keys) && |mail| == old(|mail|)
      ensures mail[c] == Busy(old(mail[c]).attempts,
                Work(DeadPc(|transient|, |transient|, finalFailed), |plan[c]|, 0, 0, transient, |transient|,
                     finalFailed))
      ensures finalFailed == DeadOf(transient, env) && requests == old(requests)
      ensures LeftAlone(plan[c], Calm(env), DeadRows(transient, old(rows), env), rows)
      ensures Calm(env) ==> campaign == old(campaign)
    {
      hide ValidRun, Run, Init, Valid, LeftAlone, DeadRows, Calm, Shaped, Delivered, Enabled, Inv;
      finalFailed, clock' := 0, clock;
      Sound();
      OthersIdle(plan, Now(), c, true);
      DeadRowsNone(plan[c], rows, env, Calm(env));
      assert transient[..0] == [];
      for j := 0 to |transient|
        invariant Valid() && old(log) <= log && rows.Keys == old(rows.Keys) && |mail| == old(|mail|)
        invariant mail[c] == Busy(old(mail[c]).attempts,
                    Work(DeadPc(j, |transient|, finalFailed), |plan[c]|, 0, 0, transient, j, finalFailed))
        invariant finalFailed == DeadOf(transient[..j], env) && requests == old(requests)
        invariant LeftAlone(plan[c], Calm(env), DeadRows(transient[..j], old(rows), env), rows)
        invariant Calm(env) ==> campaign == old(campaign)
      {
        ghost var rows0, quiet := rows, env.others(clock') == [];
        CalmAt(env, clock');
        var err := MarkDeadRecipient(c, transient[j], env.others(clock'), env.deadMarks(transient[j]));
        clock' := clock' + 1;
        if !err { finalFailed := finalFailed + 1; }
        DeadRowsNext(plan[c], transient, j, old(rows), env, Calm(env), quiet, rows0, rows);
      }
      assert transient[..|transient|] == transient;
    }

    /** Adds the final failures to the campaign row and tries completion, whatever the row says. */
    method CountDead(c: nat, finalFailed: nat, env: Environment, clock: nat) returns (clock': nat)
      requires At(c, AtDeadTally) && mail[c].work.dead == finalFailed
      modifies this
      ensures Valid() && old(log) <= log && rows.Keys == old(rows.Keys) && |mail| == old(|mail|)
      ensures mail[c] == Busy(old(mail[c]).attempts, old(mail[c].work).(dead := 0, pc := AtDeadSettle))
      ensures LeftAlone(plan[c], Calm(env), old(rows), rows) && requests == old(requests)
      ensures Calm(env) ==> campaign == DeadCounted(old(campaign), finalFailed, env)
    {
      hide ValidRun, Run, Init, Valid, LeftAlone;
      ghost var rows0 := rows;
      IncrementDead(c, finalFailed, env.others(clock), env.deadCounts);
      clock' := clock + 1;
      ghost var rows1 := rows;
      MarkDeadComplete(c, env.others(clock'), env.deadCompletes);
      LeftAloneTwice(plan[c], Calm(env), env.others(clock) == [], env.others(clock') == [], rows0, rows1, rows);
      clock' := clock' + 1;
    }

    /** What a final delivery does with the recipients it could not serve. */
    method DeadLetter(c: nat, transient: seq<Rid>, env: Environment, clock: nat)
      requires At(c, AtDeadMark) && transient != [] && forall r :: r in transient ==> r in plan[c]
      requires mail[c].work == Work(AtDeadMark, |plan[c]|, 0, 0, transient, 0, 0)
      modifies this
      ensures Valid() && old(log) <= log && rows.Keys == old(rows.Keys) && |mail| == old(|mail|)
      ensures mail[c] == DeadLettered(old(mail[c]).attempts) && requests == old(requests)
      ensures LeftAlone(plan[c], Calm(env), DeadRows(transient, old(rows), env), rows)
      ensures Calm(env) ==>
                campaign == if DeadOf(transient, env) > 0 then DeadCounted(old(campaign), DeadOf(transient, env), env)
                            else old(campaign)
    {
      hide ValidRun, Run, Init, Valid, LeftAlone, DeadRows;
      ghost var dead := DeadRows(transient, rows, env);
      var finalFailed, tick := FailTransients(c, transient, env, clock);
      ghost var rows1 := rows;
      if finalFailed > 0 {
        tick := CountDead(c, finalFailed, env, tick);
        LeftAloneTwice(plan[c], Calm(env), Calm(env), Calm(env), dead, rows1, rows);
      }
      ghost var rows2 := rows;
      Terminate(c, env.others(tick));
      LeftAloneTwice(plan[c], Calm(env), Calm(env), env.others(tick) == [], dead, rows2, rows);
    }

    /** The recipient loop of Handle. */
    method ProcessAll(c: nat, attempt: nat, env: Environment)
      returns (sent: nat, permanentFailed: nat, transient: seq<Rid>, clock: nat)
      requires Valid() && c < |plan| == |mail| && plan[c] != [] && mail[c] == Busy(attempt, FreshWork())
      modifies this
      ensures Valid() && old(log) <= log && rows.Keys == old(rows.Keys) && |mail| == old(|mail|)
      ensures mail[c] == Busy(attempt, Work(LoopPc(|plan[c]|, |plan[c]|, sent, permanentFailed), |plan[c]|,
                                            sent, permanentFailed, transient, 0, 0))
      ensures forall r :: r in plan[c] ==> r in old(rows)
      ensures sent == |Those(plan[c], old(rows), env, SentOutcome)|
      ensures permanentFailed == |Those(plan[c], old(rows), env, PermanentOutcome)|
      ensures transient == Those(plan[c], old(rows), env, TransientOutcome)
      ensures requests == old(requests) + AskedFor(plan[c], old(rows), env)
      ensures LeftAlone(plan[c], Calm(env), Treated(plan[c], old(rows), env), rows)
      ensures Calm(env) ==> campaign == old(campaign)
    {
      hide ValidRun, Run, Init, Valid, LeftAlone, Fate, StatusAfter, Asked, Calm, AfterOutcome, SoFar, Those, AskedFor,
          Treated, Shaped, Delivered, Enabled;
      sent, permanentFailed, transient, clock := 0, 0, [], 0;
      Grounded(c);
      ghost var asked: seq<Rid> := [];
      SoFarNone(plan[c], rows, env, Calm(env), mail[c].work);
      for i := 0 to |plan[c]|
        invariant Valid() && old(log) <= log && rows.Keys == old(rows.Keys) && |mail| == old(|mail|)
        invariant mail[c] == Busy(attempt, Work(LoopPc(i, |plan[c]|, sent, permanentFailed), i,
                                                sent, permanentFailed, transient, 0, 0))
        invariant requests == old(requests) + asked && (Calm(env) ==> campaign == old(campaign))
        invariant SoFar(plan[c], plan[c][..i], old(rows), env, Calm(env), mail[c].work, asked, rows)
      {
        var r := plan[c][i];
        ghost var w0, rows0, asked0 := mail[c].work, rows, asked;
        LoopStep(plan[c], i, sent, permanentFailed, transient, Fate(env, r, rows[r]));
        if env.cancelled(r) {
          SkipRecipient(c, env.others(clock));
          CalmAt(env, clock);
          SkipTreats(plan[c], env, r, env.others(clock) == [], Calm(env), rows0, rows);
          clock := clock + 1;
          transient := transient + [r];
        } else {
          var outcome;
          outcome, clock := ProcessRecipient(c, r, env, clock);
          asked := asked + if Asked(env, r, rows0[r]) then [r] else [];
          match outcome {
            case SentOutcome => sent := sent + 1;
            case DuplicateOutcome =>
            case PermanentOutcome => permanentFailed := permanentFailed + 1;
            case TransientOutcome => transient := transient + [r];
          }
        }
        SoFarNext(plan[c], i, old(rows), env, Calm(env), w0, mail[c].work, asked0, asked, rows0, rows);
      }
      SoFarAll(plan[c], old(rows), env, Calm(env), mail[c].work, asked, rows);
    }

    /** Adds the fresh outcomes to the campaign row and tries completion; the result says
        whether the message was naked because the increment failed. */
    method ApplyProgress(c: nat, sent: nat, permanentFailed: nat, env: Environment, clock: nat)
      returns (naked: bool, clock': nat)
      requires At(c, AtTally) && mail[c].work.sent == sent && mail[c].work.failed == permanentFailed
      modifies this
      ensures Valid() && old(log) <= log && rows.Keys == old(rows.Keys) && |mail| == old(|mail|)
      ensures naked == !env.counts && requests == old(requests)
      ensures mail[c] == if naked then Waiting(old(mail[c]).attempts)
                         else Busy(old(mail[c]).attempts, old(mail[c].work).(sent := 0, failed := 0, pc := AtSettle))
      ensures LeftAlone(plan[c], Calm(env), old(rows), rows)
      ensures Calm(env) ==> campaign == Progressed(old(campaign), sent, permanentFailed, env)
    {
      hide ValidRun, Run, Init, Valid, LeftAlone;
      ghost var rows0 := rows;
      var err, reached := IncrementCounts(c, sent, permanentFailed, env.others(clock), env.counts);
      ghost var rows1, quiet := rows, env.others(clock) == [];
      LeftAloneWeaker(plan[c], Calm(env), quiet, rows0, rows);
      clock' := clock + 1;
      if err { return true, clock'; }
      if reached {
        var _ := MarkComplete(c, env.others(clock'), env.completes);
        LeftAloneTwice(plan[c], Calm(env), quiet, env.others(clock') == [], rows0, rows1, rows);
        clock' := clock' + 1;
      }
      naked := false;
    }

    /** The end of Handle: ack, nak, or the dead-letter path of the last delivery. */
    method Conclude(c: nat, attempt: nat, transient: seq<Rid>, env: Environment, clock: nat)
      returns (disposition: Disposition)
      requires At(c, AtSettle) && attempt <= MAX_ATTEMPTS && forall r :: r in transient ==> r in plan[c]
      requires mail[c] == Busy(attempt, Work(AtSettle, |plan[c]|, 0, 0, transient, 0, 0))
      modifies this
      ensures Valid() && old(log) < log && rows.Keys == old(rows.Keys) && |mail| == old(|mail|)
      ensures requests == old(requests)
      ensures disposition == if transient == [] then Ack else if attempt == MAX_ATTEMPTS then Term else Nak
      ensures mail[c] == match disposition
                         case Ack => if env.settles then Acked(attempt) else Waiting(attempt)
                         case Nak => Waiting(attempt)
                         case Term => DeadLettered(attempt)
      ensures LeftAlone(plan[c], Calm(env),
                if disposition.Term? then DeadRows(transient, old(rows), env) else old(rows), rows)
      ensures Calm(env) ==>
                campaign == if disposition.Term? && DeadOf(transient, env) > 0
                            then DeadCounted(old(campaign), DeadOf(transient, env), env) else old(campaign)
    {
      hide ValidRun, Run, Init, Valid, LeftAlone, DeadRows, DeadOf, Calm, Shaped, Delivered, DeadCounted;
      ghost var rows0, quiet := rows, env.others(clock) == [];
      var exhausted;
      exhausted, disposition := Finish(c, attempt, env.others(clock), env.settles);
      CalmAt(env, clock);
      LeftAloneWeaker(plan[c], Calm(env), quiet, rows0, rows);
      if exhausted {
        ghost var rows1 := rows;
        DeadLetter(c, transient, env, clock + 1);
        DeadRowsLater(plan[c], transient, env, Calm(env), rows0, rows1, rows);
        disposition := Term;
      }
    }

    /** Handle for one delivery of chunk `c`. The state it leaves is the end of a run that
        extends the one before, so every law about runs holds at its end and at every statement
        in between; the message is settled, and settled as the return value says. What it does to
        its recipients and which it mails depends on nobody else, whatever fails. */
    method Handle(c: nat, env: Environment) returns (disposition: Disposition)
      requires Valid() && Enabled(plan, Now(), Deliver(c))
      modifies this
      ensures Valid() && old(log) < log && rows.Keys == old(rows.Keys) && |mail| == old(|mail|)
      ensures match disposition
              case Ack => mail[c] == if env.settles then Acked(old(mail[c]).attempts + 1)
                                     else Waiting(old(mail[c]).attempts + 1)
              case Nak => mail[c] == Waiting(old(mail[c]).attempts + 1)
              case Term => mail[c] == DeadLettered(6) && old(mail[c]).attempts + 1 == 6
      ensures SentConserved(Now()) && FailedConserved(Now()) && MailConserved(Now())
      ensures forall r :: r in plan[c] ==> r in old(rows) && r in rows
      ensures requests == old(requests) + AskedFor(plan[c], old(rows), env)
      ensures disposition == DispositionOf(plan[c], old(rows), env, old(mail[c]).attempts + 1)
      ensures forall r :: r in plan[c] ==>
                AsLeft(Calm(env), StatusAtEnd(env, r, old(rows[r]), disposition.Term?), rows[r])
      ensures Calm(env) ==> forall r :: r in old(rows) && r !in plan[c] ==> r in rows && rows[r] == old(rows[r])
      ensures Calm(env) ==>
                campaign == CampaignAtEnd(old(campaign), plan[c], old(rows), env, disposition.Term?)
    {
      hide ValidRun, Run, Init, Valid, LeftAlone, Treated, Fate, StatusAfter, StatusAtEnd, Asked, DeadRows, Those,
        AskedFor, Calm, Shaped, Delivered, DeadOf, Progressed, DeadCounted, CompletedIf;
      Grounded(c);
      ghost var rows0, calm := rows, Calm(env);
      var attempt := Receive(c);
      var sent, permanentFailed, transient, clock := ProcessAll(c, attempt, env);
      ghost var treated, rows1 := Treated(plan[c], rows0, env), rows;
      var naked := false;
      if sent > 0 || permanentFailed > 0 {
        naked, clock := ApplyProgress(c, sent, permanentFailed, env, clock);
        LeftAloneTwice(plan[c], calm, calm, calm, treated, rows1, rows);
      }
      ghost var rows2 := rows;
      if naked {
        disposition := Nak;
      } else {
        disposition := Conclude(c, attempt, transient, env, clock);
      }
      RowsEnd(plan[c], rows0, env, calm, rows2, rows, disposition.Term?);
      Sound();
    }
  }

  lemma OthersKeepMail(plan: Plan, s: State, step: Step, c: nat)
    requires Enabled(plan, s, step) && ByOthers(step, c) && c < |s.mail|
    ensures |Next(plan, s, step).mail| == |s.mail| && Next(plan, s, step).mail[c] == s.mail[c]
    ensures Next(plan, s, step).rows.Keys == s.rows.Keys
  {
  }

  lemma OthersIdle(plan: Plan, s: State, c: nat, calm: bool)
    requires Inv(plan, s) && c < |plan|
    ensures LeftAlone(plan[c], calm, s.rows, s.rows) && |s.mail| == |plan|
  {
  }

  /** A statement writes no row outside its own chunk. */
  lemma WritesOwnChunk(plan: Plan, s: State, step: Step, d: nat, r: Rid)
    requires Inv(plan, s) && Enabled(plan, s, step) && !step.SetTotal? && !step.Bounce? && step.c == d < |plan|
    requires r in s.rows && r !in plan[d]
    ensures r in Next(plan, s, step).rows && Next(plan, s, step).rows[r] == s.rows[r]
  {
    hide SentConserved, FailedConserved, MailConserved;
    assert HandlerSound(plan[d], s.rows, s.mail[d]);
  }

  /** The recipients of a chunk belong to it alone: others can only bounce them. */
  lemma OthersKeepRows(plan: Plan, s: State, step: Step, c: nat)
    requires Inv(plan, s) && Enabled(plan, s, step) && ByOthers(step, c) && c < |plan|
    ensures LeftAlone(plan[c], false, s.rows, Next(plan, s, step).rows)
  {
    hide SentConserved, FailedConserved, MailConserved, HandlerSound;
    if !step.SetTotal? && !step.Bounce? {
      var d := step.c;
      assert d < |plan|;
      forall r | r in plan[c]
        ensures r in s.rows && r in Next(plan, s, step).rows && Next(plan, s, step).rows[r] == s.rows[r]
      {
        var i :| 0 <= i < |plan[c]| && plan[c][i] == r;
        assert r in s.rows.Keys;
        assert forall j :: 0 <= j < |plan[d]| ==> plan[d][j] != plan[c][i];
        WritesOwnChunk(plan, s, step, d, r);
      }
    }
  }
}
