/** The campaigns row under every UPDATE the workers run on it, in any order. */
module CampaignLifecycle {
  import opened CampaignTables

  datatype Update =
    | DoFire
    | DoStart(total: nat)
    | DoIncrement(sent: nat, failed: nat)
    | DoComplete
    | DoCompleteEmpty
    | DoAbort

  function Apply(c: Campaign, u: Update): Campaign {
    match u
    case DoFire => Fire(c)
    case DoStart(n) => Started(c, n)
    case DoIncrement(sent, failed) => Increment(c, sent, failed)
    case DoComplete => Complete(c)
    case DoCompleteEmpty => CompleteEmpty(c)
    case DoAbort => Abort(c)
  }

  function ApplyAll(c: Campaign, us: seq<Update>): Campaign
    decreases |us|
  {
    if us == [] then c else ApplyAll(Apply(c, us[0]), us[1..])
  }

  /** The status graph: which updates change the status, from where, to where and when, and that the
      other columns change only where they should. */
  lemma StatusGraph(c: Campaign, u: Update)
    ensures var c' := Apply(c, u);
            var ended := c.status == Completed || c.status == Aborted;
            var full := c.total > 0 && c.sent + c.failed >= c.total && !c.completedAt;
            && c'.status == (match u
                             case DoFire => if c.status == Scheduled then InProgress else c.status
                             case DoStart(_) => if c.status == QueuedForSend then InProgress else c.status
                             case DoIncrement(_, _) => c.status
                             case DoComplete => if full then Completed else c.status
                             case DoCompleteEmpty => if ended then c.status else Completed
                             case DoAbort => if ended then c.status else Aborted)
            && (c'.completedAt <==> c.completedAt || (u.DoComplete? && full)
                                    || ((u.DoCompleteEmpty? || u.DoAbort?) && !ended))
            && c'.total == (if u.DoStart? && (c.status == QueuedForSend || c.status == InProgress) then u.total
                            else if u.DoCompleteEmpty? && !ended then 0 else c.total)
            && c'.sent == c.sent + (if u.DoIncrement? then u.sent else 0)
            && c'.failed == c.failed + (if u.DoIncrement? then u.failed else 0)
  {
  }

  /** What the increments among the updates add. */
  function Added(us: seq<Update>): (nat, nat) {
    if us == [] then (0, 0)
    else
      var rest := Added(us[1..]);
      if us[0].DoIncrement? then (us[0].sent + rest.0, us[0].failed + rest.1) else rest
  }

  /** No update loses or repeats a count: in any order, the counters are the sums of the increments. */
  lemma {:induction false} CountersAddUp(c: Campaign, us: seq<Update>)
    ensures ApplyAll(c, us).sent == c.sent + Added(us).0
    ensures ApplyAll(c, us).failed == c.failed + Added(us).1
    decreases |us|
  {
    if us != [] {
      StatusGraph(c, us[0]);
      CountersAddUp(Apply(c, us[0]), us[1..]);
    }
  }

  /** The same for the recipient rows: which status each guarded update leaves, by the status it finds,
      and that it touches no other row. */
  lemma RecipientGraph(rows: Rows, r: Rid)
    requires r in rows
    ensures MarkSending(rows, r) == rows[r := if rows[r] == Sent || rows[r] == Bounced then rows[r] else Sending]
    ensures MarkSent(rows, r) == rows[r := if rows[r] == Bounced then Bounced else Sent]
    ensures MarkFailed(rows, r) == rows[r := if rows[r] == Sent || rows[r] == Bounced then rows[r] else Failed]
  {
    assert rows[r := rows[r]] == rows;
  }

  /** A row before any worker touched it. */
  predicate New(c: Campaign) {
    (c.status.Scheduled? || c.status.QueuedForSend?) && !c.completedAt
  }

  predicate Sound(c: Campaign) {
    && (TerminalCampaign(c) ==> c.completedAt)
    && (c.status.Completed? ==> c.total == 0 || c.sent + c.failed >= c.total)
  }

  lemma {:induction false} SoundAlways(c: Campaign, us: seq<Update>)
    requires Sound(c)
    ensures Sound(ApplyAll(c, us))
    decreases |us|
  {
    if us != [] { SoundAlways(Apply(c, us[0]), us[1..]); }
  }

  lemma {:induction false} TerminalForEver(c: Campaign, us: seq<Update>)
    requires Sound(c) && TerminalCampaign(c)
    ensures ApplyAll(c, us).status == c.status && ApplyAll(c, us).total == c.total && ApplyAll(c, us).completedAt
    decreases |us|
  {
    if us != [] { TerminalForEver(Apply(c, us[0]), us[1..]); }
  }

  lemma {:induction false} ApplyAllSplits(c: Campaign, us: seq<Update>, vs: seq<Update>)
    ensures ApplyAll(c, us + vs) == ApplyAll(ApplyAll(c, us), vs)
    decreases |us|
  {
    if us == [] {
      assert us + vs == vs;
    } else {
      assert (us + vs)[1..] == us[1..] + vs;
      ApplyAllSplits(Apply(c, us[0]), us[1..], vs);
    }
  }

  /** From a new row, whatever statements run and in whatever order: a terminal status comes
      with completed_at, a completed campaign has counted at least its total, and a status once
      terminal never changes again. MarkCampaignComplete looks only at completed_at, so this
      rests on every statement that ends a campaign setting that column. */
  lemma Lifecycle(c: Campaign, us: seq<Update>, more: seq<Update>)
    requires New(c)
    ensures var now := ApplyAll(c, us);
            && (TerminalCampaign(now) ==> now.completedAt)
            && (now.status.Completed? ==> now.total == 0 || now.sent + now.failed >= now.total)
            && (TerminalCampaign(now) ==> ApplyAll(c, us + more).status == now.status)
  {
    SoundAlways(c, us);
    ApplyAllSplits(c, us, more);
    if TerminalCampaign(ApplyAll(c, us)) { TerminalForEver(ApplyAll(c, us), more); }
  }
}
