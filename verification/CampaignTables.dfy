/** The campaigns and campaign_recipients tables and the guarded UPDATE statements the
    campaign workers run on them. Each function is the effect of one SQL statement. */
module CampaignTables {

  type Rid = nat

  datatype RecipientStatus = Queued | Sending | Sent | Failed | Bounced

  predicate Delivered(s: RecipientStatus) { s.Sent? || s.Bounced? }

  predicate Terminal(s: RecipientStatus) { Delivered(s) || s.Failed? }

  type Rows = map<Rid, RecipientStatus>

  function MarkSending(rows: Rows, r: Rid): Rows {
    if r in rows && (rows[r].Queued? || rows[r].Failed? || rows[r].Sending?) then rows[r := Sending] else rows
  }

  function MarkSent(rows: Rows, r: Rid): Rows {
    if r in rows && !rows[r].Bounced? then rows[r := Sent] else rows
  }

  function MarkFailed(rows: Rows, r: Rid): Rows {
    if r in rows && !Delivered(rows[r]) then rows[r := Failed] else rows
  }

  datatype CampaignStatus = Scheduled | QueuedForSend | InProgress | Completed | Aborted

  /** One campaigns row; `completedAt` says whether completed_at is set. */
  datatype Campaign = Campaign(
    status: CampaignStatus,
    total: nat,
    sent: nat,
    failed: nat,
    completedAt: bool)

  predicate TerminalCampaign(c: Campaign) { c.status.Completed? || c.status.Aborted? }

  /** UpdateCampaignStarted */
  function Started(c: Campaign, total: nat): Campaign {
    if c.status.QueuedForSend? || c.status.InProgress? then c.(status := InProgress, total := total) else c
  }

  /** IncrementCampaignCounts */
  function Increment(c: Campaign, sent: nat, failed: nat): Campaign {
    c.(sent := c.sent + sent, failed := c.failed + failed)
  }

  /** The test of the increment's RETURNING values that decides whether to try completion. */
  predicate Reached(c: Campaign) { c.sent + c.failed >= c.total && c.total > 0 }

  /** MarkCampaignComplete. The guard looks at completed_at, not at the status. */
  function Complete(c: Campaign): Campaign {
    if !c.completedAt && Reached(c) then c.(status := Completed, completedAt := true) else c
  }

  /** MarkCampaignCompleteEmpty */
  function CompleteEmpty(c: Campaign): Campaign {
    if TerminalCampaign(c) then c else c.(status := Completed, completedAt := true, total := 0)
  }

  /** UpdateCampaignFailed */
  function Abort(c: Campaign): Campaign {
    if TerminalCampaign(c) then c else c.(status := Aborted, completedAt := true)
  }

  /** GetDueCampaigns, for one row that it picks up */
  function Fire(c: Campaign): Campaign {
    if c.status.Scheduled? then c.(status := InProgress) else c
  }
}
