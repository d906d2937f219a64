/** The campaign start handler, and the hand-over from the batcher to the chunk handlers. */
module CampaignStart {
  import opened Wrappers
  import opened KeysetScan
  import opened CampaignTables
  import opened Messages
  import opened Batcher
  import M = ChunkMachine

  /** Database replies of one Handle call around StreamAndChunk. */
  datatype Replies = Replies(statusOk: bool, updateOk: bool)

  /** CampaignStartHandler.Handle. A terminal campaign is left alone; otherwise the message is
      acked only after the chunks went out and the recipient count was stored. */
  method Handle(store: CampaignStore, segment: nat -> set<Id>, limit: nat, faults: Faults, replies: Replies)
    returns (disposition: Disposition)
    requires store.Valid() && limit > 0
    modifies store
    ensures store.Valid() && RowsGrow(old(store.rows), store.rows) && Grows(old(store.index), store.index)
    ensures TerminalCampaign(old(store.campaign)) && replies.statusOk ==>
              && disposition.Ack? && store.campaign == old(store.campaign)
              && store.index == old(store.index) && store.published == old(store.published)
    ensures disposition.Nak? ==> store.campaign == old(store.campaign)
    ensures !disposition.Term? && (!replies.statusOk ==> disposition.Nak?)
    ensures replies.statusOk && replies.updateOk && NoFaults(faults) ==> disposition.Ack?
    ensures disposition.Ack? ==> TerminalCampaign(old(store.campaign)) || replies.updateOk
    ensures disposition.Ack? && !TerminalCampaign(old(store.campaign)) ==>
              var pages := AllPages(segment, limit);
              var total := |Flatten<Id>(pages)|;
              && Dispatched(old(store.published), store.published, store.index, pages, |pages|)
              && store.index.Keys == old(store.index).Keys + Elements(Flatten<Id>(pages))
              && store.campaign ==
                   if total == 0 then old(store.campaign).(status := Completed, completedAt := true, total := 0)
                   else if old(store.campaign).status.QueuedForSend? || old(store.campaign).status.InProgress? then
                     old(store.campaign).(status := InProgress, total := total)
                   else old(store.campaign)
  {
    hide Linked, Named, RowsGrow, Grows, Dispatched, Pages, Flatten, Elements;
    GrowsItself(store.index, store.rows);
    if !replies.statusOk { return Nak; }
    if TerminalCampaign(store.campaign) { return Ack; }
    ghost var pages := AllPages(segment, limit);
    var result, done := store.StreamAndChunk(segment, limit, faults);
    if result.Err? { return Nak; }
    assert pages[..done] == pages;
    if !replies.updateOk { return Nak; }
    var (total, _) := result.value;
    if total == 0 {
      store.campaign := CompleteEmpty(store.campaign);
    } else {
      store.campaign := Started(store.campaign, total);
    }
    return Ack;
  }

  /** The chunk messages in chunk order. */
  function PlanOf(published: map<nat, seq<Rid>>, chunks: nat): M.Plan
    requires forall k: nat :: k < chunks ==> k in published
  {
    seq(chunks, k requires 0 <= k < chunks => published[k])
  }

  /** Where element `i` of page `k` lies in the concatenation. */
  ghost function Offset(pages: seq<seq<Id>>, k: nat): nat
    requires k <= |pages|
  {
    |Flatten<Id>(pages[..k])|
  }

  lemma OffsetOfElement(pages: seq<seq<Id>>, k: nat, i: nat)
    requires k < |pages| && i < |pages[k]|
    ensures Offset(pages, k) + i < |Flatten<Id>(pages)|
    ensures Flatten<Id>(pages)[Offset(pages, k) + i] == pages[k][i]
  {
    FlattenPrefix(pages, k);
    assert pages == pages[..k + 1] + pages[k + 1..];
    FlattenAppend<Id>(pages[..k + 1], pages[k + 1..]);
  }

  lemma OffsetsGrow(pages: seq<seq<Id>>, c: nat, d: nat)
    requires c < d <= |pages|
    ensures Offset(pages, c) + |pages[c]| <= Offset(pages, d)
  {
    FlattenPrefix(pages, c);
    assert pages[..d] == pages[..c + 1] + pages[c + 1..d];
    FlattenAppend<Id>(pages[..c + 1], pages[c + 1..d]);
  }

  /** Pages whose concatenation increases hold no id at two places. */
  lemma PagesDistinct(pages: seq<seq<Id>>, c: nat, i: nat, d: nat, j: nat)
    requires Increasing(Flatten<Id>(pages))
    requires c < |pages| && i < |pages[c]| && d < |pages| && j < |pages[d]| && pages[c][i] == pages[d][j]
    ensures c == d && i == j
  {
    OffsetOfElement(pages, c, i);
    OffsetOfElement(pages, d, j);
    if c < d { OffsetsGrow(pages, c, d); }
    if d < c { OffsetsGrow(pages, d, c); }
  }

  lemma {:induction false} PageOf(pages: seq<seq<Id>>, x: Id) returns (k: nat, i: nat)
    requires x in Flatten<Id>(pages)
    ensures k < |pages| && i < |pages[k]| && pages[k][i] == x
  {
    if x in pages[0] {
      k := 0;
      i :| 0 <= i < |pages[0]| && pages[0][i] == x;
    } else {
      k, i := PageOf(pages[1..], x);
      k := k + 1;
    }
  }

  /** A one-to-one correspondence preserves the number of elements. */
  lemma {:induction false} SameSize(index: map<Id, Rid>, rows: set<Rid>)
    requires forall c :: c in index ==> index[c] in rows
    requires forall c, d :: c in index && d in index && index[c] == index[d] ==> c == d
    requires forall r :: r in rows ==> exists c :: c in index && index[c] == r
    ensures |index.Keys| == |rows|
    decreases |index|
  {
    if index.Keys == {} {
      assert rows == {};
    } else {
      var c :| c in index;
      var index' := index - {c};
      var rows' := rows - {index[c]};
      forall r | r in rows' ensures exists d :: d in index' && index'[d] == r {
        var d :| d in index && index[d] == r;
        assert d in index' && index'[d] == r;
      }
      SameSize(index', rows');
      assert index'.Keys == index.Keys - {c};
    }
  }

  /** Message `k` carries the row of each contact of page `k`. */
  ghost predicate Carries(pages: seq<seq<Id>>, index: map<Id, Rid>, published: map<nat, seq<Rid>>) {
    && (forall k: nat :: k < |pages| ==> k in published && |published[k]| == |pages[k]|)
    && (forall k: nat, i: nat :: k < |pages| && i < |pages[k]| ==>
         pages[k][i] in index && published[k][i] == index[pages[k][i]])
  }

  lemma PlanDistinct(pages: seq<seq<Id>>, index: map<Id, Rid>, rows: Rows, nextRid: Rid, published: map<nat, seq<Rid>>,
                     c: nat, i: nat, d: nat, j: nat)
    requires Carries(pages, index, published) && Linked(index, rows, nextRid) && Increasing(Flatten<Id>(pages))
    requires c < |pages| && d < |pages| && i < |published[c]| && j < |published[d]|
               && published[c][i] == published[d][j]
    ensures c == d && i == j
  {
    assert index[pages[c][i]] == index[pages[d][j]];
    PagesDistinct(pages, c, i, d, j);
  }

  lemma PlanCovers(pages: seq<seq<Id>>, index: map<Id, Rid>, rows: Rows, nextRid: Rid, published: map<nat, seq<Rid>>,
                   r: Rid) returns (c: nat, i: nat)
    requires Carries(pages, index, published) && Linked(index, rows, nextRid)
    requires forall x :: x in index ==> x in Flatten<Id>(pages)
    requires r in rows
    ensures c < |pages| && i < |published[c]| && published[c][i] == r
  {
    var x :| x in index && index[x] == r;
    c, i := PageOf(pages, x);
  }

  lemma PlanInRows(pages: seq<seq<Id>>, index: map<Id, Rid>, rows: Rows, nextRid: Rid, published: map<nat, seq<Rid>>)
    requires Carries(pages, index, published) && Linked(index, rows, nextRid)
    requires forall k :: 0 <= k < |pages| ==> pages[k] != []
    ensures forall k: nat :: k < |pages| ==> k in published && published[k] != []
    ensures forall k: nat, i: nat :: k < |pages| && i < |published[k]| ==> published[k][i] in rows
  {
  }

  lemma PlanWellFormed(pages: seq<seq<Id>>, index: map<Id, Rid>, rows: Rows, nextRid: Rid,
                       published: map<nat, seq<Rid>>)
    requires Carries(pages, index, published) && Linked(index, rows, nextRid) && Increasing(Flatten<Id>(pages))
    requires forall x :: x in index ==> x in Flatten<Id>(pages)
    requires forall k :: 0 <= k < |pages| ==> pages[k] != []
    ensures M.WellFormed(PlanOf(published, |pages|), rows.Keys)
  {
    hide Increasing, Flatten, Linked, Carries;
    PlanInRows(pages, index, rows, nextRid, published);
    var plan := PlanOf(published, |pages|);
    forall c, i, d, j | 0 <= c < |plan| && 0 <= d < |plan| && 0 <= i < |plan[c]| && 0 <= j < |plan[d]|
        && plan[c][i] == plan[d][j]
      ensures c == d && i == j
    {
      PlanDistinct(pages, index, rows, nextRid, published, c, i, d, j);
    }
    forall r | r in rows
      ensures exists c, i :: 0 <= c < |plan| && 0 <= i < |plan[c]| && plan[c][i] == r
    {
      var c, i := PlanCovers(pages, index, rows, nextRid, published, r);
      assert plan[c][i] == r;
    }
  }

  lemma DispatchedCarries(ids: set<Id>, limit: nat, index: map<Id, Rid>, published: map<nat, seq<Rid>>)
    requires limit > 0 && FullyDispatched(ids, limit, index, published)
    ensures index.Keys == ids && Carries(ChunkPages(ids, limit), index, published)
  {
  }

  /** The hand-over: what the batcher leaves behind is a plan the chunk machine can start from.
      Every recipient row is in exactly one place of one chunk, no chunk is empty, and the count
      that UpdateCampaignStarted stores is the number of rows. */
  lemma HandOver(ids: set<Id>, limit: nat, index: map<Id, Rid>, rows: Rows, nextRid: Rid, published: map<nat, seq<Rid>>)
    requires limit > 0 && FullyDispatched(ids, limit, index, published) && Linked(index, rows, nextRid)
    ensures var chunks := |ChunkPages(ids, limit)|;
            && (forall k: nat :: k < chunks ==> k in published)
            && M.WellFormed(PlanOf(published, chunks), rows.Keys)
            && |rows| == |ids|
  {
    hide FullyDispatched, Consistent, Matches, Sorted, Pages, ChunkPages, Flatten, Increasing;
    DispatchedCarries(ids, limit, index, published);
    ChunksPartition(ids, limit);
    SameSize(index, rows.Keys);
    PlanWellFormed(ChunkPages(ids, limit), index, rows, nextRid, published);
  }

  /** The chunk machine's state over a store: its rows and campaign row, and one message per chunk
      that nobody has been given yet. */
  function Machine(rows: Rows, campaign: Campaign, chunks: nat): M.State {
    M.State(rows, campaign, seq(chunks, _ => M.Waiting(0)), M.Ledger(0, 0, 0, 0, 0, 0, 0, 0, 0, 0))
  }

  /** A campaign row that no chunk handler has touched. */
  predicate Uncounted(c: Campaign) {
    c.status in {QueuedForSend, InProgress} && c.total == c.sent == c.failed == 0 && !c.completedAt
  }

  lemma FreshInit(ids: set<Id>, limit: nat, index: map<Id, Rid>, rows: Rows, nextRid: Rid,
                  published: map<nat, seq<Rid>>,
                  campaign: Campaign)
    requires limit > 0 && ids != {} && FullyDispatched(ids, limit, index, published) && Linked(index, rows, nextRid)
    requires RowsGrow(map[], rows) && Uncounted(campaign)
    ensures var chunks := |ChunkPages(ids, limit)|;
            && (forall k: nat :: k < chunks ==> k in published)
            && M.Init(PlanOf(published, chunks), Machine(rows, campaign, chunks))
  {
    hide FullyDispatched, ChunkPages, M.WellFormed;
    HandOver(ids, limit, index, rows, nextRid, published);
  }

  /** From a store nobody has used: however many runs fail before one gets through, what is left
      is an initial state of the chunk machine, so everything proved of its runs holds from here
      on, with the recipients of the segment. */
  method Launch(store: CampaignStore, ids: set<Id>, limit: nat, runs: seq<Faults>) returns (result: Option<(nat, nat)>)
    requires store.Valid() && store.index == map[] && store.rows == map[] && store.published == map[]
    requires limit > 0 && ids != {} && Uncounted(store.campaign)
    modifies store
    ensures store.Valid()
    ensures (exists i :: 0 <= i < |runs| && NoFaults(runs[i])) ==> result.Some?
    ensures result.Some? ==>
              var chunks := |ChunkPages(ids, limit)|;
              && result.value == (|ids|, chunks)
              && (forall k: nat :: k < chunks ==> k in store.published)
              && M.Init(PlanOf(store.published, chunks), Machine(store.rows, store.campaign, chunks))
  {
    hide Linked, Named, RowsGrow, Grows, FullyDispatched, M.Init;
    result := Recover(store, ids, limit, runs);
    if result.Some? {
      FreshInit(ids, limit, store.index, store.rows, store.nextRid, store.published, store.campaign);
    }
  }
}
