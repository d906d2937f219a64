/** Resolving a segment into recipient rows and chunk messages: StreamAndChunk, the start
    handler around it, and what crashes and reruns leave behind. */
module Batcher {
  import opened Wrappers
  import opened KeysetScan
  import opened CampaignTables

  datatype Error = FetchFailed | InsertFailed | PublishFailed

  /** What the broker does with a publish: store it, refuse it, or store it and have the reply
      lost. A message whose id is already known is acknowledged and dropped. */
  datatype PublishReply = Stored | Refused | ReplyLost

  /** What goes wrong around the k-th page of a run; a crash is an error nobody sees. */
  datatype Faults = Faults(fetch: nat -> bool, insert: nat -> bool, publish: nat -> PublishReply)

  ghost predicate NoFaults(faults: Faults) {
    forall k: nat :: faults.fetch(k) && faults.insert(k) && faults.publish(k).Stored?
  }

  predicate Covers(index: map<Id, Rid>, page: seq<Id>) {
    forall i :: 0 <= i < |page| ==> page[i] in index
  }

  /** The recipient ids of a page of contacts. */
  function Rids(index: map<Id, Rid>, page: seq<Id>): (r: seq<Rid>)
    requires Covers(index, page)
    ensures |r| == |page| && forall i :: 0 <= i < |page| ==> r[i] == index[page[i]]
  {
    seq(|page|, i requires 0 <= i < |page| => index[page[i]])
  }

  /** Rows are only ever added. */
  ghost predicate Grows(before: map<Id, Rid>, after: map<Id, Rid>) {
    before.Keys <= after.Keys && forall c :: c in before ==> after[c] == before[c]
  }

  ghost predicate RowsGrow(before: Rows, after: Rows) {
    && before.Keys <= after.Keys
    && (forall r :: r in before ==> after[r] == before[r])
    && (forall r :: r in after && r !in before ==> after[r] == Queued)
  }

  lemma GrowsKeepsRids(before: map<Id, Rid>, after: map<Id, Rid>, page: seq<Id>)
    requires Grows(before, after) && Covers(before, page)
    ensures Covers(after, page) && Rids(after, page) == Rids(before, page)
  {
  }

  /** Every recipient row belongs to one contact and the other way round; ids are used once. */
  ghost predicate Linked(index: map<Id, Rid>, rows: Rows, nextRid: Rid) {
    && (forall c :: c in index ==> index[c] in rows && index[c] < nextRid)
    && (forall c, d :: c in index && d in index && index[c] == index[d] ==> c == d)
    && (forall r :: r in rows ==> exists c :: c in index && index[c] == r)
  }

  lemma InsertGrows(index: map<Id, Rid>, rows: Rows, nextRid: Rid, c: Id)
    requires Linked(index, rows, nextRid) && c !in index
    ensures Grows(index, index[c := nextRid]) && RowsGrow(rows, rows[nextRid := Queued])
  {
    forall r | r in rows ensures r < nextRid {
      var d :| d in index && index[d] == r;
    }
  }

  lemma InsertLinked(index: map<Id, Rid>, rows: Rows, nextRid: Rid, c: Id)
    requires Linked(index, rows, nextRid) && c !in index
    ensures Linked(index[c := nextRid], rows[nextRid := Queued], nextRid + 1)
  {
    var index', rows' := index[c := nextRid], rows[nextRid := Queued];
    forall r | r in rows' ensures exists d :: d in index' && index'[d] == r {
      if r == nextRid {
        assert index'[c] == r;
      } else {
        var d :| d in index && index[d] == r;
        assert index'[d] == r;
      }
    }
  }

  lemma RollbackLinked(index: map<Id, Rid>, rows: Rows, nextRid: Rid, later: Rid)
    requires Linked(index, rows, nextRid) && nextRid <= later
    ensures Linked(index, rows, later)
  {
  }

  /** Stored messages name rows that exist. */
  ghost predicate Named(published: map<nat, seq<Rid>>, rows: Rows) {
    forall k, r :: k in published && r in published[k] ==> r in rows
  }

  lemma NamedGrows(published: map<nat, seq<Rid>>, rows: Rows, rows': Rows)
    requires Named(published, rows) && RowsGrow(rows, rows')
    ensures Named(published, rows')
  {
  }

  lemma NamedPage(published: map<nat, seq<Rid>>, index: map<Id, Rid>, rows: Rows, nextRid: Rid, k: nat, page: seq<Id>)
    requires Named(published, rows) && Linked(index, rows, nextRid) && Covers(index, page)
    ensures Named(published[k := Rids(index, page)], rows)
  {
  }

  lemma GrowsItself(index: map<Id, Rid>, rows: Rows)
    ensures Grows(index, index) && RowsGrow(rows, rows)
  {
  }

  lemma GrowsChain(a: map<Id, Rid>, b: map<Id, Rid>, c: map<Id, Rid>)
    requires Grows(a, b) && Grows(b, c)
    ensures Grows(a, c)
  {
  }

  lemma RowsGrowChain(a: Rows, b: Rows, c: Rows)
    requires RowsGrow(a, b) && RowsGrow(b, c)
    ensures RowsGrow(a, c)
  {
  }

  function AllPages(segment: nat -> set<Id>, limit: nat): seq<seq<Id>>
    requires limit > 0
  {
    Pages(segment, 0, None, limit)
  }

  /** The broker's store after the first `n` pages went out: messages it had are untouched, the
      others carry the row ids of their page. */
  ghost predicate Dispatched(before: map<nat, seq<Rid>>, after: map<nat, seq<Rid>>,
                             index: map<Id, Rid>, pages: seq<seq<Id>>, n: nat) {
    && n <= |pages|
    && (forall k: nat :: k in after <==> k in before || k < n)
    && (forall k :: k in before ==> after[k] == before[k])
    && (forall k :: 0 <= k < n && k !in before ==> Covers(index, pages[k]) && after[k] == Rids(index, pages[k]))
  }

  lemma DispatchNext(before: map<nat, seq<Rid>>, now: map<nat, seq<Rid>>, index: map<Id, Rid>, index': map<Id, Rid>,
                     pages: seq<seq<Id>>, n: nat)
    requires Dispatched(before, now, index, pages, n) && Grows(index, index')
    requires n < |pages| && Covers(index', pages[n])
    ensures Dispatched(before, now, index', pages, n)
    ensures Dispatched(before, if n in now then now else now[n := Rids(index', pages[n])], index', pages, n + 1)
  {
    forall k | 0 <= k < n && k !in before
      ensures Covers(index', pages[k]) && now[k] == Rids(index', pages[k])
    {
      GrowsKeepsRids(index, index', pages[k]);
    }
  }

  /** The page the scan is at. */
  lemma PageAt(segment: nat -> set<Id>, pages: seq<seq<Id>>, k: nat, cursor: Option<Id>, limit: nat)
    requires limit > 0 && k <= |pages| && pages[k..] == Pages(segment, k, cursor, limit)
    ensures var p := Page(segment(k), cursor, limit);
            if p == [] then |pages| == k
            else && k < |pages| && pages[k] == p
                 && pages[k + 1..] == if |p| < limit then [] else Pages(segment, k + 1, Some(Last(p)), limit)
  {
    var p := Page(segment(k), cursor, limit);
    var rest := Pages(segment, k, cursor, limit);
    if p != [] {
      assert Last(p) in p;
      assert rest[0] == pages[k] && rest[1..] == pages[k + 1..];
    }
  }

  lemma FlattenPrefix(pages: seq<seq<Id>>, k: nat)
    requires k < |pages|
    ensures Flatten<Id>(pages[..k + 1]) == Flatten<Id>(pages[..k]) + pages[k]
    ensures Elements(Flatten<Id>(pages[..k + 1])) == Elements(Flatten<Id>(pages[..k])) + Elements(pages[k])
  {
    assert pages[..k + 1] == pages[..k] + [pages[k]];
    FlattenAppend(pages[..k], [pages[k]]);
    assert Flatten<Id>([pages[k]]) == pages[k] + Flatten<Id>([]) == pages[k];
  }

  lemma FlattenSome(pages: seq<seq<Id>>, k: nat)
    requires k <= |pages|
    ensures Elements(Flatten<Id>(pages[..k])) <= Elements(Flatten<Id>(pages))
  {
    assert pages == pages[..k] + pages[k..];
    FlattenAppend(pages[..k], pages[k..]);
  }

  class CampaignStore {
    /** campaign_recipients by contact (the unique key) and by row id */
    var index: map<Id, Rid>
    var rows: Rows
    /** the next value gen_random_uuid() will produce */
    var nextRid: Rid
    /** chunk messages the broker has stored, by chunk index (their message id) */
    var published: map<nat, seq<Rid>>
    var campaign: Campaign

    ghost predicate Valid() reads this { Linked(index, rows, nextRid) && Named(published, rows) }

    constructor (campaign: Campaign)
      ensures Valid() && index == map[] && rows == map[] && published == map[] && this.campaign == campaign
    {
      index, rows, nextRid, published := map[], map[], 0, map[];
      this.campaign := campaign;
    }

    /** The INSERT ... ON CONFLICT ... RETURNING id of one contact. */
    method Upsert(c: Id) returns (id: Rid)
      requires Valid()
      modifies this`index, this`rows, this`nextRid
      ensures Valid() && Grows(old(index), index) && RowsGrow(old(rows), rows)
      ensures index.Keys == old(index).Keys + {c} && id == index[c] && nextRid == old(nextRid) + 1
    {
      if c !in index {
        InsertLinked(index, rows, nextRid, c);
        InsertGrows(index, rows, nextRid, c);
        NamedGrows(published, rows, rows[nextRid := Queued]);
        index := index[c := nextRid];
        rows := rows[nextRid := Queued];
      }
      nextRid := nextRid + 1;
      id := index[c];
    }

    /** BulkInsertCampaignRecipients: one transaction that keeps rows that exist. */
    method BulkInsert(contacts: seq<Id>, ok: bool) returns (ids: Result<seq<Rid>, Error>)
      requires Valid()
      modifies this`index, this`rows, this`nextRid
      ensures Valid() && Grows(old(index), index) && RowsGrow(old(rows), rows)
      ensures ids.Ok? == ok
      ensures ids.Err? ==> index == old(index) && rows == old(rows)
      ensures ids.Ok? ==> index.Keys == old(index).Keys + Elements(contacts)
      ensures ids.Ok? ==> Covers(index, contacts) && ids.value == Rids(index, contacts)
    {
      hide Linked, RowsGrow, Named;
      GrowsItself(index, rows);
      var index0, rows0 := index, rows;
      var out: seq<Rid> := [];
      for i := 0 to |contacts|
        invariant Valid() && Grows(old(index), index) && RowsGrow(old(rows), rows) && old(nextRid) <= nextRid
        invariant index.Keys == old(index).Keys + Elements(contacts[..i])
        invariant |out| == i && forall j :: 0 <= j < i ==> contacts[j] in index && out[j] == index[contacts[j]]
      {
        assert contacts[..i + 1] == contacts[..i] + [contacts[i]];
        ghost var index1, rows1 := index, rows;
        var id := Upsert(contacts[i]);
        GrowsChain(old(index), index1, index);
        RowsGrowChain(old(rows), rows1, rows);
        out := out + [id];
      }
      assert contacts[..|contacts|] == contacts;
      if !ok {
        RollbackLinked(index0, rows0, old(nextRid), nextRid);
        GrowsItself(index0, rows0);
        index, rows := index0, rows0;
        return Err(InsertFailed);
      }
      return Ok(out);
    }
  
    /** Publish with the chunk index as message id. */
    method Publish(k: nat, message: seq<Rid>, reply: PublishReply) returns (ok: bool)
      modifies this`published
      ensures ok == reply.Stored?
      ensures published == if reply.Refused? || k in old(published) then old(published)
                else old(published)[k := message]
    {
      if !reply.Refused? && k !in published {
        published := published[k := message];
      }
      ok := reply.Stored?;
    }

    /** One page: its rows in one transaction, then its message. */
    method DispatchPage(k: nat, contacts: seq<Id>, faults: Faults, ghost pages: seq<seq<Id>>,
                        ghost published0: map<nat, seq<Rid>>)
      returns (err: Option<Error>, count: nat, ghost stored: bool)
      requires Valid() && k < |pages| && pages[k] == contacts && Dispatched(published0, published, index, pages, k)
      modifies this`index, this`rows, this`nextRid, this`published
      ensures Valid() && Grows(old(index), index) && RowsGrow(old(rows), rows)
      ensures Dispatched(published0, published, index, pages, if stored then k + 1 else k)
      ensures match err
              case None => stored && count == |contacts| && faults.insert(k) && faults.publish(k).Stored?
              case Some(InsertFailed) => !faults.insert(k) && !stored && index == old(index)
              case Some(PublishFailed) => if stored then faults.publish(k).ReplyLost? else faults.publish(k).Refused?
              case Some(FetchFailed) => false
      ensures err != Some(InsertFailed) ==> index.Keys == old(index).Keys + Elements(contacts)
    {
      hide Linked, Grows, RowsGrow, Dispatched, Elements, Covers, Named;
      var recipients := BulkInsert(contacts, faults.insert(k));
      stored, count := false, 0;
      if recipients.Err? { return Some(InsertFailed), 0, false; }
      DispatchNext(published0, published, old(index), index, pages, k);
      count := |recipients.value|;
      var reply := faults.publish(k);
      NamedPage(published, index, rows, nextRid, k, contacts);
      var ok := Publish(k, recipients.value, reply);
      stored := !reply.Refused?;
      err := if ok then None else Some(PublishFailed);
    }

    /** StreamAndChunk. `segment(k)` is the segment as the k-th page query sees it. The ghost
        result counts the pages whose message the broker had stored when the run ended. */
    method StreamAndChunk(segment: nat -> set<Id>, limit: nat, faults: Faults)
      returns (result: Result<(nat, nat), Error>, ghost done: nat)
      requires Valid() && limit > 0
      modifies this`index, this`rows, this`nextRid, this`published
      ensures Valid() && Grows(old(index), index) && RowsGrow(old(rows), rows)
      ensures var pages := AllPages(segment, limit);
              && Dispatched(old(published), published, index, pages, done)
              && old(index).Keys + Elements(Flatten<Id>(pages[..done])) <= index.Keys
              && index.Keys <= old(index).Keys + Elements(Flatten<Id>(pages))
              && (result.Ok? ==> done == |pages| == result.value.1 && result.value.0 == |Flatten<Id>(pages)|)
      ensures match result
              case Ok(_) => forall k :: 0 <= k < done ==> faults.insert(k) && faults.publish(k).Stored?
              case Err(FetchFailed) => !faults.fetch(done)
              case Err(InsertFailed) => !faults.insert(done)
              case Err(PublishFailed) =>
                faults.publish(done).Refused? || (done > 0 && faults.publish(done - 1).ReplyLost?)
    {
      hide Linked, Named, Grows, RowsGrow, Dispatched, Pages, Page, Flatten, Elements, Covers, Increasing, Above;
      GrowsItself(index, rows);
      ghost var pages := AllPages(segment, limit);
      var total, chunkIdx := 0, 0;
      var afterId: Option<Id> := None;
      done := 0;
      Start(published, index, pages);
      while true
        invariant Valid() && Grows(old(index), index) && RowsGrow(old(rows), rows)
        invariant done == chunkIdx <= |pages| && pages[chunkIdx..] == Pages(segment, chunkIdx, afterId, limit)
        invariant Dispatched(old(published), published, index, pages, chunkIdx)
        invariant index.Keys == old(index).Keys + Elements(Flatten<Id>(pages[..chunkIdx]))
        invariant total == |Flatten<Id>(pages[..chunkIdx])|
        invariant forall k :: 0 <= k < chunkIdx ==> faults.insert(k) && faults.publish(k).Stored?
        decreases |pages| - chunkIdx
      {
        FlattenSome(pages, chunkIdx);
        if !faults.fetch(chunkIdx) { return Err(FetchFailed), done; }
        PageAt(segment, pages, chunkIdx, afterId, limit);
        var contacts := Page(segment(chunkIdx), afterId, limit);
        if contacts == [] {
          assert pages[..chunkIdx] == pages;
          return Ok((total, chunkIdx)), done;
        }
        ghost var index0, rows0 := index, rows;
        FlattenPrefix(pages, chunkIdx);
        FlattenSome(pages, chunkIdx + 1);
        var err, count;
        ghost var stored;
        err, count, stored := DispatchPage(chunkIdx, contacts, faults, pages, old(published));
        GrowsChain(old(index), index0, index);
        RowsGrowChain(old(rows), rows0, rows);
        if stored { done := done + 1; }
        if err.Some? { return Err(err.value), done; }
        afterId := Some(Last(contacts));
        total := total + count;
        chunkIdx := chunkIdx + 1;
        if |contacts| < limit {
          assert pages[..chunkIdx] == pages;
          return Ok((total, chunkIdx)), done;
        }
      }
    }
  }

  lemma Start(published: map<nat, seq<Rid>>, index: map<Id, Rid>, pages: seq<seq<Id>>)
    ensures Dispatched(published, published, index, pages, 0)
    ensures Elements(Flatten<Id>(pages[..0])) == {} && |Flatten<Id>(pages[..0])| == 0
    ensures pages[0..] == pages
  {
  }

  // ---------------------------------------------------------------------------------------
  // Crashes and reruns on an unchanged segment
  // ---------------------------------------------------------------------------------------

  function Frozen(ids: set<Id>): nat -> set<Id> { (k: nat) => ids }

  function ChunkPages(ids: set<Id>, limit: nat): seq<seq<Id>>
    requires limit > 0
  {
    AllPages(Frozen(ids), limit)
  }

  /** The chunks of a frozen segment are its ids in order, each once, cut so that only the last
      chunk may be short and none is empty; their number is the size divided by the chunk
      size, rounded up. */
  lemma ChunksPartition(ids: set<Id>, limit: nat)
    requires limit > 0
    ensures var pages := ChunkPages(ids, limit);
            && Flatten<Id>(pages) == Sorted(ids) && Increasing(Flatten<Id>(pages))
            && Elements(Flatten<Id>(pages)) == ids && |Flatten<Id>(pages)| == |ids|
            && Paged(pages, limit)
            && (ids != {} ==> limit * (|pages| - 1) < |ids| <= limit * |pages|)
            && (ids == {} ==> pages == [])
  {
    hide Increasing, Pages, Flatten, Sorted;
    var pages := ChunkPages(ids, limit);
    FrozenFlatten(ids, limit);
    SortedIncreases(ids);
    PagesArePaged(Frozen(ids), 0, None, limit);
    assert Elements(Sorted(ids)) == ids;
    if pages != [] { PageCount(pages, limit); } else { EmptyFlatten(); }
  }

  lemma EmptyFlatten()
    ensures Flatten<Id>([]) == []
  {
  }

  lemma FrozenFlatten(ids: set<Id>, limit: nat)
    requires limit > 0
    ensures Flatten<Id>(ChunkPages(ids, limit)) == Sorted(ids)
  {
    hide Increasing, Pages, Flatten, Sorted;
    assert Above(ids, None) == ids;
    FrozenScan(Frozen(ids), ids, 0, None, limit);
  }

  /** Every stored message carries the row ids of its chunk. */
  ghost predicate Matches(pages: seq<seq<Id>>, index: map<Id, Rid>, published: map<nat, seq<Rid>>) {
    forall k :: k in published ==> k < |pages| && Covers(index, pages[k]) && published[k] == Rids(index, pages[k])
  }

  /** Whatever has been stored so far agrees with the chunks of `ids`. */
  ghost predicate Consistent(ids: set<Id>, limit: nat, index: map<Id, Rid>, published: map<nat, seq<Rid>>)
    requires limit > 0
  {
    index.Keys <= ids && Matches(ChunkPages(ids, limit), index, published)
  }

  /** The store one clean run leaves: a row for each contact, and one message per chunk carrying
      exactly that chunk's rows. */
  ghost predicate FullyDispatched(ids: set<Id>, limit: nat, index: map<Id, Rid>, published: map<nat, seq<Rid>>)
    requires limit > 0
  {
    && Consistent(ids, limit, index, published)
    && index.Keys == ids
    && forall k: nat :: k in published <==> k < |ChunkPages(ids, limit)|
  }

  lemma DispatchMatches(pages: seq<seq<Id>>, index0: map<Id, Rid>, published0: map<nat, seq<Rid>>,
                        index: map<Id, Rid>, published: map<nat, seq<Rid>>, done: nat)
    requires Matches(pages, index0, published0) && Grows(index0, index)
    requires Dispatched(published0, published, index, pages, done)
    ensures Matches(pages, index, published)
    ensures done == |pages| ==> forall k: nat :: k in published <==> k < |pages|
  {
    forall k | k in published
      ensures k < |pages| && Covers(index, pages[k]) && published[k] == Rids(index, pages[k])
    {
      if k in published0 { GrowsKeepsRids(index0, index, pages[k]); }
    }
  }

  lemma RunKeepsConsistent(ids: set<Id>, limit: nat, index0: map<Id, Rid>, published0: map<nat, seq<Rid>>,
                           index: map<Id, Rid>, published: map<nat, seq<Rid>>, done: nat)
    requires limit > 0 && Consistent(ids, limit, index0, published0) && Grows(index0, index)
    requires Dispatched(published0, published, index, ChunkPages(ids, limit), done)
    requires index.Keys <= index0.Keys + Elements(Flatten<Id>(ChunkPages(ids, limit)))
    ensures Consistent(ids, limit, index, published)
    ensures done == |ChunkPages(ids, limit)|
              && index0.Keys + Elements(Flatten<Id>(ChunkPages(ids, limit))) <= index.Keys ==>
              FullyDispatched(ids, limit, index, published)
  {
    hide Increasing, Pages, Flatten, Sorted, Paged, Matches, Grows, Dispatched, ChunkPages, AllPages, Frozen, Elements;
    ChunksPartition(ids, limit);
    DispatchMatches(ChunkPages(ids, limit), index0, published0, index, published, done);
  }

  lemma NamedBefore(index0: map<Id, Rid>, rows0: Rows, nextRid0: Rid, published0: map<nat, seq<Rid>>,
                    index: map<Id, Rid>, rows: Rows, nextRid: Rid, k: nat, page: seq<Id>)
    requires Linked(index0, rows0, nextRid0) && Named(published0, rows0) && Grows(index0, index)
               && Linked(index, rows, nextRid)
    requires k in published0 && Covers(index, page) && published0[k] == Rids(index, page)
    ensures Covers(index0, page) && published0[k] == Rids(index0, page)
  {
    forall i | 0 <= i < |page| ensures page[i] in index0 && index0[page[i]] == index[page[i]] {
      var r := published0[k][i];
      assert r in published0[k] && r in rows0;
      var c :| c in index0 && index0[c] == r;
      assert index[c] == index[page[i]];
    }
  }

  /** The exact condition for a run that got through: it leaves the store of one clean run if and
      only if the store it found held no contact from outside the segment and no message that
      disagrees with the segment's chunks. */
  lemma GoodExactly(ids: set<Id>, limit: nat, index0: map<Id, Rid>, rows0: Rows, nextRid0: Rid,
                    published0: map<nat, seq<Rid>>,
                    index: map<Id, Rid>, rows: Rows, nextRid: Rid, published: map<nat, seq<Rid>>)
    requires limit > 0 && Linked(index0, rows0, nextRid0) && Named(published0, rows0)
    requires Linked(index, rows, nextRid) && Grows(index0, index)
    requires Dispatched(published0, published, index, ChunkPages(ids, limit), |ChunkPages(ids, limit)|)
    requires index.Keys == index0.Keys + Elements(Flatten<Id>(ChunkPages(ids, limit)))
    ensures FullyDispatched(ids, limit, index, published) <==> Consistent(ids, limit, index0, published0)
  {
    hide Linked, Named, Grows, ChunkPages, Flatten, Elements, Increasing, Paged, Sorted;
    var pages := ChunkPages(ids, limit);
    ChunksPartition(ids, limit);
    if Consistent(ids, limit, index0, published0) {
      RunKeepsConsistent(ids, limit, index0, published0, index, published, |pages|);
    }
    if FullyDispatched(ids, limit, index, published) {
      forall k | k in published0
        ensures k < |pages| && Covers(index0, pages[k]) && published0[k] == Rids(index0, pages[k])
      {
        assert k in published && published[k] == published0[k];
        NamedBefore(index0, rows0, nextRid0, published0, index, rows, nextRid, k, pages[k]);
      }
    }
  }

  /** One run on any store, whatever segment and whatever failures earlier runs had seen: if it
      gets through, it leaves the store of one clean run exactly if the store was consistent with
      the segment before; and it keeps a consistent store consistent wherever it stops. */
  method Rerun(store: CampaignStore, ids: set<Id>, limit: nat, faults: Faults)
    returns (result: Result<(nat, nat), Error>)
    requires store.Valid() && limit > 0
    modifies store
    ensures store.Valid() && store.campaign == old(store.campaign)
    ensures RowsGrow(old(store.rows), store.rows) && Grows(old(store.index), store.index)
    ensures old(Consistent(ids, limit, store.index, store.published)) ==>
              Consistent(ids, limit, store.index, store.published)
    ensures NoFaults(faults) ==> result.Ok?
    ensures result.Ok? ==> result.value == (|ids|, |ChunkPages(ids, limit)|)
    ensures result.Ok? ==>
              (FullyDispatched(ids, limit, store.index, store.published) <==>
               old(Consistent(ids, limit, store.index, store.published)))
  {
    hide Linked, Named, RowsGrow, Grows, Dispatched, Consistent, FullyDispatched, Elements, Increasing, Paged, Sorted,
        Pages, Flatten;
    ghost var index0, rows0, nextRid0, published0 := store.index, store.rows, store.nextRid, store.published;
    ghost var done;
    result, done := store.StreamAndChunk(Frozen(ids), limit, faults);
    ChunksPartition(ids, limit);
    if Consistent(ids, limit, index0, published0) {
      RunKeepsConsistent(ids, limit, index0, published0, store.index, store.published, done);
    }
    if result.Ok? {
      assert ChunkPages(ids, limit)[..done] == ChunkPages(ids, limit);
      GoodExactly(ids, limit, index0, rows0, nextRid0, published0, store.index, store.rows, store.nextRid,
                  store.published);
    }
  }

  /** Crash recovery: deliver the start message again and again, each run failing wherever
      `runs` says, until one gets through. However the earlier runs ended, the rows and the
      chunk messages are then those of one clean run, and the counts returned are the size of
      the segment and the number of its chunks. */
  method Recover(store: CampaignStore, ids: set<Id>, limit: nat, runs: seq<Faults>) returns (result: Option<(nat, nat)>)
    requires store.Valid() && limit > 0
    requires Consistent(ids, limit, store.index, store.published)
    modifies store
    ensures store.Valid() && store.campaign == old(store.campaign)
    ensures RowsGrow(old(store.rows), store.rows) && Grows(old(store.index), store.index)
    ensures Consistent(ids, limit, store.index, store.published)
    ensures (exists i :: 0 <= i < |runs| && NoFaults(runs[i])) ==> result.Some?
    ensures result.Some? ==>
              && FullyDispatched(ids, limit, store.index, store.published)
              && result.value == (|ids|, |ChunkPages(ids, limit)|)
  {
    hide Linked, Named, RowsGrow, Grows, Consistent, FullyDispatched, ChunkPages;
    GrowsItself(store.index, store.rows);
    for i := 0 to |runs|
      invariant store.Valid() && store.campaign == old(store.campaign)
      invariant RowsGrow(old(store.rows), store.rows) && Grows(old(store.index), store.index)
      invariant Consistent(ids, limit, store.index, store.published)
      invariant forall j :: 0 <= j < i ==> !NoFaults(runs[j])
    {
      ghost var index0, rows0 := store.index, store.rows;
      var outcome := Rerun(store, ids, limit, runs[i]);
      GrowsChain(old(store.index), index0, store.index);
      RowsGrowChain(old(store.rows), rows0, store.rows);
      if outcome.Ok? { return Some(outcome.value); }
    }
    return None;
  }

  /** A run that starts from a complete store changes no row and no message. */
  lemma DispatchedIsFinal(ids: set<Id>, limit: nat, index0: map<Id, Rid>, published0: map<nat, seq<Rid>>,
                        index: map<Id, Rid>, published: map<nat, seq<Rid>>, done: nat)
    requires limit > 0 && FullyDispatched(ids, limit, index0, published0) && Grows(index0, index)
    requires Dispatched(published0, published, index, ChunkPages(ids, limit), done)
    requires index.Keys <= index0.Keys + Elements(Flatten<Id>(ChunkPages(ids, limit)))
    ensures index == index0 && published == published0
  {
    hide Increasing, Pages, Flatten, Sorted, Paged;
    ChunksPartition(ids, limit);
    assert index.Keys == index0.Keys;
    assert published.Keys == published0.Keys;
  }

  lemma {:induction false} SinglePages(pages: seq<seq<Id>>, ids: seq<Id>)
    requires Paged(pages, 1) && Flatten<Id>(pages) == ids
    ensures |pages| == |ids| && forall i :: 0 <= i < |ids| ==> pages[i] == [ids[i]]
    decreases |pages|
  {
    if pages != [] {
      assert Flatten<Id>(pages[1..]) == ids[1..];
      SinglePages(pages[1..], ids[1..]);
      forall i | 0 <= i < |ids| ensures pages[i] == [ids[i]] {
        if i > 0 { assert pages[i] == pages[1..][i - 1] && ids[i] == ids[1..][i - 1]; }
      }
    }
  }

  lemma OneChunk()
    ensures ChunkPages({2}, 1) == [[2]] && Elements(Flatten<Id>([[2]])) == {2}
  {
    hide Pages, Sorted, ChunkPages, Flatten;
    var one := ChunkPages({2}, 1);
    ChunksPartition({2}, 1);
    IncreasingUnique(Flatten<Id>(one), [2]);
    SinglePages(one, [2]);
    assert one == [[2]];
  }

  lemma TwoChunks()
    ensures ChunkPages({1, 2}, 1) == [[1], [2]] && Elements(Flatten<Id>([[1], [2]])) == {1, 2}
  {
    hide Pages, Sorted, ChunkPages, Flatten;
    var two := ChunkPages({1, 2}, 1);
    ChunksPartition({1, 2}, 1);
    IncreasingUnique(Flatten<Id>(two), [1, 2]);
    SinglePages(two, [1, 2]);
    assert two == [[1], [2]];
  }

  lemma DispatchedWithin(before: map<nat, seq<Rid>>, after: map<nat, seq<Rid>>, index: map<Id, Rid>,
                         pages: seq<seq<Id>>, n: nat)
    requires Dispatched(before, after, index, pages, n)
    ensures n <= |pages|
  {
  }

  lemma FirstMessage(published: map<nat, seq<Rid>>, index: map<Id, Rid>)
    requires Dispatched(map[], published, index, [[2]], 1)
    ensures 2 in index && published == map[0 := [index[2]]]
  {
    var k: nat := 0;
    assert k in published && Covers(index, [[2]][k]) && published[k] == Rids(index, [[2]][k]);
    assert [2][0] in index && published[0] == [index[2]];
    assert published.Keys == {0};
  }

  lemma SecondMessage(published0: map<nat, seq<Rid>>, index0: map<Id, Rid>, published: map<nat, seq<Rid>>,
                      index: map<Id, Rid>)
    requires 2 in index0 && published0 == map[0 := [index0[2]]] && Grows(index0, index)
    requires Dispatched(published0, published, index, [[1], [2]], 2)
    ensures 2 in index && published == map[0 := [index[2]], 1 := [index[2]]]
  {
    var k: nat := 1;
    assert k in published && Covers(index, [[1], [2]][k]) && published[k] == Rids(index, [[1], [2]][k]);
    assert [2][0] in index && published[1] == [index[2]];
    assert published[0] == published0[0] == [index0[2]] && index0[2] == index[2];
    assert published.Keys == {0, 1};
  }

  /** A message already stored under a chunk index hides the new content of that chunk: if the
      segment changed between a crashed run and its rerun, the rerun leaves the contact of the
      first page with a row and without a message, and another contact in two messages. */
  method DedupLosesContact() returns (store: CampaignStore)
    ensures store.Valid() && store.index.Keys == {1, 2}
    ensures store.published == map[0 := [store.index[2]], 1 := [store.index[2]]]
  {
    hide Linked, Named, Grows, RowsGrow, Pages, Flatten, Sorted, Page, Dispatched, AllPages, Elements;
    store := new CampaignStore(Campaign(QueuedForSend, 0, 0, 0, false));
    var all := (k: nat) => true;
    OneChunk();
    var r, done := store.StreamAndChunk(Frozen({2}), 1, Faults(k => k == 0, all, k => Stored));
    DispatchedWithin(map[], store.published, store.index, [[2]], done);
    assert done == 1 && [[2]][..1] == [[2]];
    ghost var index1, published1 := store.index, store.published;
    FirstMessage(published1, index1);
    assert index1.Keys == {2};
    TwoChunks();
    r, done := store.StreamAndChunk(Frozen({1, 2}), 1, Faults(all, all, k => Stored));
    assert done == 2 && [[1], [2]][..2] == [[1], [2]];
    SecondMessage(published1, index1, store.published, store.index);
    assert store.index.Keys == {1, 2};
  }
}
