/** Segment refresh: evaluate the filter over a scan of the contacts, and bring the stored
    memberships to the result in two transactions. */
module SegmentRefresh {
  import opened Wrappers
  import opened KeysetScan
  import opened Evaluator
  import opened Messages

  const EVAL_PAGE_SIZE: nat := 500

  type Contacts = map<Id, Subject>

  datatype SegmentStatus = Draft | Processing | Ready | FailedSegment

  /** A segment with its memberships. The tree is None if it does not parse. `written` counts
      the membership rows that were inserted or deleted. */
  datatype Segment = Segment(
    tree: Option<Option<Node>>,
    status: SegmentStatus,
    count: int,
    members: set<Id>,
    written: nat)

  /** The collaborators' answers during one delivery; the k-th page query sees `tables(k)`. A
      worker that dies is one whose remaining calls fail. */
  datatype World = World(
    attempt: nat,
    lock: LockReply,
    loadOk: bool,
    tables: nat -> Contacts,
    queryOk: nat -> bool,
    processingOk: bool,
    failedOk: bool,
    membersOk: bool,
    insertOk: bool,
    deleteOk: bool,
    readyOk: bool)

  // ---------------------------------------------------------------------------------------
  // The scan
  // ---------------------------------------------------------------------------------------

  predicate Selected(x: Subject, tree: Option<Node>) { Matches(x, tree) == Ok(true) }

  /** The matching contacts of a page, or None if the filter errs for one of them. */
  ghost function EvalPage(contacts: Contacts, tree: Option<Node>, page: seq<Id>): Option<set<Id>>
    requires forall id :: id in page ==> id in contacts
  {
    if forall id :: id in page ==> Matches(contacts[id], tree).Ok?
    then Some(set id | id in page && Selected(contacts[id], tree))
    else None
  }

  /** The matching contacts of the pages from the k-th on, or None if a query or the filter
      fails. */
  ghost function Scan(w: World, tree: Option<Node>, k: nat, cursor: Option<Id>, limit: nat): Option<set<Id>>
    requires limit > 0
    decreases Room(cursor)
  {
    if !w.queryOk(k) then None
    else
      var page := Page(w.tables(k).Keys, cursor, limit);
      var found := EvalPage(w.tables(k), tree, page);
      if found.None? || |page| < limit then found
      else
        assert Last(page) in page;
        var rest := Scan(w, tree, k + 1, Some(Last(page)), limit);
        if rest.None? then None else Some(found.value + rest.value)
  }

  /** One page, and what follows a full one. */
  lemma ScanStep(w: World, tree: Option<Node>, k: nat, cursor: Option<Id>, limit: nat)
    requires limit > 0
    ensures var page := Page(w.tables(k).Keys, cursor, limit);
            && |page| <= limit
            && (forall id :: id in page ==> id in w.tables(k) && (cursor.None? || id > cursor.value))
            && (w.queryOk(k) && |page| < limit ==> Scan(w, tree, k, cursor, limit) == EvalPage(w.tables(k), tree, page))
            && (!w.queryOk(k) ==> Scan(w, tree, k, cursor, limit) == None)
            && (w.queryOk(k) && |page| == limit ==>
                  && Last(page) in page && Room(Some(Last(page))) < Room(cursor)
                  && var found, rest := EvalPage(w.tables(k), tree, page),
                       Scan(w, tree, k + 1, Some(Last(page)), limit);
                     Scan(w, tree, k, cursor, limit) == if found.None? || rest.None? then None
                         else Some(found.value + rest.value))
  {
    hide Sorted, EvalPage;
    var page := Page(w.tables(k).Keys, cursor, limit);
    if |page| == limit { assert Last(page) in page; }
  }

  ghost function Matched(w: World, tree: Option<Node>): Option<set<Id>> { Scan(w, tree, 0, None, EVAL_PAGE_SIZE) }

  /** A contact that is there and matches whenever a page is fetched is found. */
  lemma {:induction false} StableFound(w: World, tree: Option<Node>, k: nat, cursor: Option<Id>, limit: nat, id: Id)
    requires limit > 0 && Scan(w, tree, k, cursor, limit).Some? && (cursor.None? || id > cursor.value)
    requires forall i :: i >= k ==> id in w.tables(i) && Selected(w.tables(i)[id], tree)
    ensures id in Scan(w, tree, k, cursor, limit).value
    decreases Room(cursor)
  {
    hide Scan, Page, Sorted, Selected, Matches;
    var page := Page(w.tables(k).Keys, cursor, limit);
    ScanStep(w, tree, k, cursor, limit);
    if id !in page {
      PageComplete(w.tables(k).Keys, cursor, limit, id);
      StableFound(w, tree, k + 1, Some(Last(page)), limit, id);
    }
  }

  /** What is found was there, and matched, when its page was fetched. */
  lemma {:induction false} FoundMatched(w: World, tree: Option<Node>, k: nat, cursor: Option<Id>, limit: nat, id: Id)
    requires limit > 0 && Scan(w, tree, k, cursor, limit).Some? && id in Scan(w, tree, k, cursor, limit).value
    ensures exists i :: i >= k && id in w.tables(i) && Selected(w.tables(i)[id], tree)
    decreases Room(cursor)
  {
    hide Scan, Page, Sorted, Selected, Matches;
    var page := Page(w.tables(k).Keys, cursor, limit);
    ScanStep(w, tree, k, cursor, limit);
    if id in EvalPage(w.tables(k), tree, page).value {
      assert id in w.tables(k) && Selected(w.tables(k)[id], tree);
    } else {
      FoundMatched(w, tree, k + 1, Some(Last(page)), limit, id);
    }
  }

  /** The contacts that match. */
  ghost function Selection(contacts: Contacts, tree: Option<Node>): set<Id> {
    set id | id in contacts && Selected(contacts[id], tree)
  }

  /** A scan fails only if a query does, or the filter for some contact. */
  lemma {:induction false} ScanSucceeds(w: World, tree: Option<Node>, k: nat, cursor: Option<Id>, limit: nat)
    requires limit > 0
    requires forall i: nat :: w.queryOk(i) && forall id :: id in w.tables(i) ==> Matches(w.tables(i)[id], tree).Ok?
    ensures Scan(w, tree, k, cursor, limit).Some?
    decreases Room(cursor)
  {
    hide Scan, Page, Sorted, Matches;
    var page := Page(w.tables(k).Keys, cursor, limit);
    ScanStep(w, tree, k, cursor, limit);
    assert w.queryOk(k);
    assert EvalPage(w.tables(k), tree, page).Some?;
    if |page| == limit { ScanSucceeds(w, tree, k + 1, Some(Last(page)), limit); }
  }

  /** And it does fail if there is a contact throughout for which the filter errs. */
  lemma {:induction false} ScanFails(w: World, tree: Option<Node>, k: nat, cursor: Option<Id>, limit: nat, id: Id)
    requires limit > 0 && (cursor.None? || id > cursor.value)
    requires forall i :: i >= k ==> id in w.tables(i) && Matches(w.tables(i)[id], tree).Err?
    ensures Scan(w, tree, k, cursor, limit).None?
    decreases Room(cursor)
  {
    hide Scan, Page, Sorted, Matches;
    var page := Page(w.tables(k).Keys, cursor, limit);
    ScanStep(w, tree, k, cursor, limit);
    if id !in page && w.queryOk(k) {
      PageComplete(w.tables(k).Keys, cursor, limit, id);
      ScanFails(w, tree, k + 1, Some(Last(page)), limit, id);
    }
  }

  ghost predicate Frozen(w: World, contacts: Contacts) { forall k: nat :: w.tables(k) == contacts }

  /** On a table that does not change, the scan finds exactly the contacts that match. */
  lemma FrozenMatched(w: World, contacts: Contacts, tree: Option<Node>)
    requires Frozen(w, contacts) && Matched(w, tree).Some?
    ensures Matched(w, tree).value == Selection(contacts, tree)
  {
    var found := Matched(w, tree).value;
    forall id ensures id in found <==> id in Selection(contacts, tree) {
      if id in found { FoundMatched(w, tree, 0, None, EVAL_PAGE_SIZE, id); }
      if id in Selection(contacts, tree) { StableFound(w, tree, 0, None, EVAL_PAGE_SIZE, id); }
    }
  }

  /** The handler's page callback: it stops at the first contact for which the filter errs. */
  method MatchPage(contacts: Contacts, tree: Option<Node>, page: seq<Id>) returns (found: Option<set<Id>>)
    requires forall id :: id in page ==> id in contacts
    ensures found == EvalPage(contacts, tree, page)
  {
    hide Matches;
    var here: set<Id> := {};
    for i := 0 to |page|
      invariant forall id :: id in page[..i] ==> Matches(contacts[id], tree).Ok?
      invariant here == set id | id in page[..i] && Selected(contacts[id], tree)
    {
      assert page[i] in page;
      assert page[..i + 1] == page[..i] + [page[i]];
      var verdict := Matches(contacts[page[i]], tree);
      if verdict.Err? { return None; }
      assert verdict.value == Selected(contacts[page[i]], tree) by {
        assert verdict == if verdict.value then Ok(true) else Ok(false);
      }
      if verdict.value { here := here + {page[i]}; }
    }
    assert page[..|page|] == page;
    assert forall id :: id in page ==> Matches(contacts[id], tree).Ok?;
    assert EvalPage(contacts, tree, page).value == here;
    return Some(here);
  }

  /** StreamContactsForEval, collecting what the callback finds. */
  method StreamContactsForEval(w: World, tree: Option<Node>) returns (matched: Option<set<Id>>)
    ensures matched == Matched(w, tree)
  {
    hide Scan, Page, Sorted, EvalPage;
    var cursor: Option<Id>, k, found: set<Id> := None, 0, {};
    ghost var all := Scan(w, tree, 0, None, EVAL_PAGE_SIZE);
    assert all.Some? ==> {} + all.value == all.value;
    while true
      invariant Matched(w, tree) ==
                  (var rest := Scan(w, tree, k, cursor, EVAL_PAGE_SIZE); if rest.None? then None
                      else Some(found + rest.value))
      decreases Room(cursor)
    {
      ScanStep(w, tree, k, cursor, EVAL_PAGE_SIZE);
      if !w.queryOk(k) { return None; }
      var page := Page(w.tables(k).Keys, cursor, EVAL_PAGE_SIZE);
      var here := MatchPage(w.tables(k), tree, page);
      if here.None? { return None; }
      if |page| < EVAL_PAGE_SIZE { return Some(found + here.value); }
      ghost var rest := Scan(w, tree, k + 1, Some(Last(page)), EVAL_PAGE_SIZE);
      assert rest.Some? ==> found + (here.value + rest.value) == (found + here.value) + rest.value;
      cursor, k, found := Some(Last(page)), k + 1, found + here.value;
    }
  }

  // ---------------------------------------------------------------------------------------
  // The diff
  // ---------------------------------------------------------------------------------------

  /** The ids of a set, each once. */
  ghost predicate Lists(s: seq<Id>, ids: set<Id>) {
    && (forall i, j :: 0 <= i < j < |s| ==> s[i] != s[j])
    && (forall id :: id in s <==> id in ids)
    && |s| == |ids|
  }

  lemma ListsMore(s: seq<Id>, ids: set<Id>, id: Id)
    requires Lists(s, ids) && id !in ids
    ensures Lists(s + [id], ids + {id})
  {
  }

  /** The keys of `a` that are not in `b`. */
  method Diff(a: set<Id>, b: set<Id>) returns (out: seq<Id>)
    ensures Lists(out, a - b)
  {
    out := [];
    var todo, done: set<Id> := a, {};
    assert Lists(out, done - b);
    while todo != {}
      invariant done + todo == a && done !! todo && Lists(out, done - b)
      decreases |todo|
    {
      hide Lists;
      var k :| k in todo;
      if k !in b {
        ListsMore(out, done - b, k);
        assert (done + {k}) - b == (done - b) + {k};
        out := out + [k];
      } else {
        assert (done + {k}) - b == done - b;
      }
      todo, done := todo - {k}, done + {k};
    }
    assert done == a;
  }

  lemma DiffCounts(current: set<Id>, matched: set<Id>)
    ensures |current| + |matched - current| - |current - matched| == |matched|
  {
    assert current == (current * matched) + (current - matched);
    assert matched == (current * matched) + (matched - current);
    assert |current| == |current * matched| + |current - matched|;
    assert |matched| == |current * matched| + |matched - current|;
  }

  // ---------------------------------------------------------------------------------------
  // One delivery
  // ---------------------------------------------------------------------------------------

  function Inserted(s: Segment, added: set<Id>): Segment {
    s.(members := s.members + added, written := s.written + |added|)
  }

  function Deleted(s: Segment, removed: set<Id>): Segment {
    s.(members := s.members - removed, written := s.written + |removed|)
  }

  function Readied(s: Segment, current: set<Id>, added: set<Id>, removed: set<Id>): Segment {
    s.(status := Ready, count := |current| + |added| - |removed|)
  }

  /** What one delivery does to the segment, and how it settles its message. */
  ghost function Refresh(seg: Option<Segment>, w: World, maxRetries: nat): (Option<Segment>, Disposition) {
    var retry := NakOrTerm(w.attempt, maxRetries);
    if w.lock.Taken? then (seg, Ack)
    else if w.lock.LockError? || !w.loadOk then (seg, retry)
    else if seg.None? then (seg, Term)
    else
      var failed := if w.failedOk then seg.value.(status := FailedSegment) else seg.value;
      if seg.value.tree.None? then (Some(failed), Term)
      else if !w.processingOk then (seg, retry)
      else
        var matched := Matched(w, seg.value.tree.value);
        var s := seg.value.(status := Processing);
        if matched.None? then (Some(if w.failedOk then s.(status := FailedSegment) else s), retry)
        else if !w.membersOk then (Some(s), retry)
        else
          var added := matched.value - s.members;
          var removed := s.members - matched.value;
          if added != {} && !w.insertOk then (Some(s), retry)
          else
            var s1 := Inserted(s, added);
            if removed != {} && !w.deleteOk then (Some(s1), retry)
            else
              var s2 := Deleted(s1, removed);
              if !w.readyOk then (Some(s2), retry) else (Some(Readied(s2, s.members, added, removed)), Ack)
  }

  /** The refresh ran to its end. */
  ghost predicate Succeeds(seg: Option<Segment>, w: World, maxRetries: nat) {
    w.lock.Acquired? && Refresh(seg, w, maxRetries).1.Ack?
  }

  /** Which deliveries run to their end, how each is settled, and the status it leaves behind. */
  lemma RefreshExactly(seg: Option<Segment>, w: World, maxRetries: nat)
    ensures var (after, disposition) := Refresh(seg, w, maxRetries);
            var parsed := w.lock.Acquired? && w.loadOk && seg.Some? && seg.value.tree.Some?;
            var unparsed := w.lock.Acquired? && w.loadOk && seg.Some? && seg.value.tree.None?;
            var scanned := parsed && w.processingOk && Matched(w, seg.value.tree.value).Some?;
            var done := scanned && w.membersOk && w.readyOk
                        && (w.insertOk || Matched(w, seg.value.tree.value).value <= seg.value.members)
                        && (w.deleteOk || seg.value.members <= Matched(w, seg.value.tree.value).value);
            && (Succeeds(seg, w, maxRetries) <==> done)
            && (disposition == Ack <==> w.lock.Taken? || done)
            && (disposition == Term <==>
                  || (w.lock.Acquired? && w.loadOk && (seg.None? || seg.value.tree.None?))
                  || (!w.lock.Taken? && !done && w.attempt >= maxRetries))
            && (after.Some? <==> seg.Some?)
            && (seg.Some? ==>
                  && after.value.tree == seg.value.tree
                  && after.value.status == (if done then Ready
                                            else if (unparsed || (parsed && w.processingOk && !scanned)) && w.failedOk
                                            then FailedSegment
                                            else if parsed && w.processingOk then Processing
                                            else seg.value.status)
                  && (!done ==> after.value.count == seg.value.count)
                  && (!scanned ==> after.value.members == seg.value.members))
  {
    hide Matched;
  }

  class SegmentStore {
    var seg: Option<Segment>

    constructor (seg: Option<Segment>)
      ensures this.seg == seg
    {
      this.seg := seg;
    }

    method UpdateSegmentStatus(status: SegmentStatus, ok: bool) returns (err: bool)
      requires seg.Some?
      modifies this
      ensures err == !ok && seg == if ok then Some(old(seg).value.(status := status)) else old(seg)
    {
      if ok { seg := Some(seg.value.(status := status)); }
      err := !ok;
    }

    method UpdateSegmentReady(count: int, ok: bool) returns (err: bool)
      requires seg.Some?
      modifies this
      ensures err == !ok && seg == if ok then Some(old(seg).value.(status := Ready, count := count)) else old(seg)
    {
      if ok { seg := Some(seg.value.(status := Ready, count := count)); }
      err := !ok;
    }

    /** One transaction: every id is inserted, or none is. */
    method InsertSegmentMembers(ids: seq<Id>, ghost added: set<Id>, ok: bool) returns (err: bool)
      requires seg.Some? && Lists(ids, added)
      modifies this
      ensures err == (ids != [] && !ok)
      ensures seg == if err then old(seg) else Some(Inserted(old(seg).value, added))
    {
      if ids == [] {
        assert added == {};
        assert seg.value.members + added == seg.value.members;
        return false;
      }
      var tx := seg.value.members;
      for i := 0 to |ids|
        invariant tx == seg.value.members + (set id | id in ids[..i])
      {
        assert ids[..i + 1] == ids[..i] + [ids[i]];
        tx := tx + {ids[i]};
      }
      assert ids[..|ids|] == ids && (set id | id in ids) == added;
      if !ok { return true; }
      assert tx == seg.value.members + added;
      seg := Some(seg.value.(members := tx, written := seg.value.written + |ids|));
      return false;
    }

    method DeleteSegmentMembers(ids: seq<Id>, ghost stale: set<Id>, ok: bool) returns (err: bool)
      requires seg.Some? && Lists(ids, stale)
      modifies this
      ensures err == (ids != [] && !ok)
      ensures seg == if err then old(seg) else Some(Deleted(old(seg).value, stale))
    {
      if ids == [] {
        assert stale == {};
        assert seg.value.members - stale == seg.value.members;
        return false;
      }
      var tx := seg.value.members;
      for i := 0 to |ids|
        invariant tx == seg.value.members - (set id | id in ids[..i])
      {
        assert ids[..i + 1] == ids[..i] + [ids[i]];
        tx := tx - {ids[i]};
      }
      assert ids[..|ids|] == ids && (set id | id in ids) == stale;
      if !ok { return true; }
      assert tx == seg.value.members - stale;
      seg := Some(seg.value.(members := tx, written := seg.value.written + |ids|));
      return false;
    }

    /** Handle for one delivery of a refresh message. */
    method Handle(w: World, maxRetries: nat) returns (disposition: Disposition)
      modifies this
      ensures (seg, disposition) == Refresh(old(seg), w, maxRetries)
    {
      hide Matched, Scan, EvalPage;
      var retry := NakOrTerm(w.attempt, maxRetries);
      if w.lock.Taken? { return Ack; }
      if w.lock.LockError? { return retry; }
      if !w.loadOk { return retry; }
      if seg.None? { return Term; }
      if seg.value.tree.None? {
        var _ := UpdateSegmentStatus(FailedSegment, w.failedOk);
        return Term;
      }
      var tree := seg.value.tree.value;
      var err := UpdateSegmentStatus(Processing, w.processingOk);
      if err { return retry; }
      var matched := StreamContactsForEval(w, tree);
      if matched.None? {
        err := UpdateSegmentStatus(FailedSegment, w.failedOk);
        return retry;
      }
      if !w.membersOk { return retry; }
      var current := seg.value.members;
      var toAdd := Diff(matched.value, current);
      var toRemove := Diff(current, matched.value);
      err := InsertSegmentMembers(toAdd, matched.value - current, w.insertOk);
      if err { return retry; }
      err := DeleteSegmentMembers(toRemove, current - matched.value, w.deleteOk);
      if err { return retry; }
      err := UpdateSegmentReady(|current| + |toAdd| - |toRemove|, w.readyOk);
      if err { return retry; }
      return Ack;
    }
  }

  // ---------------------------------------------------------------------------------------
  // The index agrees with the filter
  // ---------------------------------------------------------------------------------------

  lemma SuccessShape(seg: Option<Segment>, w: World, maxRetries: nat)
    requires Succeeds(seg, w, maxRetries)
    ensures seg.Some? && seg.value.tree.Some? && Matched(w, seg.value.tree.value).Some?
    ensures var matched, current := Matched(w, seg.value.tree.value).value, seg.value.members;
            var s := Inserted(seg.value.(status := Processing), matched - current);
            Refresh(seg, w, maxRetries).0
                == Some(Readied(Deleted(s, current - matched), current, matched - current, current - matched))
  {
    hide Matched, Inserted, Deleted, Readied;
  }

  /** A refresh that ran to its end leaves exactly the matching contacts as members, and their
      number as the count. */
  lemma IndexAgrees(seg: Option<Segment>, w: World, maxRetries: nat, contacts: Contacts)
    requires Frozen(w, contacts) && Succeeds(seg, w, maxRetries)
    ensures var s := Refresh(seg, w, maxRetries).0;
            && s.Some? && s.value.tree.Some?
            && s.value.members == Selection(contacts, s.value.tree.value)
            && (forall id :: id in s.value.members <==>
                  id in contacts && Matches(contacts[id], s.value.tree.value) == Ok(true))
            && s.value.count == |s.value.members| && s.value.status.Ready?
  {
    hide Matched, Refresh, Frozen, Matches;
    SuccessShape(seg, w, maxRetries);
    FrozenMatched(w, contacts, seg.value.tree.value);
    DiffCounts(seg.value.members, Matched(w, seg.value.tree.value).value);
  }

  /** Between the old members and the new ones. */
  predicate Between(before: set<Id>, after: set<Id>, members: set<Id>) {
    before * after <= members <= before + after
  }

  /** What a refresh is after: what its scan finds, or, if the scan fails, no change. */
  ghost function Goal(seg: Segment, w: World): set<Id>
    requires seg.tree.Some?
  {
    if Matched(w, seg.tree.value).Some? then Matched(w, seg.tree.value).value else seg.members
  }

  /** Wherever a refresh stops, and however the contacts change meanwhile, no member that it is to
      keep is missing, and nobody is stored who is neither an old nor a new member. */
  lemma NeverOutside(seg: Segment, w: World, maxRetries: nat)
    requires seg.tree.Some?
    ensures var s := Refresh(Some(seg), w, maxRetries).0;
            s.Some? && s.value.tree == seg.tree && Between(seg.members, Goal(seg, w), s.value.members)
  {
    hide Scan, Matched, Selected, Eval;
  }

  /** A refresh that ran to its end leaves what its scan found, changing contacts or not. */
  lemma SuccessIsGoal(seg: Segment, w: World, maxRetries: nat)
    requires seg.tree.Some? && Succeeds(Some(seg), w, maxRetries)
    ensures var s := Refresh(Some(seg), w, maxRetries).0;
            s.Some? && s.value.members == Goal(seg, w) && s.value.count == |s.value.members| && s.value.status.Ready?
  {
    hide Matched, Refresh;
    SuccessShape(Some(seg), w, maxRetries);
    DiffCounts(seg.members, Goal(seg, w));
  }

  ghost function RefreshAll(seg: Option<Segment>, ws: seq<World>, maxRetries: nat): Option<Segment>
    decreases |ws|
  {
    if ws == [] then seg else Refresh(RefreshAll(seg, ws[..|ws| - 1], maxRetries), ws[|ws| - 1], maxRetries).0
  }

  /** The contacts that no refresh since the last one that ran to its end was to remove, and those
      that some refresh since then was to add, or that were members at its start. */
  ghost function Bounds(seg: Segment, ws: seq<World>, maxRetries: nat): (set<Id>, set<Id>)
    requires seg.tree.Some?
    decreases |ws|
  {
    if ws == [] then (seg.members, seg.members)
    else
      var front, w := ws[..|ws| - 1], ws[|ws| - 1];
      var before := RefreshAll(Some(seg), front, maxRetries);
      var (lower, upper) := Bounds(seg, front, maxRetries);
      if Matched(w, seg.tree.value).None? then (lower, upper)
      else
        var found := Matched(w, seg.tree.value).value;
        if Succeeds(before, w, maxRetries) then (found, found) else (lower * found, upper + found)
  }

  /** Any number of refreshes on contacts that may change all the time, each stopping anywhere:
      the members never leave these bounds. */
  lemma {:induction false} StaysInBounds(seg: Segment, ws: seq<World>, maxRetries: nat)
    requires seg.tree.Some?
    ensures var s, (lower, upper) := RefreshAll(Some(seg), ws, maxRetries), Bounds(seg, ws, maxRetries);
            s.Some? && s.value.tree == seg.tree && lower <= s.value.members <= upper
    decreases |ws|
  {
    hide Refresh, Succeeds, Matched;
    if ws != [] {
      var front, w := ws[..|ws| - 1], ws[|ws| - 1];
      StaysInBounds(seg, front, maxRetries);
      var before := RefreshAll(Some(seg), front, maxRetries);
      NeverOutside(before.value, w, maxRetries);
      if Succeeds(before, w, maxRetries) {
        SuccessIsGoal(before.value, w, maxRetries);
        SuccessScans(before, w, maxRetries);
      }
    }
  }

  lemma SuccessScans(seg: Option<Segment>, w: World, maxRetries: nat)
    requires Succeeds(seg, w, maxRetries)
    ensures seg.Some? && seg.value.tree.Some? && Matched(w, seg.value.tree.value).Some?
  {
    hide Matched, Inserted, Deleted, Readied;
  }

  lemma BetweenAgain(before: set<Id>, after: set<Id>, middle: set<Id>, members: set<Id>)
    requires Between(before, after, middle) && Between(middle, after, members)
    ensures Between(before, after, members)
  {
  }

  lemma FrozenGoal(seg: Segment, w: World, contacts: Contacts)
    requires Frozen(w, contacts) && seg.tree.Some?
    ensures Goal(seg, w) == Selection(contacts, seg.tree.value) || Goal(seg, w) == seg.members
  {
    hide Matched, Selection;
    if Matched(w, seg.tree.value).Some? { FrozenMatched(w, contacts, seg.tree.value); }
  }

  /** The i-th of the refreshes ran to its end. */
  ghost predicate SucceedsAt(seg: Segment, ws: seq<World>, i: nat, maxRetries: nat)
    requires i < |ws|
  {
    Succeeds(RefreshAll(Some(seg), ws[..i], maxRetries), ws[i], maxRetries)
  }

  /** On contacts that do not change, any number of refreshes, each stopping anywhere: the members
      stay between the old and the new ones, and from the first refresh that ran to its end on they
      are the new ones. */
  lemma {:induction false} Converges(seg: Segment, ws: seq<World>, maxRetries: nat, contacts: Contacts)
    requires seg.tree.Some? && forall i :: 0 <= i < |ws| ==> Frozen(ws[i], contacts)
    ensures var s, final := RefreshAll(Some(seg), ws, maxRetries), Selection(contacts, seg.tree.value);
            && s.Some? && s.value.tree == seg.tree && Between(seg.members, final, s.value.members)
            && ((exists i :: 0 <= i < |ws| && SucceedsAt(seg, ws, i, maxRetries)) ==>
                  s.value.members == final)
    decreases |ws|
  {
    hide Refresh, Selection, Frozen;
    if ws != [] {
      var n, front, w := |ws| - 1, ws[..|ws| - 1], ws[|ws| - 1];
      Converges(seg, front, maxRetries, contacts);
      var before := RefreshAll(Some(seg), front, maxRetries);
      NeverOutside(before.value, w, maxRetries);
      var final := Selection(contacts, seg.tree.value);
      FrozenGoal(before.value, w, contacts);
      BetweenAgain(seg.members, final, before.value.members, Refresh(before, w, maxRetries).0.value.members);
      if i: nat :| i < |ws| && SucceedsAt(seg, ws, i, maxRetries) {
        if i < n {
          assert ws[..i] == front[..i] && ws[i] == front[i];
          assert SucceedsAt(seg, front, i, maxRetries);
        } else {
          IndexAgrees(before, w, maxRetries, contacts);
        }
      }
    }
  }

  /** A refresh of a segment that is up to date writes no membership row. */
  lemma SecondWritesNothing(seg: Segment, w: World, maxRetries: nat, contacts: Contacts)
    requires Frozen(w, contacts) && seg.tree.Some? && seg.members == Selection(contacts, seg.tree.value)
    ensures var s := Refresh(Some(seg), w, maxRetries).0;
            s.Some? && s.value.members == seg.members && s.value.written == seg.written
  {
    hide Scan, Matched, Selected, Eval;
    if Matched(w, seg.tree.value).Some? { FrozenMatched(w, contacts, seg.tree.value); }
  }
}
