/** Keyset pagination as FetchSegmentContactsBatch and StreamContactsForEval do it: each page
    asks for the ids above the last one seen, in order, up to a limit, and the table may change
    between two pages. */
module KeysetScan {
  import opened Wrappers

  /** Contact ids are 128-bit UUIDs, compared as numbers. */
  const ID_SPACE: nat := 0x1_0000_0000_0000_0000_0000_0000_0000_0000

  type Id = i: nat | i < ID_SPACE

  predicate Increasing(s: seq<Id>) {
    forall i, j :: 0 <= i < j < |s| ==> s[i] < s[j]
  }

  ghost function Elements(s: seq<Id>): set<Id> { set x | x in s }

  predicate IsLeast(m: Id, ids: set<Id>) {
    m in ids && forall y :: y in ids ==> m <= y
  }

  lemma {:induction false} LeastExists(ids: set<Id>) returns (m: Id)
    requires ids != {}
    ensures IsLeast(m, ids)
  {
    var x :| x in ids;
    var others := ids - {x};
    if others == {} {
      m := x;
      forall y | y in ids ensures m <= y { assert y !in others; }
    } else {
      m := LeastExists(others);
      if x < m { m := x; }
      forall y | y in ids ensures m <= y { assert y == x || y in others; }
    }
  }

  function Least(ids: set<Id>): (m: Id)
    requires ids != {}
    ensures IsLeast(m, ids)
  {
    assert exists m :: IsLeast(m, ids) by { var m := LeastExists(ids); }
    var m :| m in ids && IsLeast(m, ids);
    m
  }

  /** ORDER BY id */
  function Sorted(ids: set<Id>): (s: seq<Id>)
    ensures forall x :: x in s <==> x in ids
    ensures |s| == |ids|
  {
    if ids == {} then []
    else
      var m := Least(ids);
      assert ids == {m} + (ids - {m});
      [m] + Sorted(ids - {m})
  }

  lemma {:induction false} SortedIncreases(ids: set<Id>)
    ensures Increasing(Sorted(ids))
  {
    if ids != {} {
      var m := Least(ids);
      SortedIncreases(ids - {m});
      Prepend(m, Sorted(ids - {m}));
    }
  }

  lemma Prepend(m: Id, s: seq<Id>)
    requires Increasing(s) && forall x :: x in s ==> m < x
    ensures Increasing([m] + s)
  {
    var c := [m] + s;
    forall i, j | 0 <= i < j < |c| ensures c[i] < c[j] {
      assert c[j] == s[j - 1] && s[j - 1] in s;
    }
  }

  lemma HasElement(s: seq<Id>)
    ensures s == [] || exists x :: x in s
  {
    if s != [] { assert s[0] in s; }
  }

  lemma TailElements(a: seq<Id>)
    requires Increasing(a) && a != []
    ensures forall x :: x in a[1..] <==> x in a && x != a[0]
  {
    forall x | x in a && x != a[0] ensures x in a[1..] {
      var i :| 0 <= i < |a| && a[i] == x;
      assert a[1..][i - 1] == x;
    }
  }

  /** An increasing sequence is determined by its elements. */
  lemma {:induction false} IncreasingUnique(a: seq<Id>, b: seq<Id>)
    requires Increasing(a) && Increasing(b) && forall x :: x in a <==> x in b
    ensures a == b
  {
    if a == [] {
      HasElement(b);
    } else {
      assert a[0] in b && b != [] && b[0] in a;
      assert a[0] == b[0];
      assert a == [a[0]] + a[1..] && b == [b[0]] + b[1..];
      TailElements(a);
      TailElements(b);
      IncreasingUnique(a[1..], b[1..]);
    }
  }

  /** The WHERE clause on the cursor; None is the empty afterID of the first page. */
  function Above(ids: set<Id>, cursor: Option<Id>): set<Id> {
    set x | x in ids && (cursor.None? || x > cursor.value)
  }

  /** One page: the smallest ids above the cursor. */
  function Page(ids: set<Id>, cursor: Option<Id>, limit: nat): (p: seq<Id>)
    ensures Increasing(p) && |p| <= limit
    ensures forall x :: x in p ==> x in Above(ids, cursor) && (cursor.None? || x > cursor.value)
  {
    var all := Sorted(Above(ids, cursor));
    SortedIncreases(Above(ids, cursor));
    if |all| <= limit then all else all[..limit]
  }

  lemma PagePrefix(ids: set<Id>, cursor: Option<Id>, limit: nat)
    ensures var all := Sorted(Above(ids, cursor));
            forall i :: 0 <= i < |all| && i < limit ==> all[i] in Page(ids, cursor, limit)
  {
    var all := Sorted(Above(ids, cursor));
    var p := Page(ids, cursor, limit);
    forall i | 0 <= i < |all| && i < limit ensures all[i] in p {
      assert p[i] == all[i];
    }
  }

  /** What a page leaves out comes after it, and it leaves nothing out unless it is full. */
  lemma PageComplete(ids: set<Id>, cursor: Option<Id>, limit: nat, x: Id)
    requires x in Above(ids, cursor) && x !in Page(ids, cursor, limit)
    ensures |Page(ids, cursor, limit)| == limit
    ensures forall y :: y in Page(ids, cursor, limit) ==> y < x
  {
    var all := Sorted(Above(ids, cursor));
    SortedIncreases(Above(ids, cursor));
    var i :| 0 <= i < |all| && all[i] == x;
    PagePrefix(ids, cursor, limit);
    assert limit <= i;
    forall y | y in all[..limit] ensures y < x {
      var j :| 0 <= j < limit && all[j] == y;
    }
  }

  /** How far the cursor can still move. */
  function Room(cursor: Option<Id>): nat {
    if cursor.None? then ID_SPACE + 1 else ID_SPACE - cursor.value
  }

  function Last(p: seq<Id>): Id
    requires p != []
  {
    p[|p| - 1]
  }

  /** The pages of a scan whose k-th query sees the table `tables(k)`. An empty page ends the
      scan, and so does a short one. */
  function Pages(tables: nat -> set<Id>, k: nat, cursor: Option<Id>, limit: nat): seq<seq<Id>>
    requires limit > 0
    decreases Room(cursor)
  {
    var p := Page(tables(k), cursor, limit);
    if p == [] then []
    else
      assert Last(p) in p;
      if |p| < limit then [p] else [p] + Pages(tables, k + 1, Some(Last(p)), limit)
  }

  function Flatten<T>(pages: seq<seq<T>>): seq<T> {
    if pages == [] then [] else pages[0] + Flatten(pages[1..])
  }

  lemma {:induction false} FlattenAppend<T>(a: seq<seq<T>>, b: seq<seq<T>>)
    ensures Flatten(a + b) == Flatten(a) + Flatten(b)
  {
    if a == [] {
      assert a + b == b;
    } else {
      assert (a + b)[1..] == a[1..] + b;
      FlattenAppend(a[1..], b);
    }
  }

  /** The ids a scan hands out, in order. */
  function Visited(tables: nat -> set<Id>, k: nat, cursor: Option<Id>, limit: nat): seq<Id>
    requires limit > 0
  {
    Flatten<Id>(Pages(tables, k, cursor, limit))
  }

  /** However the table changes between pages, the visited ids strictly increase, so none is
      visited twice. */
  lemma {:induction false} NeverTwice(tables: nat -> set<Id>, k: nat, cursor: Option<Id>, limit: nat)
    requires limit > 0
    ensures Increasing(Visited(tables, k, cursor, limit))
    ensures forall x :: x in Visited(tables, k, cursor, limit) ==> cursor.None? || x > cursor.value
    decreases Room(cursor)
  {
    hide Increasing, Pages, Visited, Sorted;
    var p := Page(tables(k), cursor, limit);
    PagesUnfold(tables, k, cursor, limit);
    if |p| == limit {
      assert Last(p) in p;
      NeverTwice(tables, k + 1, Some(Last(p)), limit);
      JoinAbove(p, Visited(tables, k + 1, Some(Last(p)), limit), cursor);
    }
  }

  lemma JoinAbove(p: seq<Id>, rest: seq<Id>, cursor: Option<Id>)
    requires Increasing(p) && Increasing(rest) && p != []
    requires forall x :: x in p ==> cursor.None? || x > cursor.value
    requires forall x :: x in rest ==> x > Last(p)
    ensures Increasing(p + rest)
    ensures forall x :: x in p + rest ==> cursor.None? || x > cursor.value
  {
    JoinIncreasing(p, rest);
    assert Last(p) in p;
  }

  /** What the scan visits: the first page, and after a full one the rest. */
  lemma PagesUnfold(tables: nat -> set<Id>, k: nat, cursor: Option<Id>, limit: nat)
    requires limit > 0
    ensures var p := Page(tables(k), cursor, limit);
            Visited(tables, k, cursor, limit) ==
              if |p| < limit then p else p + Visited(tables, k + 1, Some(Last(p)), limit)
  {
    var p := Page(tables(k), cursor, limit);
    var pages := Pages(tables, k, cursor, limit);
    if p != [] {
      assert Last(p) in p;
      assert pages[0] == p;
      if |p| < limit {
        assert pages[1..] == [] && Flatten(pages) == p + [];
      } else {
        assert pages[1..] == Pages(tables, k + 1, Some(Last(p)), limit);
      }
    }
  }

  lemma JoinIncreasing(a: seq<Id>, b: seq<Id>)
    requires Increasing(a) && Increasing(b) && a != []
    requires forall x :: x in b ==> x > Last(a)
    ensures Increasing(a + b)
  {
    var c := a + b;
    forall i, j | 0 <= i < j < |c| ensures c[i] < c[j] {
      if i < |a| <= j {
        assert a[i] <= Last(a);
        assert c[j] == b[j - |a|] && b[j - |a|] in b;
      }
    }
  }

  /** An id that is there whenever a page is fetched is visited. */
  lemma {:induction false} StableVisited(tables: nat -> set<Id>, k: nat, cursor: Option<Id>, limit: nat, x: Id)
    requires limit > 0 && (cursor.None? || x > cursor.value)
    requires forall i :: i >= k ==> x in tables(i)
    ensures x in Visited(tables, k, cursor, limit)
    decreases Room(cursor)
  {
    var p := Page(tables(k), cursor, limit);
    PagesUnfold(tables, k, cursor, limit);
    if x !in p {
      PageComplete(tables(k), cursor, limit, x);
      assert Last(p) in p;
      StableVisited(tables, k + 1, Some(Last(p)), limit, x);
    }
  }

  /** Only ids that were there when their page was fetched are visited. */
  lemma {:induction false} VisitedWasThere(tables: nat -> set<Id>, k: nat, cursor: Option<Id>, limit: nat, x: Id)
    requires limit > 0 && x in Visited(tables, k, cursor, limit)
    ensures cursor.None? || x > cursor.value
    ensures exists i :: i >= k && x in tables(i)
    decreases Room(cursor)
  {
    var p := Page(tables(k), cursor, limit);
    PagesUnfold(tables, k, cursor, limit);
    if x !in p {
      assert |p| == limit && Last(p) in p;
      VisitedWasThere(tables, k + 1, Some(Last(p)), limit, x);
    }
  }

  /** With a frozen table the pages concatenate to the sorted table above the cursor. */
  lemma {:induction false} FrozenScan(tables: nat -> set<Id>, ids: set<Id>, k: nat, cursor: Option<Id>, limit: nat)
    requires limit > 0 && forall i :: i >= k ==> tables(i) == ids
    ensures Visited(tables, k, cursor, limit) == Sorted(Above(ids, cursor))
  {
    var visited := Visited(tables, k, cursor, limit);
    NeverTwice(tables, k, cursor, limit);
    forall x: Id ensures x in visited <==> x in Above(ids, cursor) {
      if x in visited { VisitedWasThere(tables, k, cursor, limit, x); }
      if x in Above(ids, cursor) { StableVisited(tables, k, cursor, limit, x); }
    }
    SortedIncreases(Above(ids, cursor));
    IncreasingUnique(visited, Sorted(Above(ids, cursor)));
  }

  /** All pages but the last are full, and none is empty. */
  predicate Paged<T>(pages: seq<seq<T>>, limit: nat) {
    && (forall i :: 0 <= i < |pages| - 1 ==> |pages[i]| == limit)
    && (forall i :: 0 <= i < |pages| ==> 0 < |pages[i]| <= limit)
  }

  lemma {:induction false} PagesArePaged(tables: nat -> set<Id>, k: nat, cursor: Option<Id>, limit: nat)
    requires limit > 0
    ensures Paged(Pages(tables, k, cursor, limit), limit)
    decreases Room(cursor)
  {
    var p := Page(tables(k), cursor, limit);
    if |p| == limit {
      assert Last(p) in p;
      PagesArePaged(tables, k + 1, Some(Last(p)), limit);
    }
  }

  /** The number of pages is the number of elements divided by the page size, rounded up. */
  lemma {:induction false} PageCount<T>(pages: seq<seq<T>>, limit: nat)
    requires limit > 0 && Paged(pages, limit) && pages != []
    ensures limit * (|pages| - 1) < |Flatten(pages)| <= limit * |pages|
  {
    var rest := pages[1..];
    assert |Flatten(pages)| == |pages[0]| + |Flatten(rest)|;
    if rest != [] {
      PageCount(rest, limit);
      assert limit * |pages| == limit * |rest| + limit;
    }
  }
}
