/** What a workflow definition means: the walk through its nodes, the pauses at delay nodes, and
    when a run stops. Every collaborator call succeeds here; WorkflowExecutor adds failures. */
module WorkflowWalk {
  import opened Wrappers

  type NodeId = string

  /** The node types with the part of their configuration the executor looks at. A delay whose
      duration does not parse has none. */
  datatype Kind =
    | Trigger
    | Email(subject: string, html: string, text: string)
    | Delay(duration: Option<int>)
    | End
    | Unknown

  datatype Node = Node(id: NodeId, kind: Kind, next: NodeId)

  type NodeMap = map<NodeId, Node>

  /** Nodes indexed by id; of two nodes with one id the later one counts. */
  function Indexed(nodes: seq<Node>): NodeMap {
    if nodes == [] then map[]
    else Indexed(nodes[..|nodes| - 1])[nodes[|nodes| - 1].id := nodes[|nodes| - 1]]
  }

  ghost predicate WellIndexed(m: NodeMap) {
    forall id :: id in m ==> m[id].id == id
  }

  lemma {:induction false} IndexedIsWell(nodes: seq<Node>)
    ensures WellIndexed(Indexed(nodes))
    decreases |nodes|
  {
    if nodes != [] { IndexedIsWell(nodes[..|nodes| - 1]); }
  }

  datatype Ending = Completed | Failed

  /** What comes after a node: go on, stop, or pause at a delay. */
  datatype Turn = Go(next: NodeId) | Stop(ending: Ending) | Pause

  function Onward(next: NodeId): Turn {
    if next == "" then Stop(Completed) else Go(next)
  }

  predicate Sendable(kind: Kind)
    requires kind.Email?
  {
    kind.subject != "" && (kind.html != "" || kind.text != "")
  }

  function TurnAt(m: NodeMap, id: NodeId): Turn {
    if id !in m then Stop(Failed)
    else
      var node := m[id];
      match node.kind
      case Trigger => Onward(node.next)
      case Email(_, _, _) => if Sendable(node.kind) then Onward(node.next) else Stop(Failed)
      case Delay(duration) => if duration.Some? then Pause else Stop(Failed)
      case End => Stop(Completed)
      case Unknown => Stop(Failed)
  }

  /** The mails a node publishes, named by node; a contact without an address gets none. */
  function MailsAt(m: NodeMap, id: NodeId, hasEmail: bool): seq<NodeId> {
    if id in m && m[id].kind.Email? && Sendable(m[id].kind) && hasEmail then [id] else []
  }

  // ---------------------------------------------------------------------------------------
  // The uninterrupted walk
  // ---------------------------------------------------------------------------------------

  datatype Place = At(id: NodeId) | Done(ending: Ending)

  datatype Config = Config(place: Place, mails: seq<NodeId>)

  /** One node of the walk that treats delays as no-ops. */
  function Tick(m: NodeMap, hasEmail: bool, c: Config): Config {
    if c.place.Done? then c
    else
      var id := c.place.id;
      var mails := c.mails + MailsAt(m, id, hasEmail);
      match TurnAt(m, id)
      case Go(next) => Config(At(next), mails)
      case Stop(ending) => Config(Done(ending), mails)
      case Pause => Config(if m[id].next == "" then Done(Completed) else At(m[id].next), mails)
  }

  function Ticks(m: NodeMap, hasEmail: bool, c: Config, n: nat): Config
    decreases n
  {
    if n == 0 then c else Ticks(m, hasEmail, Tick(m, hasEmail, c), n - 1)
  }

  lemma {:induction false} TicksAdd(m: NodeMap, hasEmail: bool, c: Config, a: nat, b: nat)
    ensures Ticks(m, hasEmail, c, a + b) == Ticks(m, hasEmail, Ticks(m, hasEmail, c, a), b)
    decreases a
  {
    if a > 0 { TicksAdd(m, hasEmail, Tick(m, hasEmail, c), a - 1, b); }
  }

  lemma {:induction false} DoneStays(m: NodeMap, hasEmail: bool, c: Config, n: nat)
    requires c.place.Done?
    ensures Ticks(m, hasEmail, c, n) == c
    decreases n
  {
    if n > 0 { DoneStays(m, hasEmail, c, n - 1); }
  }

  // ---------------------------------------------------------------------------------------
  // Run, pausing at delays
  // ---------------------------------------------------------------------------------------

  datatype RunEnd = Waiting(delay: NodeId) | Ended(ending: Ending) | OutOfFuel

  /** One Run call: the mails it publishes, how it ends, and how many nodes it went past. */
  datatype RunResult = RunResult(mails: seq<NodeId>, end: RunEnd, nodes: nat)

  /** Run from `id`, looking at no more than `fuel` nodes. */
  function RunFrom(m: NodeMap, hasEmail: bool, id: NodeId, fuel: nat): RunResult
    decreases fuel
  {
    if fuel == 0 then RunResult([], OutOfFuel, 0)
    else
      match TurnAt(m, id)
      case Stop(ending) => RunResult(MailsAt(m, id, hasEmail), Ended(ending), 1)
      case Pause => RunResult([], Waiting(id), 0)
      case Go(next) =>
        var rest := RunFrom(m, hasEmail, next, fuel - 1);
        RunResult(MailsAt(m, id, hasEmail) + rest.mails, rest.end, rest.nodes + 1)
  }

  /** A Run that stops or pauses did what that many ticks of the walk do. */
  lemma {:induction false} RunIsTicks(m: NodeMap, hasEmail: bool, id: NodeId, fuel: nat, mails: seq<NodeId>)
    requires !RunFrom(m, hasEmail, id, fuel).end.OutOfFuel?
    ensures var r := RunFrom(m, hasEmail, id, fuel);
            Ticks(m, hasEmail, Config(At(id), mails), r.nodes)
            == Config(if r.end.Waiting? then At(r.end.delay) else Done(r.end.ending), mails + r.mails)
    ensures var end := RunFrom(m, hasEmail, id, fuel).end; end.Waiting? ==> TurnAt(m, end.delay).Pause?
    decreases fuel
  {
    var c := Config(At(id), mails);
    var r := RunFrom(m, hasEmail, id, fuel);
    match TurnAt(m, id)
    case Stop(ending) => assert Ticks(m, hasEmail, c, 1) == Tick(m, hasEmail, c);
    case Pause => assert mails + [] == mails;
    case Go(next) =>
      var rest := RunFrom(m, hasEmail, next, fuel - 1);
      RunIsTicks(m, hasEmail, next, fuel - 1, mails + MailsAt(m, id, hasEmail));
      assert (mails + MailsAt(m, id, hasEmail)) + rest.mails == mails + (MailsAt(m, id, hasEmail) + rest.mails);
  }

  // ---------------------------------------------------------------------------------------
  // One execution: a trigger run and any number of resumes
  // ---------------------------------------------------------------------------------------

  /** Where the stored execution stands between runs. */
  datatype Stored = Fresh | Paused(delay: NodeId) | Over(ending: Ending)

  datatype Session = Session(stored: Stored, mails: seq<NodeId>)

  /** The trigger's run, or one resume: past the delay node and on until the next pause or the
      end. Finished executions are left alone. */
  function Proceed(m: NodeMap, hasEmail: bool, start: NodeId, s: Session, fuel: nat): Option<Session> {
    var next := if s.stored.Paused? then (if s.stored.delay in m then m[s.stored.delay].next else "") else start;
    match s.stored
    case Over(_) => Some(s)
    case Paused(d) =>
      if d !in m then Some(s.(stored := Over(Failed)))
      else if next == "" then Some(s.(stored := Over(Completed)))
      else Continue(m, hasEmail, next, s.mails, fuel)
    case Fresh => Continue(m, hasEmail, start, s.mails, fuel)
  }

  function Continue(m: NodeMap, hasEmail: bool, id: NodeId, mails: seq<NodeId>, fuel: nat): Option<Session> {
    var r := RunFrom(m, hasEmail, id, fuel);
    match r.end
    case OutOfFuel => None
    case Waiting(d) => Some(Session(Paused(d), mails + r.mails))
    case Ended(e) => Some(Session(Over(e), mails + r.mails))
  }

  /** The trigger's run followed by `resumes` resumes; None if one of the runs does not stop. */
  function Sessions(m: NodeMap, hasEmail: bool, start: NodeId, resumes: nat, fuel: nat): Option<Session> {
    if resumes == 0 then Proceed(m, hasEmail, start, Session(Fresh, []), fuel)
    else
      match Sessions(m, hasEmail, start, resumes - 1, fuel)
      case None => None
      case Some(s) => Proceed(m, hasEmail, start, s, fuel)
  }

  /** The stored execution as a place of the walk. */
  function PlaceOf(start: NodeId, s: Stored): Place {
    match s
    case Fresh => At(start)
    case Paused(d) => At(d)
    case Over(e) => Done(e)
  }

  lemma ProceedIsTicks(m: NodeMap, hasEmail: bool, start: NodeId, s: Session, fuel: nat) returns (n: nat)
    requires s.stored.Paused? ==> TurnAt(m, s.stored.delay).Pause?
    requires Proceed(m, hasEmail, start, s, fuel).Some?
    ensures var s' := Proceed(m, hasEmail, start, s, fuel).value;
            && Ticks(m, hasEmail, Config(PlaceOf(start, s.stored), s.mails), n)
                 == Config(PlaceOf(start, s'.stored), s'.mails)
            && (s'.stored.Paused? ==> TurnAt(m, s'.stored.delay).Pause?)
            && !s'.stored.Fresh?
            && (s.stored.Paused? ==> n > 0)
  {
    var c := Config(PlaceOf(start, s.stored), s.mails);
    match s.stored
    case Over(_) => n := 0;
    case Fresh =>
      n := RunFrom(m, hasEmail, start, fuel).nodes;
      RunIsTicks(m, hasEmail, start, fuel, s.mails);
    case Paused(d) =>
      assert s.mails + [] == s.mails;
      assert Tick(m, hasEmail, c).mails == s.mails;
      if m[d].next == "" {
        n := 1;
        assert Ticks(m, hasEmail, c, 1) == Tick(m, hasEmail, c);
      } else {
        n := 1 + RunFrom(m, hasEmail, m[d].next, fuel).nodes;
        RunIsTicks(m, hasEmail, m[d].next, fuel, s.mails);
      }
  }

  /** Main result: a paused and resumed execution is the uninterrupted walk. After the trigger's
      run and any number of resumes the mails published are, in order, those of the walk up to
      the place the execution is stored at; a paused execution is stored at a delay node; and a
      finished one has the ending of the finished walk. */
  lemma {:induction false} PauseResume(m: NodeMap, hasEmail: bool, start: NodeId, resumes: nat, fuel: nat)
    returns (n: nat)
    requires Sessions(m, hasEmail, start, resumes, fuel).Some?
    ensures var s := Sessions(m, hasEmail, start, resumes, fuel).value;
            && Ticks(m, hasEmail, Config(At(start), []), n) == Config(PlaceOf(start, s.stored), s.mails)
            && (s.stored.Paused? ==> TurnAt(m, s.stored.delay).Pause? && n >= resumes)
            && !s.stored.Fresh?
  {
    if resumes == 0 {
      n := ProceedIsTicks(m, hasEmail, start, Session(Fresh, []), fuel);
    } else {
      var a := PauseResume(m, hasEmail, start, resumes - 1, fuel);
      var s := Sessions(m, hasEmail, start, resumes - 1, fuel).value;
      var b := ProceedIsTicks(m, hasEmail, start, s, fuel);
      TicksAdd(m, hasEmail, Config(At(start), []), a, b);
      n := a + b;
    }
  }

  // ---------------------------------------------------------------------------------------
  // When a Run stops
  // ---------------------------------------------------------------------------------------

  /** The node a Run is at after passing `n` nodes, if it gets that far. */
  function Hop(m: NodeMap, id: NodeId, n: nat): Option<NodeId>
    decreases n
  {
    if n == 0 then Some(id)
    else match TurnAt(m, id)
      case Go(next) => Hop(m, next, n - 1)
      case _ => None
  }

  lemma {:induction false} RunsOutExactly(m: NodeMap, hasEmail: bool, id: NodeId, fuel: nat)
    ensures RunFrom(m, hasEmail, id, fuel).end.OutOfFuel? <==> Hop(m, id, fuel).Some?
    decreases fuel
  {
    if fuel > 0 {
      match TurnAt(m, id)
      case Go(next) => RunsOutExactly(m, hasEmail, next, fuel - 1);
      case _ =>
    }
  }

  lemma {:induction false} HopAdd(m: NodeMap, id: NodeId, a: nat, b: nat)
    ensures Hop(m, id, a + b) == if Hop(m, id, a).None? then None else Hop(m, Hop(m, id, a).value, b)
    decreases a
  {
    if a > 0 {
      match TurnAt(m, id)
      case Go(next) => HopAdd(m, next, a - 1, b);
      case _ =>
    }
  }

  /** A node that comes back after `p` hops comes back for ever. */
  lemma {:induction false} LoopsForEver(m: NodeMap, x: NodeId, p: nat, n: nat)
    requires p > 0 && Hop(m, x, p) == Some(x)
    ensures Hop(m, x, n).Some?
  {
    if n <= p {
      HopAdd(m, x, n, p - n);
    } else {
      LoopsForEver(m, x, p, n - p);
      HopAdd(m, x, p, n - p);
    }
  }

  /** A visit of the same node at two points of a Run. */
  ghost predicate Revisits(m: NodeMap, id: NodeId, i: nat, j: nat) {
    i < j && Hop(m, id, i).Some? && Hop(m, id, i) == Hop(m, id, j)
  }

  lemma RevisitNeverStops(m: NodeMap, id: NodeId, i: nat, j: nat, n: nat)
    requires Revisits(m, id, i, j)
    ensures Hop(m, id, n).Some?
  {
    var x := Hop(m, id, i).value;
    HopAdd(m, id, i, j - i);
    if n < i {
      HopAdd(m, id, n, i - n);
    } else {
      LoopsForEver(m, x, j - i, n - i);
      HopAdd(m, id, i, n - i);
    }
  }

  ghost function HopsBelow(m: NodeMap, id: NodeId, n: nat): set<NodeId>
    requires Hop(m, id, n).Some?
  {
    set i | 0 <= i < n && Hop(m, id, i).Some? :: Hop(m, id, i).value
  }

  /** Nodes passed without a revisit are that many different nodes of the workflow. */
  lemma {:induction false} DistinctHops(m: NodeMap, id: NodeId, n: nat)
    requires Hop(m, id, n).Some?
    requires forall i, j :: 0 <= i < j < n ==> !Revisits(m, id, i, j)
    ensures HopsBelow(m, id, n) <= m.Keys && |HopsBelow(m, id, n)| == n
  {
    if n > 0 {
      HopAdd(m, id, n - 1, 1);
      var x := Hop(m, id, n - 1).value;
      assert TurnAt(m, x).Go? && x in m;
      DistinctHops(m, id, n - 1);
      forall i | 0 <= i < n - 1 && Hop(m, id, i).Some? ensures Hop(m, id, i).value != x {
        assert !Revisits(m, id, i, n - 1);
      }
      assert x !in HopsBelow(m, id, n - 1);
      assert HopsBelow(m, id, n) == HopsBelow(m, id, n - 1) + {x};
    } else {
      assert HopsBelow(m, id, 0) == {};
    }
  }

  /** Main result: a Run that has not stopped or paused after one node more than the workflow
      has never will. It stops exactly when no node comes back, that is when every cycle of
      trigger and email nodes in reach is broken by a delay, an end, a missing or a bad node. */
  lemma StopsByPigeonhole(m: NodeMap, hasEmail: bool, id: NodeId, fuel: nat)
    ensures RunFrom(m, hasEmail, id, |m| + 1).end.OutOfFuel? ==> RunFrom(m, hasEmail, id, fuel).end.OutOfFuel?
    ensures RunFrom(m, hasEmail, id, |m| + 1).end.OutOfFuel? <==> exists i: nat, j: nat :: Revisits(m, id, i, j)
  {
    var N := |m| + 1;
    RunsOutExactly(m, hasEmail, id, N);
    RunsOutExactly(m, hasEmail, id, fuel);
    if Hop(m, id, N).Some? {
      if forall i, j :: 0 <= i < j < N ==> !Revisits(m, id, i, j) {
        DistinctHops(m, id, N);
        SubsetSize(HopsBelow(m, id, N), m.Keys);
        assert false;
      }
      var i, j :| 0 <= i < j < N && Revisits(m, id, i, j);
      RevisitNeverStops(m, id, i, j, fuel);
      assert exists i: nat, j: nat :: Revisits(m, id, i, j);
    } else {
      forall i: nat, j: nat | Revisits(m, id, i, j) ensures false {
        RevisitNeverStops(m, id, i, j, N);
      }
    }
  }

  /** A Run of at most `fuel` nodes comes to `x`. */
  ghost predicate ComesTo(m: NodeMap, id: NodeId, fuel: nat, x: NodeId) {
    exists n: nat :: n < fuel && Hop(m, id, n) == Some(x)
  }

  /** A Run that stops or pauses publishes only mails of nodes it comes to, each once. */
  lemma {:induction false} MailsOnce(m: NodeMap, hasEmail: bool, id: NodeId, fuel: nat)
    requires !RunFrom(m, hasEmail, id, fuel).end.OutOfFuel?
    ensures var mails := RunFrom(m, hasEmail, id, fuel).mails;
            && (forall i, j :: 0 <= i < j < |mails| ==> mails[i] != mails[j])
            && (forall k :: 0 <= k < |mails| ==> ComesTo(m, id, fuel, mails[k]))
    decreases fuel
  {
    RunsOutExactly(m, hasEmail, id, fuel);
    var mails := RunFrom(m, hasEmail, id, fuel).mails;
    assert fuel > 0 && Hop(m, id, 0) == Some(id);
    assert ComesTo(m, id, fuel, id);
    if TurnAt(m, id).Go? {
      var next := TurnAt(m, id).next;
      MailsOnce(m, hasEmail, next, fuel - 1);
      var rest := RunFrom(m, hasEmail, next, fuel - 1).mails;
      assert mails == MailsAt(m, id, hasEmail) + rest;
      forall k | 0 <= k < |rest|
        ensures rest[k] != id && ComesTo(m, id, fuel, rest[k])
      {
        var n: nat :| n < fuel - 1 && Hop(m, next, n) == Some(rest[k]);
        assert Hop(m, id, n + 1) == Some(rest[k]);
        if rest[k] == id {
          RevisitNeverStops(m, id, 0, n + 1, fuel);
          assert false;
        }
      }
    }
  }

  /** Passing nodes is walking. */
  lemma {:induction false} HopsAreTicks(m: NodeMap, hasEmail: bool, id: NodeId, n: nat, mails: seq<NodeId>)
    requires Hop(m, id, n).Some?
    ensures Ticks(m, hasEmail, Config(At(id), mails), n).place == At(Hop(m, id, n).value)
    decreases n
  {
    if n > 0 {
      var next := TurnAt(m, id).next;
      HopsAreTicks(m, hasEmail, next, n - 1, mails + MailsAt(m, id, hasEmail));
    }
  }

  lemma NotDoneBefore(m: NodeMap, hasEmail: bool, c: Config, a: nat, n: nat)
    requires Ticks(m, hasEmail, c, n).place.Done? && Ticks(m, hasEmail, c, a).place.At?
    ensures a < n
  {
    if n <= a {
      TicksAdd(m, hasEmail, c, n, a - n);
      DoneStays(m, hasEmail, Ticks(m, hasEmail, c, n), a - n);
    }
  }

  /** If the uninterrupted walk ends within `n` nodes, every run of the execution stops. */
  lemma {:induction false} EveryRunStops(m: NodeMap, hasEmail: bool, start: NodeId, resumes: nat, n: nat, fuel: nat)
    requires Ticks(m, hasEmail, Config(At(start), []), n).place.Done? && fuel > n
    ensures Sessions(m, hasEmail, start, resumes, fuel).Some?
  {
    var c0 := Config(At(start), []);
    if resumes == 0 {
      RunsOutExactly(m, hasEmail, start, fuel);
      if Hop(m, start, fuel).Some? {
        HopsAreTicks(m, hasEmail, start, fuel, []);
        NotDoneBefore(m, hasEmail, c0, fuel, n);
      }
    } else {
      EveryRunStops(m, hasEmail, start, resumes - 1, n, fuel);
      var s := Sessions(m, hasEmail, start, resumes - 1, fuel).value;
      var a := PauseResume(m, hasEmail, start, resumes - 1, fuel);
      if s.stored.Paused? && m[s.stored.delay].next != "" {
        var next := m[s.stored.delay].next;
        RunsOutExactly(m, hasEmail, next, fuel);
        if Hop(m, next, fuel).Some? {
          var c := Ticks(m, hasEmail, c0, a);
          TicksAdd(m, hasEmail, c0, a, 1 + fuel);
          assert Tick(m, hasEmail, c).place == At(next);
          HopsAreTicks(m, hasEmail, next, fuel, Tick(m, hasEmail, c).mails);
          NotDoneBefore(m, hasEmail, c0, a + (1 + fuel), n);
        }
      }
    }
  }

  /** The converse: if the uninterrupted walk is over after `n` nodes, so is the execution after
      that many resumes, with the same mails and the same ending. */
  lemma ResumesFinish(m: NodeMap, hasEmail: bool, start: NodeId, n: nat, fuel: nat)
    requires Ticks(m, hasEmail, Config(At(start), []), n).place.Done?
    requires fuel > n
    ensures Sessions(m, hasEmail, start, n + 1, fuel).Some?
    ensures var c := Ticks(m, hasEmail, Config(At(start), []), n);
            Sessions(m, hasEmail, start, n + 1, fuel).value == Session(Over(c.place.ending), c.mails)
  {
    var c0 := Config(At(start), []);
    EveryRunStops(m, hasEmail, start, n + 1, n, fuel);
    var s := Sessions(m, hasEmail, start, n + 1, fuel).value;
    var k := PauseResume(m, hasEmail, start, n + 1, fuel);
    if k >= n {
      TicksAdd(m, hasEmail, c0, n, k - n);
      DoneStays(m, hasEmail, Ticks(m, hasEmail, c0, n), k - n);
    } else {
      TicksAdd(m, hasEmail, c0, k, n - k);
      DoneStays(m, hasEmail, Ticks(m, hasEmail, c0, k), n - k);
    }
  }
}
