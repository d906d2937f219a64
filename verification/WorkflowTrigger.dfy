/** The workflow trigger handler under any redeliveries: which delivery decides an execution. */
module WorkflowTrigger {
  import opened Wrappers
  import opened Messages
  import opened WorkflowWalk
  import opened WorkflowExecutor

  /** The columns of the unique index that CreateExecution relies on. */
  datatype Trigger = Trigger(workflow: string, contact: string, event: string)

  /** The workflow as GetWorkflow and ParseWorkflowNodes give it. */
  datatype Loaded = LoadError | Missing | Unpublished | Published(nodes: Option<seq<Node>>)

  /** One delivery of a trigger message with everything the collaborators answer to it. A worker
      that dies in the middle is a delivery whose remaining calls fail. */
  datatype Delivery = Delivery(
    trigger: Trigger,
    attempt: nat,
    loaded: Loaded,
    createOk: bool,
    lock: LockReply,
    hasEmail: bool,
    calls: seq<bool>,
    now: int,
    failOk: bool)

  datatype Tables = Tables(
    index: map<Trigger, ExecId>,
    rows: map<ExecId, Row>,
    outbox: seq<Mail>,
    started: seq<Trigger>,
    nextId: ExecId)

  const NO_TABLES := Tables(map[], map[], [], [], 0)
  const NEW_ROW := Row(Running, "", None)

  // ---------------------------------------------------------------------------------------
  // What one delivery does, by itself
  // ---------------------------------------------------------------------------------------

  /** The delivery gets as far as the insert, and the insert does not fail. */
  predicate Creates(d: Delivery) { d.loaded.Published? && d.createOk }

  /** Given that it inserted the execution, it also starts the first node's run. */
  predicate Starts(d: Delivery) { d.loaded.Published? && d.loaded.nodes.Some? && d.lock.Acquired? }

  function FirstRun(d: Delivery): Trace
    requires Starts(d)
  {
    var nodes := d.loaded.nodes.value;
    Walk(Indexed(nodes), FirstNode(nodes), d.hasEmail, d.calls, d.now, NEW_ROW)
  }

  /** The row that a delivery leaves behind if it is the one that created the execution. */
  function RowLeft(d: Delivery): Row {
    if Starts(d) then
      var t := FirstRun(d);
      if t.result.None? && d.failOk then t.row.(status := FailedExec) else t.row
    else if d.loaded.Published? && d.lock.Acquired? && d.failOk then NEW_ROW.(status := FailedExec)
    else NEW_ROW
  }

  function MailsSent(d: Delivery): seq<NodeId> { if Starts(d) then FirstRun(d).mails else [] }

  predicate RunFails(d: Delivery) { Starts(d) && FirstRun(d).result.None? }

  // ---------------------------------------------------------------------------------------
  // The handler
  // ---------------------------------------------------------------------------------------

  function Handled(s: Tables, d: Delivery): Tables {
    if !Creates(d) || d.trigger in s.index then s
    else
      Tables(s.index[d.trigger := s.nextId],
             s.rows[s.nextId := RowLeft(d)],
             s.outbox + Tagged(s.nextId, MailsSent(d)),
             if Starts(d) then s.started + [d.trigger] else s.started,
             s.nextId + 1)
  }

  function Disposed(s: Tables, d: Delivery, maxRetries: nat): Disposition {
    match d.loaded
    case LoadError => NakOrTerm(d.attempt, maxRetries)
    case Missing => Term
    case Unpublished => Ack
    case Published(nodes) =>
      if !d.createOk then NakOrTerm(d.attempt, maxRetries)
      else if d.trigger in s.index || d.lock.Taken? then Ack
      else if d.lock.LockError? || RunFails(d) then NakOrTerm(d.attempt, maxRetries)
      else if nodes.None? then Term
      else Ack
  }

  /** How a delivery is settled: what cannot be helped is terminated, what is done already or not to be
      done is acked, and a failure is retried until the last attempt, which is terminated. */
  lemma DisposedExactly(s: Tables, d: Delivery, maxRetries: nat)
    ensures var known := d.trigger in s.index;
            var published := d.loaded.Published?;
            var failed := || d.loaded.LoadError? || (published && !d.createOk)
                          || (published && !known && d.lock.LockError?)
                          || (published && !known && d.lock.Acquired? && d.loaded.nodes.Some? && RunFails(d));
            var hopeless := d.loaded.Missing?
                            || (published && d.createOk && !known && d.lock.Acquired? && d.loaded.nodes.None?);
            && (Disposed(s, d, maxRetries) == Nak <==> failed && d.attempt < maxRetries)
            && (Disposed(s, d, maxRetries) == Term <==> hopeless || (failed && d.attempt >= maxRetries))
  {
  }

  /** A delivery whose calls succeed and that creates the execution runs it from the first node of the
      list along the nodes ahead: it publishes their mails, and leaves the execution in the delay it
      came to, completed, or failed. */
  lemma CreatorRunsAlong(s: Tables, d: Delivery, path: seq<NodeId>, maxRetries: nat)
    requires d.loaded.Published? && d.createOk && d.lock.Acquired? && d.failOk && d.trigger !in s.index
    requires d.loaded.nodes.Some? && d.loaded.nodes.value != [] && path != []
    requires var m := Indexed(d.loaded.nodes.value);
             Path(m, path) && path[0] == d.loaded.nodes.value[0].id && EndsThere(m, path)
    requires |d.calls| >= 3 * |path| && forall k :: 0 <= k < |d.calls| ==> d.calls[k]
    ensures var m, s', last := Indexed(d.loaded.nodes.value), Handled(s, d), path[|path| - 1];
            && s'.index == s.index[d.trigger := s.nextId] && s'.nextId == s.nextId + 1
            && s'.outbox == s.outbox + Tagged(s.nextId, if d.hasEmail then EmailsOn(m, path) else [])
            && s'.rows.Keys == s.rows.Keys + {s.nextId}
            && (forall id :: id in s.rows && id != s.nextId ==> s'.rows[id] == s.rows[id])
            && (if last in m && m[last].kind.Delay? && m[last].kind.duration.Some? then
                  && s'.rows[s.nextId] == Row(WaitingForDelay, last, Some(d.now + m[last].kind.duration.value))
                  && Disposed(s, d, maxRetries) == Ack
                else if last in m && (m[last].kind.End? || Passable(m, last)) then
                  s'.rows[s.nextId].status == CompletedExec && Disposed(s, d, maxRetries) == Ack
                else
                  && s'.rows[s.nextId].status == FailedExec
                  && Disposed(s, d, maxRetries) == (if d.attempt < maxRetries then Nak else Term))
  {
    hide Walk, Indexed, Path, EndsThere, EmailsOn, Passable, Tagged;
    var nodes := d.loaded.nodes.value;
    NewRunsAlong(nodes, path, d.hasEmail, d.calls, d.now, NEW_ROW);
    RunsAlong(Indexed(nodes), path, d.hasEmail, d.calls, d.now, NEW_ROW);
  }

  class TriggerHandler {
    const store: ExecutionStore
    const maxRetries: nat
    var index: map<Trigger, ExecId>
    var started: seq<Trigger>
    var nextId: ExecId

    function Now(): Tables reads this, store { Tables(index, store.execs, store.outbox, started, nextId) }

    constructor (maxRetries: nat)
      ensures Now() == NO_TABLES && fresh(store) && this.maxRetries == maxRetries
    {
      this.maxRetries := maxRetries;
      index, started, nextId := map[], [], 0;
      store := new ExecutionStore();
    }

    /** INSERT .. ON CONFLICT DO NOTHING RETURNING id */
    method CreateExecution(trigger: Trigger, ok: bool) returns (err: bool, created: bool, id: ExecId)
      modifies this, store
      ensures err == !ok && created == (ok && trigger !in old(index))
      ensures created ==> id == old(nextId)
      ensures Now() == if created then old(Now()).(index := old(index)[trigger := id], nextId := id + 1,
                                                   rows := old(store.execs)[id := NEW_ROW])
                       else old(Now())
    {
      err, created, id := !ok, ok && trigger !in index, nextId;
      if created {
        index, nextId := index[trigger := id], id + 1;
        store.execs := store.execs[id := NEW_ROW];
      }
    }

    /** One delivery: load, create once, lock, parse, run from the first node. */
    method Handle(d: Delivery) returns (disposition: Disposition)
      modifies this, store
      ensures Now() == Handled(old(Now()), d)
      ensures disposition == Disposed(old(Now()), d, maxRetries)
    {
      hide Walk;
      assert Tagged(nextId, []) == [];
      match d.loaded {
        case LoadError => return NakOrTerm(d.attempt, maxRetries);
        case Missing => return Term;
        case Unpublished => return Ack;
        case Published(nodes) =>
          var err, created, id := CreateExecution(d.trigger, d.createOk);
          if err { return NakOrTerm(d.attempt, maxRetries); }
          if !created { return Ack; }
          match d.lock {
            case Taken => return Ack;
            case LockError => return NakOrTerm(d.attempt, maxRetries);
            case Acquired =>
          }
          if nodes.None? {
            store.FailExecution(id, d.failOk);
            return Term;
          }
          started := started + [d.trigger];
          var result := store.Run(id, FirstNode(nodes.value), nodes.value, d.hasEmail, d.calls, d.now);
          if result.None? {
            store.FailExecution(id, d.failOk);
            return NakOrTerm(d.attempt, maxRetries);
          }
          return Ack;
      }
    }
  }

  // ---------------------------------------------------------------------------------------
  // Any sequence of deliveries
  // ---------------------------------------------------------------------------------------

  function HandledAll(s: Tables, ds: seq<Delivery>): Tables
    decreases |ds|
  {
    if ds == [] then s else Handled(HandledAll(s, ds[..|ds| - 1]), ds[|ds| - 1])
  }

  /** The first delivery of `trigger` that reaches the insert and gets through it. */
  function FirstCreator(ds: seq<Delivery>, trigger: Trigger): Option<Delivery>
    decreases |ds|
  {
    if ds == [] then None
    else
      var before := FirstCreator(ds[..|ds| - 1], trigger);
      var d := ds[|ds| - 1];
      if before.None? && d.trigger == trigger && Creates(d) then Some(d) else before
  }

  function Occurrences<T(==)>(s: seq<T>, x: T): nat
    decreases |s|
  {
    if s == [] then 0 else Occurrences(s[..|s| - 1], x) + (if s[|s| - 1] == x then 1 else 0)
  }

  /** The nodes for which an execution's mails were published, in order. */
  function MailsOf(outbox: seq<Mail>, exec: ExecId): seq<NodeId>
    decreases |outbox|
  {
    if outbox == [] then []
    else
      var last := outbox[|outbox| - 1];
      MailsOf(outbox[..|outbox| - 1], exec) + if last.exec == exec then [last.node] else []
  }

  lemma {:induction false} MailsOfTagged(outbox: seq<Mail>, exec: ExecId, other: ExecId, mails: seq<NodeId>)
    ensures MailsOf(outbox + Tagged(other, mails), exec) == MailsOf(outbox, exec) + if exec == other then mails else []
    decreases |mails|
  {
    var all := outbox + Tagged(other, mails);
    if mails == [] {
      assert all == outbox;
    } else {
      var front := mails[..|mails| - 1];
      assert all[..|all| - 1] == outbox + Tagged(other, front);
      assert all[|all| - 1] == Mail(other, mails[|mails| - 1]);
      assert front + [mails[|mails| - 1]] == mails;
      MailsOfTagged(outbox, exec, other, front);
    }
  }

  /** Where the tables stand with one trigger, given the delivery that decided it. */
  ghost predicate Decided(s: Tables, trigger: Trigger, creator: Option<Delivery>) {
    match creator
    case None => trigger !in s.index && Occurrences(s.started, trigger) == 0
    case Some(d) =>
      && trigger in s.index && s.index[trigger] in s.rows
      && s.rows[s.index[trigger]] == RowLeft(d)
      && MailsOf(s.outbox, s.index[trigger]) == MailsSent(d)
      && Occurrences(s.started, trigger) == if Starts(d) then 1 else 0
  }

  /** Executions are told apart by their ids. */
  ghost predicate Keyed(s: Tables) {
    && (forall t :: t in s.index ==> s.index[t] < s.nextId && s.index[t] in s.rows)
    && (forall t, u :: t in s.index && u in s.index && s.index[t] == s.index[u] ==> t == u)
    && (forall id :: id >= s.nextId ==> MailsOf(s.outbox, id) == [])
  }

  lemma HandledKeepsKeyed(s: Tables, d: Delivery)
    requires Keyed(s)
    ensures Keyed(Handled(s, d))
  {
    hide RowLeft, MailsSent;
    if Creates(d) && d.trigger !in s.index {
      forall id | id >= s.nextId + 1 ensures MailsOf(Handled(s, d).outbox, id) == [] {
        MailsOfTagged(s.outbox, id, s.nextId, MailsSent(d));
      }
    }
  }

  lemma HandledDecidesOwn(s: Tables, d: Delivery, before: Option<Delivery>)
    requires Keyed(s) && Decided(s, d.trigger, before) && Creates(d) && d.trigger !in s.index
    ensures before.None? && Decided(Handled(s, d), d.trigger, Some(d))
  {
    hide RowLeft, MailsSent, Starts;
    if Starts(d) { assert Handled(s, d).started[..|s.started|] == s.started; }
    MailsOfTagged(s.outbox, s.nextId, s.nextId, MailsSent(d));
    assert MailsOf(s.outbox, s.nextId) == [];
    assert [] + MailsSent(d) == MailsSent(d);
  }

  lemma HandledLeavesOthers(s: Tables, d: Delivery, trigger: Trigger, before: Option<Delivery>)
    requires Keyed(s) && Decided(s, trigger, before) && d.trigger != trigger
    ensures Decided(Handled(s, d), trigger, before)
  {
    hide RowLeft, MailsSent, Starts;
    if Creates(d) && d.trigger !in s.index {
      if Starts(d) { assert Handled(s, d).started[..|s.started|] == s.started; }
      if before.Some? { MailsOfTagged(s.outbox, s.index[trigger], s.nextId, MailsSent(d)); }
    }
  }

  lemma HandledDecides(s: Tables, d: Delivery, trigger: Trigger, before: Option<Delivery>)
    requires Keyed(s) && Decided(s, trigger, before)
    ensures Decided(Handled(s, d), trigger,
                    if before.None? && d.trigger == trigger && Creates(d) then Some(d) else before)
  {
    hide RowLeft, MailsSent, Starts, MailsOf, Occurrences;
    if d.trigger != trigger {
      HandledLeavesOthers(s, d, trigger, before);
    } else if Creates(d) && d.trigger !in s.index {
      HandledDecidesOwn(s, d, before);
    }
  }

  /** Main result: over any deliveries of any triggers, in any order and however often each is
      redelivered, an execution is exactly what its first creating delivery made it. Its first
      node's run is started once if that very delivery also got the lock and could parse the
      nodes, and otherwise never. */
  lemma {:induction false} DecidedByFirstCreator(ds: seq<Delivery>, trigger: Trigger)
    ensures Keyed(HandledAll(NO_TABLES, ds))
    ensures Decided(HandledAll(NO_TABLES, ds), trigger, FirstCreator(ds, trigger))
    decreases |ds|
  {
    hide Keyed, Decided, Handled;
    if ds == [] {
      NothingDecided(trigger);
    } else {
      var front, d := ds[..|ds| - 1], ds[|ds| - 1];
      DecidedByFirstCreator(front, trigger);
      HandledKeepsKeyed(HandledAll(NO_TABLES, front), d);
      HandledDecides(HandledAll(NO_TABLES, front), d, trigger, FirstCreator(front, trigger));
    }
  }

  lemma NothingDecided(trigger: Trigger)
    ensures Keyed(NO_TABLES) && Decided(NO_TABLES, trigger, None)
  {
  }

  /** At most one first-node run per workflow, contact and event. */
  lemma StartsAtMostOnce(ds: seq<Delivery>, trigger: Trigger)
    ensures Occurrences(HandledAll(NO_TABLES, ds).started, trigger) <= 1
  {
    DecidedByFirstCreator(ds, trigger);
  }

  /** An execution is stuck in `running`, at whatever node, over any further deliveries, exactly if
      the delivery that created it did not get the lock, or could not parse the nodes or got an
      error from the executor and then could not record the failure. */
  lemma StuckExactly(ds: seq<Delivery>, trigger: Trigger)
    requires FirstCreator(ds, trigger).Some?
    ensures var s, d := HandledAll(NO_TABLES, ds), FirstCreator(ds, trigger).value;
            trigger in s.index && s.index[trigger] in s.rows
            && (s.rows[s.index[trigger]].status.Running? <==>
                  !d.lock.Acquired? || (!d.failOk && (!Starts(d) || RunFails(d))))
  {
    DecidedByFirstCreator(ds, trigger);
    CreatorCreates(ds, trigger);
    FirstRunShapes(FirstCreator(ds, trigger).value);
  }

  lemma FirstRunShapes(d: Delivery)
    ensures Starts(d) ==> (RunFails(d) <==> FirstRun(d).row.status.Running?)
  {
    if Starts(d) {
      var nodes := d.loaded.nodes.value;
      WalkShapes(Indexed(nodes), FirstNode(nodes), d.hasEmail, d.calls, d.now, NEW_ROW);
    }
  }

  /** The first node cannot be executed, or one of the calls it needs is refused. */
  predicate FailsAtOnce(d: Delivery)
    requires Starts(d)
  {
    var nodes := d.loaded.nodes.value;
    RefusedAt(Indexed(nodes), FirstNode(nodes), d.hasEmail, d.calls)
  }

  lemma FirstRunMoves(d: Delivery)
    requires Starts(d)
    ensures FirstRun(d).row == NEW_ROW <==> FailsAtOnce(d)
  {
    var nodes := d.loaded.nodes.value;
    FirstWrite(Indexed(nodes), FirstNode(nodes), d.hasEmail, d.calls, d.now, NEW_ROW);
  }

  /** Among the stuck, those that never moved at all: the failure came before the first row
      write. */
  lemma UntouchedExactly(ds: seq<Delivery>, trigger: Trigger)
    requires FirstCreator(ds, trigger).Some?
    ensures var s, d := HandledAll(NO_TABLES, ds), FirstCreator(ds, trigger).value;
            trigger in s.index && s.index[trigger] in s.rows
            && (s.rows[s.index[trigger]] == NEW_ROW <==>
                  !d.lock.Acquired? || (!d.failOk && (!Starts(d) || FailsAtOnce(d))))
  {
    hide Walk;
    DecidedByFirstCreator(ds, trigger);
    CreatorCreates(ds, trigger);
    var d := FirstCreator(ds, trigger).value;
    FirstRunShapes(d);
    if Starts(d) { FirstRunMoves(d); }
  }

  lemma {:induction false} CreatorCreates(ds: seq<Delivery>, trigger: Trigger)
    ensures FirstCreator(ds, trigger).Some? ==>
              FirstCreator(ds, trigger).value.trigger == trigger && Creates(FirstCreator(ds, trigger).value)
    decreases |ds|
  {
    if ds != [] { CreatorCreates(ds[..|ds| - 1], trigger); }
  }
}
