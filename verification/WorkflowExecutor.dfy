/** The executor against a database and a broker that may refuse any call. `calls` says, in
    order, which of a run's collaborator calls succeed; once it is used up the context is over
    and every further call fails. */
module WorkflowExecutor {
  import opened Wrappers
  import opened WorkflowWalk

  type ExecId = nat

  datatype ExecStatus = Running | WaitingForDelay | CompletedExec | FailedExec

  /** A workflow_executions row; current is "" until the execution has moved. */
  datatype Row = Row(status: ExecStatus, current: NodeId, nextRunAt: Option<int>)

  /** A published mail; its message id is built from these two. */
  datatype Mail = Mail(exec: ExecId, node: NodeId)

  /** A run's effect: the row it leaves, the mails it publishes, and the status it returns or
      None for an error. */
  datatype Trace = Trace(row: Row, mails: seq<NodeId>, result: Option<ExecStatus>)

  function Prefixed(mails: seq<NodeId>, t: Trace): Trace { t.(mails := mails + t.mails) }

  predicate Granted(calls: seq<bool>) { calls != [] && calls[0] }

  /** The node is done; move on to the next one or complete. */
  function Leave(m: NodeMap, next: NodeId, hasEmail: bool, calls: seq<bool>, now: int, row: Row,
                 mails: seq<NodeId>): Trace
    decreases |calls|, 0
  {
    if !Granted(calls) then Trace(row, mails, None)
    else if next == "" then Trace(row.(status := CompletedExec), mails, Some(CompletedExec))
    else
      Prefixed(mails, Walk(m, next, hasEmail, calls[1..], now, Row(Running, next, row.nextRunAt)))
  }

  /** Run from node `id`. */
  function Walk(m: NodeMap, id: NodeId, hasEmail: bool, calls: seq<bool>, now: int, row: Row): Trace
    decreases |calls|, 1
  {
    if id !in m then Trace(row, [], None)
    else
      var node := m[id];
      match node.kind
      case Trigger => Leave(m, node.next, hasEmail, calls, now, row, [])
      case Email(_, _, _) =>
        // the contact is loaded before the configuration is looked at
        if !Granted(calls) || !Sendable(node.kind) then Trace(row, [], None)
        else if !hasEmail then Leave(m, node.next, hasEmail, calls[1..], now, row, [])
        else if !Granted(calls[1..]) then Trace(row, [], None)
        else Leave(m, node.next, hasEmail, calls[2..], now, row, [id])
      case Delay(duration) =>
        if duration.None? || !Granted(calls) then Trace(row, [], None)
        else Trace(Row(WaitingForDelay, id, Some(now + duration.value)), [], Some(WaitingForDelay))
      case End => if Granted(calls) then Trace(row.(status := CompletedExec), [], Some(CompletedExec))
          else Trace(row, [], None)
      case Unknown => Trace(row, [], None)
  }

  /** ResumeFromDelay */
  function Resume(m: NodeMap, hasEmail: bool, calls: seq<bool>, now: int, row: Row): Trace {
    if row.current !in m then Trace(row, [], None)
    else Leave(m, m[row.current].next, hasEmail, calls, now, row, [])
  }

  function Tagged(exec: ExecId, mails: seq<NodeId>): seq<Mail> {
    seq(|mails|, i requires 0 <= i < |mails| => Mail(exec, mails[i]))
  }

  /** Where the run of a new execution starts. */
  function FirstNode(nodes: seq<Node>): NodeId { if nodes == [] then "" else nodes[0].id }

  method BuildNodeMap(nodes: seq<Node>) returns (m: NodeMap)
    ensures m == Indexed(nodes)
  {
    m := map[];
    for i := 0 to |nodes|
      invariant m == Indexed(nodes[..i])
    {
      assert nodes[..i + 1][..i] == nodes[..i];
      m := m[nodes[i].id := nodes[i]];
    }
    assert nodes[..|nodes|] == nodes;
  }

  /** An id stands for the last node of the list that has it, and for none if no node has it. */
  lemma {:induction false} IndexedLast(nodes: seq<Node>, id: NodeId)
    ensures id in Indexed(nodes) <==> exists i :: 0 <= i < |nodes| && nodes[i].id == id
    ensures forall i :: 0 <= i < |nodes| && nodes[i].id == id && (forall j :: i < j < |nodes| ==> nodes[j].id != id) ==>
              Indexed(nodes)[id] == nodes[i]
  {
    if nodes != [] {
      var front := nodes[..|nodes| - 1];
      IndexedLast(front, id);
      assert nodes == front + [nodes[|nodes| - 1]];
      assert nodes[|nodes| - 1].id == id ==> exists i :: 0 <= i < |nodes| && nodes[i].id == id;
      assert forall i :: 0 <= i < |front| ==> nodes[i] == front[i];
    }
  }

  class ExecutionStore {
    var execs: map<ExecId, Row>
    var outbox: seq<Mail>

    constructor ()
      ensures execs == map[] && outbox == []
    {
      execs, outbox := map[], [];
    }

    method AdvanceExecution(exec: ExecId, node: NodeId, ok: bool)
      requires exec in execs
      modifies this`execs
      ensures execs == if ok then old(execs)[exec := Row(Running, node, old(execs)[exec].nextRunAt)] else old(execs)
    {
      if ok { execs := execs[exec := execs[exec].(status := Running, current := node)]; }
    }

    method ScheduleDelay(exec: ExecId, node: NodeId, at: int, ok: bool)
      requires exec in execs
      modifies this`execs
      ensures execs == if ok then old(execs)[exec := Row(WaitingForDelay, node, Some(at))] else old(execs)
    {
      if ok { execs := execs[exec := Row(WaitingForDelay, node, Some(at))]; }
    }

    method CompleteExecution(exec: ExecId, ok: bool)
      requires exec in execs
      modifies this`execs
      ensures execs == if ok then old(execs)[exec := old(execs)[exec].(status := CompletedExec)] else old(execs)
    {
      if ok { execs := execs[exec := execs[exec].(status := CompletedExec)]; }
    }

    method FailExecution(exec: ExecId, ok: bool)
      requires exec in execs
      modifies this`execs
      ensures execs == if ok then old(execs)[exec := old(execs)[exec].(status := FailedExec)] else old(execs)
    {
      if ok { execs := execs[exec := execs[exec].(status := FailedExec)]; }
    }

    /** executeEmail: load the contact, check the configuration, publish. */
    method ExecuteEmail(exec: ExecId, node: Node, hasEmail: bool, calls: seq<bool>) returns (err: bool, rest: seq<bool>)
      requires node.kind.Email?
      modifies this`outbox
      ensures err == (!Granted(calls) || node.kind.subject == "" || (node.kind.html == "" && node.kind.text == "")
                      || (hasEmail && !Granted(calls[1..])))
      ensures !err ==> rest == if hasEmail then calls[2..] else calls[1..]
      ensures outbox == if !err && hasEmail then old(outbox) + [Mail(exec, node.id)] else old(outbox)
    {
      if !Granted(calls) { return true, []; }
      if !Sendable(node.kind) { return true, []; }
      rest := calls[1..];
      if !hasEmail { return false, rest; }
      if !Granted(rest) { return true, []; }
      outbox := outbox + [Mail(exec, node.id)];
      return false, rest[1..];
    }

    /** What follows a trigger or email node: complete, or advance to the next node. */
    method MoveOn(exec: ExecId, next: NodeId, ok: bool) returns (stopped: bool, result: Option<ExecStatus>)
      requires exec in execs
      modifies this`execs
      ensures stopped == (next == "" || !ok)
      ensures result == if ok && next == "" then Some(CompletedExec) else None
      ensures execs == old(execs)[exec := if !ok then old(execs)[exec]
                                          else if next == "" then old(execs)[exec].(status := CompletedExec)
                                          else Row(Running, next, old(execs)[exec].nextRunAt)]
    {
      if next == "" {
        CompleteExecution(exec, ok);
        return true, if ok then Some(CompletedExec) else None;
      }
      AdvanceExecution(exec, next, ok);
      return !ok, None;
    }

    /** One pass of Run's loop body for node `id`: it either stops the run or hands over to the
        next node. */
    method ExecuteNode(exec: ExecId, m: NodeMap, id: NodeId, hasEmail: bool, calls: seq<bool>, now: int)
      returns (stopped: bool, result: Option<ExecStatus>, next: NodeId, left: seq<bool>, ghost sent: seq<NodeId>)
      requires exec in execs && WellIndexed(m)
      modifies this
      ensures exec in execs && execs == old(execs)[exec := execs[exec]]
      ensures outbox == old(outbox) + Tagged(exec, sent)
      ensures Walk(m, id, hasEmail, calls, now, old(execs)[exec]) ==
                if stopped then Trace(execs[exec], sent, result)
                else Prefixed(sent, Walk(m, next, hasEmail, left, now, execs[exec]))
      ensures !stopped ==> |left| < |calls|
    {
      next, left, sent, result := "", calls, [], None;
      assert Tagged(exec, []) == [];
      if id !in m { return true, None, "", [], []; }
      var node := m[id];
      match node.kind {
        case Delay(duration) =>
          if duration.Some? {
            ScheduleDelay(exec, node.id, now + duration.value, Granted(calls));
            result := if Granted(calls) then Some(WaitingForDelay) else None;
          }
          return true, result, "", [], [];
        case End =>
          CompleteExecution(exec, Granted(calls));
          return true, if Granted(calls) then Some(CompletedExec) else None, "", [], [];
        case Unknown =>
          return true, None, "", [], [];
        case Email(_, _, _) =>
          var err;
          err, left := ExecuteEmail(exec, node, hasEmail, calls);
          if err { return true, None, "", [], []; }
          if hasEmail { sent := [id]; }
        case Trigger =>
      }
      stopped, result := MoveOn(exec, node.next, Granted(left));
      next := node.next;
      if !stopped { left := left[1..]; }
    }

    /** Run: from `start` to the next pause, the end, or an error. */
    method Run(exec: ExecId, start: NodeId, nodes: seq<Node>, hasEmail: bool, calls: seq<bool>, now: int)
      returns (result: Option<ExecStatus>)
      requires exec in execs
      modifies this
      ensures var t := Walk(Indexed(nodes), start, hasEmail, calls, now, old(execs)[exec]);
              && execs == old(execs)[exec := t.row]
              && outbox == old(outbox) + Tagged(exec, t.mails)
              && result == t.result
    {
      hide Walk;
      var m := BuildNodeMap(nodes);
      IndexedIsWell(nodes);
      var currentId, left := start, calls;
      ghost var mails: seq<NodeId> := [];
      ghost var whole := Walk(m, start, hasEmail, calls, now, execs[exec]);
      while true
        invariant exec in execs && execs == old(execs)[exec := execs[exec]]
        invariant outbox == old(outbox) + Tagged(exec, mails)
        invariant whole == Prefixed(mails, Walk(m, currentId, hasEmail, left, now, execs[exec]))
        decreases |left|
      {
        var stopped;
        ghost var sent;
        stopped, result, currentId, left, sent := ExecuteNode(exec, m, currentId, hasEmail, left, now);
        TaggedJoin(exec, mails, sent);
        mails := mails + sent;
        if stopped { return; }
      }
    }

    method ResumeFromDelay(exec: ExecId, nodes: seq<Node>, hasEmail: bool, calls: seq<bool>, now: int)
      returns (result: Option<ExecStatus>)
      requires exec in execs
      modifies this
      ensures var t := Resume(Indexed(nodes), hasEmail, calls, now, old(execs)[exec]);
              && execs == old(execs)[exec := t.row]
              && outbox == old(outbox) + Tagged(exec, t.mails)
              && result == t.result
    {
      var m := BuildNodeMap(nodes);
      assert Tagged(exec, []) == [];
      var row := execs[exec];
      if row.current !in m { return None; }
      var next := m[row.current].next;
      if next == "" {
        CompleteExecution(exec, Granted(calls));
        return if Granted(calls) then Some(CompletedExec) else None;
      }
      AdvanceExecution(exec, next, Granted(calls));
      if !Granted(calls) { return None; }
      result := Run(exec, next, nodes, hasEmail, calls[1..], now);
    }
  }

  lemma TaggedJoin(exec: ExecId, a: seq<NodeId>, b: seq<NodeId>)
    ensures Tagged(exec, a + b) == Tagged(exec, a) + Tagged(exec, b)
    ensures forall t: Trace {:trigger Prefixed(b, t)} :: Prefixed(a, Prefixed(b, t)) == Prefixed(a + b, t)
  {
    forall t: Trace ensures Prefixed(a, Prefixed(b, t)) == Prefixed(a + b, t) {
      assert a + (b + t.mails) == (a + b) + t.mails;
    }
  }

  // ---------------------------------------------------------------------------------------
  // The executor and the walk
  // ---------------------------------------------------------------------------------------

  /** Enough calls for `fuel` nodes, all of which succeed. */
  predicate AllGranted(calls: seq<bool>, fuel: nat) {
    |calls| >= 3 * fuel && forall k :: 0 <= k < |calls| ==> calls[k]
  }

  /** When its calls succeed, Run is the walk's run: same mails, and it pauses, completes or
      fails where the walk does. */
  lemma {:induction false} RunRefinesWalk(m: NodeMap, id: NodeId, hasEmail: bool, calls: seq<bool>, now: int, row: Row,
                                          fuel: nat)
    requires AllGranted(calls, fuel) && !RunFrom(m, hasEmail, id, fuel).end.OutOfFuel?
    ensures var t, r := Walk(m, id, hasEmail, calls, now, row), RunFrom(m, hasEmail, id, fuel);
            && t.mails == r.mails
            && t.result == (match r.end
                            case Waiting(_) => Some(WaitingForDelay)
                            case Ended(Completed) => Some(CompletedExec)
                            case _ => None)
            && (r.end.Waiting? ==>
                 TurnAt(m, r.end.delay).Pause? && t.row.status.WaitingForDelay? && t.row.current == r.end.delay
                                   && t.row.nextRunAt == Some(now + m[r.end.delay].kind.duration.value))
            && (r.end == Ended(Completed) ==> t.row.status.CompletedExec?)
    decreases fuel
  {
    RunIsTicks(m, hasEmail, id, fuel, []);
    if TurnAt(m, id).Go? {
      var next := TurnAt(m, id).next;
      var used := if m[id].kind.Trigger? then 1 else if hasEmail then 3 else 2;
      var rest := calls[used..];
      assert m[id].kind.Email? && hasEmail ==> calls[2..][1..] == rest;
      assert m[id].kind.Email? && !hasEmail ==> calls[1..][1..] == rest;
      RunRefinesWalk(m, next, hasEmail, rest, now, Row(Running, next, row.nextRunAt), fuel - 1);
    }
  }

  // ---------------------------------------------------------------------------------------
  // The executor on the workflow as it is drawn
  // ---------------------------------------------------------------------------------------

  /** A trigger, or an email node with a subject and a body. */
  predicate Passable(m: NodeMap, id: NodeId) {
    id in m && match m[id].kind
               case Trigger => true
               case Email(subject, html, text) => |subject| > 0 && (|html| > 0 || |text| > 0)
               case _ => false
  }

  /** The nodes a run comes to: each but the last is passed and names the next one. */
  predicate Path(m: NodeMap, path: seq<NodeId>) {
    && path != []
    && forall i :: 0 <= i < |path| - 1 ==> Passable(m, path[i]) && path[i + 1] == m[path[i]].next != ""
  }

  /** The run goes no further than the last node. */
  predicate EndsThere(m: NodeMap, path: seq<NodeId>)
    requires path != []
  {
    var last := path[|path| - 1];
    Passable(m, last) ==> m[last].next == ""
  }

  /** The email nodes on the path that have a subject and a body. */
  function EmailsOn(m: NodeMap, path: seq<NodeId>): seq<NodeId> {
    if path == [] then []
    else (if Passable(m, path[0]) && m[path[0]].kind.Email? then [path[0]] else []) + EmailsOn(m, path[1..])
  }

  /** What becomes of the execution at the last node, by what that node is: it waits there with its due
      time, it is completed, or the run errs. */
  ghost predicate EndsAs(m: NodeMap, last: NodeId, now: int, t: Trace) {
    if last in m && m[last].kind.Delay? && m[last].kind.duration.Some? then
      && t.result == Some(WaitingForDelay)
      && t.row == Row(WaitingForDelay, last, Some(now + m[last].kind.duration.value))
    else if last in m && (m[last].kind.End? || Passable(m, last)) then
      t.result == Some(CompletedExec) && t.row.status == CompletedExec
    else t.result == None
  }

  lemma PassesOn(m: NodeMap, id: NodeId, hasEmail: bool, calls: seq<bool>, now: int, row: Row)
    requires Passable(m, id) && m[id].next != "" && |calls| >= 3 && calls[0] && calls[1] && calls[2]
    ensures var next, email := m[id].next, m[id].kind.Email?;
            Walk(m, id, hasEmail, calls, now, row)
            == Prefixed(if email && hasEmail then [id] else [],
                        Walk(m, next, hasEmail, calls[if !email then 1 else if hasEmail then 3 else 2..], now,
                             Row(Running, next, row.nextRunAt)))
  {
    assert calls[2..][1..] == calls[3..] && calls[1..][1..] == calls[2..];
  }

  lemma StopsAt(m: NodeMap, id: NodeId, hasEmail: bool, calls: seq<bool>, now: int, row: Row)
    requires (Passable(m, id) ==> m[id].next == "") && |calls| >= 3 && calls[0] && calls[1] && calls[2]
    ensures var t := Walk(m, id, hasEmail, calls, now, row);
            && EndsAs(m, id, now, t)
            && t.mails == (if hasEmail && Passable(m, id) && m[id].kind.Email? then [id] else [])
            && (t.result == None ==> t.row == row)
  {
  }

  /** A run whose calls succeed publishes the mails of the email nodes on its path, in order, if the
      contact has an address, and none otherwise; and the last node decides what becomes of the
      execution. */
  lemma {:induction false} RunsAlong(m: NodeMap, path: seq<NodeId>, hasEmail: bool, calls: seq<bool>, now: int,
                                     row: Row)
    requires Path(m, path) && EndsThere(m, path)
    requires |calls| >= 3 * |path| && forall k :: 0 <= k < |calls| ==> calls[k]
    ensures var t, last := Walk(m, path[0], hasEmail, calls, now, row), path[|path| - 1];
            && t.mails == (if hasEmail then EmailsOn(m, path) else [])
            && EndsAs(m, last, now, t)
            && (t.result == None ==>
                  if |path| == 1 then t.row == row else t.row.status == Running && t.row.current == last)
    decreases |path|
  {
    hide Walk, EndsAs;
    var id := path[0];
    if |path| > 1 {
      PassesOn(m, id, hasEmail, calls, now, row);
      var rest := calls[if m[id].kind.Trigger? then 1 else if hasEmail then 3 else 2..];
      RunsAlong(m, path[1..], hasEmail, rest, now, Row(Running, path[1], row.nextRunAt));
      EndsPrefixed(m, path[|path| - 1], now, [id],
                   Walk(m, path[1], hasEmail, rest, now, Row(Running, path[1], row.nextRunAt)));
    } else {
      StopsAt(m, id, hasEmail, calls, now, row);
      assert path[1..] == [];
    }
  }

  lemma EndsPrefixed(m: NodeMap, last: NodeId, now: int, mails: seq<NodeId>, t: Trace)
    requires EndsAs(m, last, now, t)
    ensures EndsAs(m, last, now, Prefixed(mails, t)) && EndsAs(m, last, now, Prefixed([], t))
  {
  }

  /** Every run that stops or pauses has such a path, and the walk ends where it does. */
  lemma {:induction false} PathOfRun(m: NodeMap, hasEmail: bool, id: NodeId, fuel: nat) returns (path: seq<NodeId>)
    requires !RunFrom(m, hasEmail, id, fuel).end.OutOfFuel?
    ensures Path(m, path) && path[0] == id && EndsThere(m, path) && |path| <= fuel
    ensures RunFrom(m, hasEmail, id, fuel).mails == if hasEmail then EmailsOn(m, path) else []
    ensures var last := path[|path| - 1];
            RunFrom(m, hasEmail, id, fuel).end ==
            if last in m && m[last].kind.Delay? && m[last].kind.duration.Some? then Waiting(last)
            else if last in m && (m[last].kind.End? || Passable(m, last)) then Ended(Completed)
            else Ended(Failed)
    decreases fuel
  {
    if Passable(m, id) && m[id].next != "" {
      var rest := PathOfRun(m, hasEmail, m[id].next, fuel - 1);
      path := [id] + rest;
      PathPrepend(m, id, rest);
    } else {
      path := [id];
      assert path[1..] == [];
    }
  }

  lemma PathPrepend(m: NodeMap, id: NodeId, rest: seq<NodeId>)
    requires Path(m, rest) && EndsThere(m, rest) && Passable(m, id) && m[id].next == rest[0] != ""
    ensures Path(m, [id] + rest) && EndsThere(m, [id] + rest)
    ensures EmailsOn(m, [id] + rest) == (if m[id].kind.Email? then [id] else []) + EmailsOn(m, rest)
    ensures ([id] + rest)[|rest|] == rest[|rest| - 1]
  {
    assert ([id] + rest)[1..] == rest;
    forall i | 0 <= i < |rest|
      ensures Passable(m, ([id] + rest)[i]) && ([id] + rest)[i + 1] == m[([id] + rest)[i]].next != ""
    {
      if i > 0 { assert ([id] + rest)[i] == rest[i - 1] && ([id] + rest)[i + 1] == rest[i]; }
    }
  }

  /** What a refused call stops: nothing happens at the node, except that a mail already published
      stays published when the execution then cannot be moved. */
  lemma RefusedCalls(m: NodeMap, id: NodeId, hasEmail: bool, calls: seq<bool>, now: int, row: Row)
    requires id in m
    ensures calls == [] || !calls[0] ==> Walk(m, id, hasEmail, calls, now, row) == Trace(row, [], None)
    ensures Passable(m, id) && m[id].kind.Email? && |calls| > 1 && calls[0] && !calls[1] ==>
              Walk(m, id, hasEmail, calls, now, row) == Trace(row, [], None)
    ensures Passable(m, id) && m[id].kind.Email? && hasEmail && |calls| > 2 && calls[0] && calls[1] && !calls[2] ==>
              Walk(m, id, hasEmail, calls, now, row) == Trace(row, [id], None)
  {
  }

  /** The run of a new execution starts at the first node of the list. */
  lemma NewRunsAlong(nodes: seq<Node>, path: seq<NodeId>, hasEmail: bool, calls: seq<bool>, now: int, row: Row)
    requires nodes != [] && Path(Indexed(nodes), path) && path[0] == nodes[0].id && EndsThere(Indexed(nodes), path)
    requires |calls| >= 3 * |path| && forall k :: 0 <= k < |calls| ==> calls[k]
    ensures var t := Walk(Indexed(nodes), FirstNode(nodes), hasEmail, calls, now, row);
            t.mails == if hasEmail then EmailsOn(Indexed(nodes), path) else []
    ensures FirstNode(nodes) == path[0]
  {
    RunsAlong(Indexed(nodes), path, hasEmail, calls, now, row);
  }

  /** A run that succeeded in pausing left the row at a delay node with its due time, and no
      run leaves a row that was not waiting in any other waiting state. */
  lemma {:induction false} WaitsAtDelay(m: NodeMap, id: NodeId, hasEmail: bool, calls: seq<bool>, now: int, row: Row)
    requires !row.status.WaitingForDelay?
    ensures var t := Walk(m, id, hasEmail, calls, now, row);
            t.row.status.WaitingForDelay? ==>
              && t.result == Some(WaitingForDelay)
              && TurnAt(m, t.row.current).Pause?
              && t.row.nextRunAt == Some(now + m[t.row.current].kind.duration.value)
    decreases |calls|
  {
    if id in m && TurnAt(m, id).Go? {
      var next := TurnAt(m, id).next;
      var left := if m[id].kind.Trigger? || calls == [] then calls else if hasEmail && |calls| > 1 then calls[2..]
          else calls[1..];
      if Granted(left) { WaitsAtDelay(m, next, hasEmail, left[1..], now, Row(Running, next, row.nextRunAt)); }
    }
  }

  /** A run that returns a status leaves it in the row, a waiting one with its due time, and a run
      that returns an error leaves the execution running. */
  lemma {:induction false} WalkShapes(m: NodeMap, id: NodeId, hasEmail: bool, calls: seq<bool>, now: int, row: Row)
    requires row.status.Running?
    ensures var t := Walk(m, id, hasEmail, calls, now, row);
            if t.result.None? then t.row.status.Running?
            else
              && t.result.value == t.row.status && !t.row.status.Running?
              && (t.row.status.WaitingForDelay? ==> t.row.nextRunAt.Some?)
    decreases |calls|
  {
    if id in m && TurnAt(m, id).Go? {
      var next := TurnAt(m, id).next;
      var left := if m[id].kind.Trigger? || calls == [] then calls else if hasEmail && |calls| > 1 then calls[2..]
          else calls[1..];
      if Granted(left) { WalkShapes(m, next, hasEmail, left[1..], now, Row(Running, next, row.nextRunAt)); }
    }
  }

  /** An execution that has moved to a node stays at nodes. */
  lemma {:induction false} StaysMoved(m: NodeMap, id: NodeId, hasEmail: bool, calls: seq<bool>, now: int, row: Row)
    requires id != "" && row.current != ""
    ensures Walk(m, id, hasEmail, calls, now, row).row.current != ""
    decreases |calls|
  {
    if id in m && TurnAt(m, id).Go? {
      var next := TurnAt(m, id).next;
      var left := if m[id].kind.Trigger? || calls == [] then calls else if hasEmail && |calls| > 1 then calls[2..]
          else calls[1..];
      if Granted(left) { StaysMoved(m, next, hasEmail, left[1..], now, Row(Running, next, row.nextRunAt)); }
    }
  }

  /** The node cannot be executed, or one of the calls it needs is refused. */
  predicate RefusedAt(m: NodeMap, id: NodeId, hasEmail: bool, calls: seq<bool>) {
    id !in m ||
    match m[id].kind
    case Trigger => !Granted(calls)
    case Email(_, _, _) =>
      !Sendable(m[id].kind) || !Granted(calls) || !Granted(calls[1..]) || (hasEmail && !Granted(calls[2..]))
    case Delay(duration) => duration.None? || !Granted(calls)
    case End => !Granted(calls)
    case Unknown => true
  }

  /** A run leaves a new row as it is exactly if its first node is refused. */
  lemma FirstWrite(m: NodeMap, id: NodeId, hasEmail: bool, calls: seq<bool>, now: int, row: Row)
    requires row.status.Running? && row.current == ""
    ensures Walk(m, id, hasEmail, calls, now, row).row == row <==> RefusedAt(m, id, hasEmail, calls)
  {
    if !RefusedAt(m, id, hasEmail, calls) && TurnAt(m, id).Go? {
      var next := TurnAt(m, id).next;
      var left := if m[id].kind.Trigger? then calls else if hasEmail then calls[2..] else calls[1..];
      StaysMoved(m, next, hasEmail, left[1..], now, Row(Running, next, row.nextRunAt));
    }
  }

  /** Failing calls cut a run short; they never make it publish anything else or in another
      order. */
  lemma {:induction false} FaultsOnlyTruncate(m: NodeMap, id: NodeId, hasEmail: bool, calls: seq<bool>, now: int,
                                              row: Row)
    ensures Walk(m, id, hasEmail, calls, now, row).mails <= RunFrom(m, hasEmail, id, |calls| + 1).mails
    decreases |calls|
  {
    if id in m && TurnAt(m, id).Go? && calls != [] {
      var next := TurnAt(m, id).next;
      var left := if m[id].kind.Trigger? then calls else if hasEmail && |calls| > 1 then calls[2..] else calls[1..];
      if Granted(left) {
        FaultsOnlyTruncate(m, next, hasEmail, left[1..], now, Row(Running, next, row.nextRunAt));
        MoreFuel(m, hasEmail, next, |left|, |calls|);
      }
    }
  }

  lemma {:induction false} MoreFuel(m: NodeMap, hasEmail: bool, id: NodeId, a: nat, b: nat)
    requires a <= b
    ensures RunFrom(m, hasEmail, id, a).mails <= RunFrom(m, hasEmail, id, b).mails
    decreases a
  {
    if a > 0 && TurnAt(m, id).Go? { MoreFuel(m, hasEmail, TurnAt(m, id).next, a - 1, b - 1); }
  }

  /** The stored row of an execution as the walk's session sees it. */
  ghost predicate Shows(t: Trace, s: Stored) {
    match s
    case Fresh => false
    case Paused(d) => t.result == Some(WaitingForDelay) && t.row.status.WaitingForDelay? && t.row.current == d
    case Over(Completed) => t.result == Some(CompletedExec) && t.row.status.CompletedExec?
    case Over(Failed) => t.result == None
  }

  /** The trigger's run on the stored row is the session's first step. */
  lemma TriggerRefines(m: NodeMap, start: NodeId, hasEmail: bool, calls: seq<bool>, now: int, row: Row, fuel: nat)
    requires AllGranted(calls, fuel) && Proceed(m, hasEmail, start, Session(Fresh, []), fuel).Some?
    ensures var s := Proceed(m, hasEmail, start, Session(Fresh, []), fuel).value;
            var t := Walk(m, start, hasEmail, calls, now, row);
            s.mails == t.mails && Shows(t, s.stored)
  {
    RunRefinesWalk(m, start, hasEmail, calls, now, row, fuel);
  }

  /** A resume through the stored current node is the session's next step. */
  lemma ResumeRefines(m: NodeMap, start: NodeId, hasEmail: bool, calls: seq<bool>, now: int, row: Row,
                      mails: seq<NodeId>, fuel: nat)
    requires AllGranted(calls, fuel + 1) && TurnAt(m, row.current).Pause?
    requires Proceed(m, hasEmail, start, Session(Paused(row.current), mails), fuel).Some?
    ensures var s := Proceed(m, hasEmail, start, Session(Paused(row.current), mails), fuel).value;
            var t := Resume(m, hasEmail, calls, now, row);
            s.mails == mails + t.mails && Shows(t, s.stored)
  {
    var next := m[row.current].next;
    if next == "" {
      assert mails + [] == mails;
    } else {
      RunRefinesWalk(m, next, hasEmail, calls[1..], now, Row(Running, next, row.nextRunAt), fuel);
      var t := Walk(m, next, hasEmail, calls[1..], now, Row(Running, next, row.nextRunAt));
      assert [] + t.mails == t.mails;
    }
  }

  /** The stored row stands where the session does. */
  ghost predicate Stands(row: Row, s: Stored) {
    match s
    case Fresh => false
    case Paused(d) => row.status.WaitingForDelay? && row.current == d
    case Over(Completed) => row.status.CompletedExec?
    case Over(Failed) => row.status.FailedExec?
  }

  lemma {:induction false} SessionsBefore(m: NodeMap, hasEmail: bool, start: NodeId, k: nat, resumes: nat, fuel: nat)
    requires k <= resumes && Sessions(m, hasEmail, start, resumes, fuel).Some?
    ensures Sessions(m, hasEmail, start, k, fuel).Some?
    decreases resumes
  {
    if k < resumes { SessionsBefore(m, hasEmail, start, k, resumes - 1, fuel); }
  }

  /** What the scheduler does for an execution that stands at a session: resume it if it waits. */
  method ResumeIfWaiting(store: ExecutionStore, exec: ExecId, nodes: seq<Node>, hasEmail: bool, calls: seq<bool>,
                         now: int,
                         ghost base: seq<Mail>, ghost s: Session, ghost fuel: nat)
    returns (ghost s': Session)
    requires exec in store.execs && Stands(store.execs[exec], s.stored) && store.outbox == base + Tagged(exec, s.mails)
    requires s.stored.Paused? ==> TurnAt(Indexed(nodes), s.stored.delay).Pause?
    requires Proceed(Indexed(nodes), hasEmail, FirstNode(nodes), s, fuel).Some? && AllGranted(calls, fuel + 1)
    modifies store
    ensures Some(s') == Proceed(Indexed(nodes), hasEmail, FirstNode(nodes), s, fuel)
    ensures exec in store.execs && store.execs == old(store.execs)[exec := store.execs[exec]]
    ensures Stands(store.execs[exec], s'.stored) && store.outbox == base + Tagged(exec, s'.mails)
  {
    hide Walk, Resume, Proceed, Indexed, TurnAt;
    ghost var m, start, before := Indexed(nodes), FirstNode(nodes), store.execs[exec];
    s' := Proceed(m, hasEmail, start, s, fuel).value;
    if store.execs[exec].status.WaitingForDelay? {
      assert s == Session(Paused(before.current), s.mails);
      ResumeRefines(m, start, hasEmail, calls, now, before, s.mails, fuel);
      var result := store.ResumeFromDelay(exec, nodes, hasEmail, calls, now);
      TaggedJoin(exec, s.mails, Resume(m, hasEmail, calls, now, before).mails);
      if result.None? { store.FailExecution(exec, true); }
    } else {
      OverStays(m, hasEmail, start, s, fuel);
    }
  }

  /** A whole execution on the store: the trigger's run, then as many resumes as the scheduler finds
      it waiting for, each through the stored row, a failed run recorded by its caller. With the
      calls granted, the mails published are in order those of the uninterrupted walk up to the
      place the row stands at, and a finished row has the walk's ending. */
  method Execute(store: ExecutionStore, exec: ExecId, nodes: seq<Node>, hasEmail: bool, calls: nat -> seq<bool>,
                 now: nat -> int, resumes: nat, ghost fuel: nat)
    returns (ghost s: Session, ghost n: nat)
    requires exec in store.execs
    requires Sessions(Indexed(nodes), hasEmail, FirstNode(nodes), resumes, fuel).Some?
    requires forall k :: AllGranted(calls(k), fuel + 1)
    modifies store
    ensures Some(s) == Sessions(Indexed(nodes), hasEmail, FirstNode(nodes), resumes, fuel)
    ensures store.outbox == old(store.outbox) + Tagged(exec, s.mails)
    ensures exec in store.execs && store.execs == old(store.execs)[exec := store.execs[exec]]
    ensures Stands(store.execs[exec], s.stored)
    ensures Ticks(Indexed(nodes), hasEmail, Config(At(FirstNode(nodes)), []), n)
            == Config(PlaceOf(FirstNode(nodes), s.stored), s.mails)
  {
    hide Walk, Ticks, Proceed, Indexed, RunFrom, Granted, TurnAt, PlaceOf;
    ghost var m, start, row := Indexed(nodes), FirstNode(nodes), store.execs[exec];
    SessionsBefore(m, hasEmail, start, 0, resumes, fuel);
    TriggerRefines(m, start, hasEmail, calls(0), now(0), row, fuel);
    var result := store.Run(exec, FirstNode(nodes), nodes, hasEmail, calls(0), now(0));
    if result.None? { store.FailExecution(exec, true); }
    s := Sessions(m, hasEmail, start, 0, fuel).value;
    for k := 0 to resumes
      invariant Some(s) == Sessions(m, hasEmail, start, k, fuel)
      invariant store.outbox == old(store.outbox) + Tagged(exec, s.mails)
      invariant exec in store.execs && store.execs == old(store.execs)[exec := store.execs[exec]]
      invariant Stands(store.execs[exec], s.stored)
    {
      hide Stands, AllGranted;
      SessionsBefore(m, hasEmail, start, k + 1, resumes, fuel);
      ghost var at := PauseResume(m, hasEmail, start, k, fuel);
      s := ResumeIfWaiting(store, exec, nodes, hasEmail, calls(k + 1), now(k + 1), old(store.outbox), s, fuel);
    }
    n := PauseResume(m, hasEmail, start, resumes, fuel);
  }

  lemma OverStays(m: NodeMap, hasEmail: bool, start: NodeId, s: Session, fuel: nat)
    requires s.stored.Over?
    ensures Proceed(m, hasEmail, start, s, fuel) == Some(s)
  {
  }
}
