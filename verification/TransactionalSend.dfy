/** Transactional mail: one email_sends row, one message, redelivered up to six times, and bounces
    reported in between. */
module TransactionalSend {
  import opened Wrappers
  import opened Messages
  import opened Renderer

  const MAX_ATTEMPTS: nat := 6

  datatype SendStatus = Queued | Sending | Sent | Failed | Bounced

  predicate Delivered(s: SendStatus) { s.Sent? || s.Bounced? }

  /** The guarded updates of the row; None is a send that has no row. */
  function MarkSending(row: Option<SendStatus>): Option<SendStatus> {
    if row.Some? && (row.value.Queued? || row.value.Failed? || row.value.Sending?) then Some(Sending) else row
  }

  function MarkSent(row: Option<SendStatus>): Option<SendStatus> {
    if row.Some? && !row.value.Bounced? then Some(Sent) else row
  }

  function MarkFailed(row: Option<SendStatus>): Option<SendStatus> {
    if row.Some? && !Delivered(row.value) then Some(Failed) else row
  }

  /** SES as the worker sees it; an acceptance whose reply is lost is a transient error to it. */
  datatype SesReply = Accepted | PermanentError | TransientError

  /** What the collaborators answer during one delivery, and whether the broker learns of the
      message's settlement. A worker that dies is one whose remaining calls fail. */
  datatype Replies = Replies(
    statusOk: bool,
    limiterOk: bool,
    sendingOk: bool,
    ses: SesReply,
    writeOk: bool,
    settled: bool)

  /** `pending`: the broker still has the message. `accepted` counts SES acceptances, `doubleLost`
      those of which neither the row write nor the settlement took place, `deadLetters` the
      messages sent to the dead-letter subject. */
  datatype Send = Send(
    row: Option<SendStatus>,
    pending: bool,
    deliveries: nat,
    accepted: nat,
    doubleLost: nat,
    deadLetters: nat)

  predicate Reached(row: Option<SendStatus>, r: Replies) {
    r.statusOk && !(row.Some? && Delivered(row.value)) && r.limiterOk && r.sendingOk
  }

  /** How a delivery's message is settled. */
  function Disposed(row: Option<SendStatus>, attempt: nat, r: Replies): Disposition {
    if !r.statusOk then Nak
    else if row.Some? && Delivered(row.value) then Ack
    else if !Reached(row, r) then Nak
    else match r.ses
      case Accepted => Ack
      case PermanentError => Ack
      case TransientError => if attempt >= MAX_ATTEMPTS then Term else Nak
  }

  function RowAfter(row: Option<SendStatus>, attempt: nat, r: Replies): Option<SendStatus> {
    if !Reached(row, r) then row
    else
      var sending := MarkSending(row);
      if !r.writeOk then sending
      else match r.ses
        case Accepted => MarkSent(sending)
        case PermanentError => MarkFailed(sending)
        case TransientError => if attempt >= MAX_ATTEMPTS then MarkFailed(sending) else sending
  }

  function AfterDelivery(s: Send, r: Replies): Send {
    var attempt := s.deliveries + 1;
    var disposition := Disposed(s.row, attempt, r);
    var accepts := Reached(s.row, r) && r.ses.Accepted?;
    Send(RowAfter(s.row, attempt, r),
         !(r.settled && !disposition.Nak?),
         attempt,
         if accepts then s.accepted + 1 else s.accepted,
         if accepts && !r.writeOk && !r.settled then s.doubleLost + 1 else s.doubleLost,
         if Reached(s.row, r) && disposition.Term? then s.deadLetters + 1 else s.deadLetters)
  }

  // ---------------------------------------------------------------------------------------
  // The handler
  // ---------------------------------------------------------------------------------------

  class Worker {
    var row: Option<SendStatus>
    var pending: bool
    var deliveries: nat
    var accepted: nat
    var doubleLost: nat
    var deadLetters: nat
    var inbox: seq<Rendered>

    function Now(): Send reads this { Send(row, pending, deliveries, accepted, doubleLost, deadLetters) }

    constructor (row: Option<SendStatus>)
      ensures Now() == Send(row, true, 0, 0, 0, 0) && inbox == []
    {
      this.row := row;
      pending, deliveries, accepted, doubleLost, deadLetters, inbox := true, 0, 0, 0, 0, [];
    }

    /** markFailedAndPublishEvent, as far as the row goes. */
    method UpdateFailed(ok: bool)
      modifies this`row
      ensures row == if ok then MarkFailed(old(row)) else old(row)
    {
      if ok { row := MarkFailed(row); }
    }

    method SendEmail(mail: Rendered, reply: SesReply)
      modifies this`accepted, this`inbox
      ensures accepted == if reply.Accepted? then old(accepted) + 1 else old(accepted)
      ensures inbox == if reply.Accepted? then old(inbox) + [mail] else old(inbox)
    {
      if reply.Accepted? { accepted, inbox := accepted + 1, inbox + [mail]; }
    }

    /** From the status check to the settlement the handler decides on. */
    method Process(attempt: nat, mail: Payload, r: Replies) returns (disposition: Disposition)
      requires mail.html != "" || mail.text != ""
      modifies this`row, this`accepted, this`deadLetters, this`inbox
      ensures row == RowAfter(old(row), attempt, r) && disposition == Disposed(old(row), attempt, r)
      ensures accepted == if Reached(old(row), r) && r.ses.Accepted? then old(accepted) + 1 else old(accepted)
      ensures deadLetters == if Reached(old(row), r) && disposition.Term? then old(deadLetters) + 1
                else old(deadLetters)
      ensures accepted == old(accepted) ==> inbox == old(inbox)
      ensures accepted > old(accepted) ==> inbox == old(inbox) + [Render(mail).value]
    {
      if !r.statusOk { return Nak; }
      if row.Some? && Delivered(row.value) { return Ack; }
      if !r.limiterOk { return Nak; }
      if !r.sendingOk { return Nak; }
      row := MarkSending(row);
      var rendered := Render(mail).value;
      SendEmail(rendered, r.ses);
      match r.ses {
        case PermanentError =>
          UpdateFailed(r.writeOk);
          return Ack;
        case TransientError =>
          if attempt < MAX_ATTEMPTS { return Nak; }
          deadLetters := deadLetters + 1;
          UpdateFailed(r.writeOk);
          return Term;
        case Accepted =>
          if r.writeOk { row := MarkSent(row); }
          return Ack;
      }
    }

    /** One delivery of the message. */
    method Handle(mail: Payload, r: Replies) returns (disposition: Disposition)
      requires pending && deliveries < MAX_ATTEMPTS && (mail.html != "" || mail.text != "")
      modifies this
      ensures Now() == AfterDelivery(old(Now()), r)
      ensures disposition == Disposed(old(row), old(deliveries) + 1, r)
      ensures inbox == if accepted > old(accepted) then old(inbox) + [Render(mail).value] else old(inbox)
    {
      deliveries := deliveries + 1;
      ghost var before := accepted;
      var reached := Reached(row, r);
      disposition := Process(deliveries, mail, r);
      if reached && r.ses.Accepted? && !r.writeOk && !r.settled { doubleLost := doubleLost + 1; }
      pending := !(r.settled && !disposition.Nak?);
    }
  }

  // ---------------------------------------------------------------------------------------
  // Runs
  // ---------------------------------------------------------------------------------------

  datatype Event = Deliver(replies: Replies) | Bounce

  predicate Enabled(s: Send, e: Event) { e.Deliver? ==> s.pending && s.deliveries < MAX_ATTEMPTS }

  function Apply(s: Send, e: Event): Send {
    match e
    case Deliver(r) => AfterDelivery(s, r)
    case Bounce => if s.row.Some? then s.(row := Some(Bounced)) else s
  }

  predicate ValidRun(s: Send, es: seq<Event>)
    decreases |es|
  {
    es == [] || (Enabled(s, es[0]) && ValidRun(Apply(s, es[0]), es[1..]))
  }

  function Run(s: Send, es: seq<Event>): Send
    requires ValidRun(s, es)
    decreases |es|
  {
    if es == [] then s else Run(Apply(s, es[0]), es[1..])
  }

  /** What each delivery does, by what the collaborators answered. Until SES is asked nothing is
      written, and the message is settled only if the mail was out already. From there on the reply
      decides: accepted mails are `sent` and refused ones `failed`, both acked; a transient error is
      retried until the sixth delivery fails the send, dead-letters the message and terminates it.
      If the outcome's write fails the row stays `sending`. */
  lemma DeliveryOutcome(s: Send, r: Replies)
    ensures var s', out := AfterDelivery(s, r), s.row == Some(Sent) || s.row == Some(Bounced);
            var last := s.deliveries + 1 >= 6;
            var disposition := Disposed(s.row, s.deliveries + 1, r);
            if !r.statusOk || out || !r.limiterOk || !r.sendingOk then
              && s'.row == s.row && s'.accepted == s.accepted && s'.deadLetters == s.deadLetters
              && disposition == (if r.statusOk && out then Ack else Nak)
              && (s'.pending <==> !r.statusOk || !out || !r.settled)
            else
              && s'.accepted == s.accepted + (if r.ses.Accepted? then 1 else 0)
              && s'.deadLetters == s.deadLetters + (if r.ses.TransientError? && last then 1 else 0)
              && disposition == (if !r.ses.TransientError? then Ack else if last then Term else Nak)
              && (s'.pending <==> (r.ses.TransientError? && !last) || !r.settled)
              && s'.row == (if s.row.None? then None
                            else if !r.writeOk || (r.ses.TransientError? && !last) then Some(Sending)
                            else if r.ses.Accepted? then Some(Sent) else Some(Failed))
    ensures AfterDelivery(s, r).deliveries == s.deliveries + 1
  {
  }

  /** Deliveries in which nothing fails but SES. */
  function Smooth(replies: seq<SesReply>): seq<Event> {
    seq(|replies|, i requires 0 <= i < |replies| => Deliver(Replies(true, true, true, replies[i], true, true)))
  }

  /** If nothing else fails, the first reply that is not transient decides a new send, and six
      transient ones fail and dead-letter it. */
  lemma {:induction false} FirstReplyDecides(s: Send, replies: seq<SesReply>)
    requires s.pending && (s.row == Some(Queued) || s.row == Some(Sending)) && replies != []
    requires s.deliveries + |replies| <= 6
    requires forall i :: 0 <= i < |replies| - 1 ==> replies[i].TransientError?
    requires replies[|replies| - 1].TransientError? ==> s.deliveries + |replies| == 6
    ensures var last := replies[|replies| - 1];
            && ValidRun(s, Smooth(replies))
            && Run(s, Smooth(replies))
                 == Send(Some(if last.Accepted? then Sent else Failed), false, s.deliveries + |replies|,
                         s.accepted + (if last.Accepted? then 1 else 0), s.doubleLost,
                         s.deadLetters + (if last.TransientError? then 1 else 0))
    decreases |replies|
  {
    var es := Smooth(replies);
    DeliveryOutcome(s, es[0].replies);
    assert es[1..] == Smooth(replies[1..]);
    if |replies| > 1 {
      FirstReplyDecides(Apply(s, es[0]), replies[1..]);
    }
  }

  function NewSend(status: SendStatus): Send { Send(Some(status), true, 0, 0, 0, 0) }

  /** Every acceptance so far was lost twice over, or just one was not, and then the row or the
      broker remembers it. */
  ghost predicate Accounted(s: Send) {
    && s.row.Some?
    && (s.accepted == s.doubleLost || (s.accepted == s.doubleLost + 1 && (!s.pending || Delivered(s.row.value))))
  }

  lemma {:induction false} AccountedAlways(s: Send, es: seq<Event>)
    requires Accounted(s) && ValidRun(s, es)
    ensures Accounted(Run(s, es))
    decreases |es|
  {
    if es != [] { AccountedAlways(Apply(s, es[0]), es[1..]); }
  }

  /** Main result: of all SES acceptances of one send at most one leaves a trace. So a second
      acceptance requires that both the `sent` write and the settlement of the one before it were
      lost, a third that this happened twice, and so on, whatever fails and whatever bounces. */
  lemma AtMostOneKept(status: SendStatus, es: seq<Event>)
    requires ValidRun(NewSend(status), es)
    ensures var s := Run(NewSend(status), es); s.doubleLost <= s.accepted <= s.doubleLost + 1
    ensures var s := Run(NewSend(status), es);
            s.row.Some? && (s.accepted > s.doubleLost ==> !s.pending || Delivered(s.row.value))
  {
    AccountedAlways(NewSend(status), es);
  }

  function StartingAt(row: Option<SendStatus>): Send { Send(row, true, 0, 0, 0, 0) }

  /** And it is having a row that makes this so: the bound holds of every run exactly if the send
      starts with a row. */
  lemma BoundExactly(row: Option<SendStatus>)
    ensures row.Some? <==>
              forall es :: ValidRun(StartingAt(row), es) ==>
                  Run(StartingAt(row), es).accepted <= Run(StartingAt(row), es).doubleLost + 1
  {
    if row.Some? {
      forall es | ValidRun(StartingAt(row), es)
        ensures Run(StartingAt(row), es).accepted <= Run(StartingAt(row), es).doubleLost + 1
      {
        AccountedAlways(StartingAt(row), es);
      }
    } else {
      var es := MissingRowRepeats(StartingAt(row), 2);
      assert ValidRun(StartingAt(row), es);
    }
  }

  /** `sent` and `bounced` are never left for `sending` or `failed`, and `bounced` for nothing. */
  lemma {:induction false} DeliveredForEver(s: Send, es: seq<Event>)
    requires ValidRun(s, es) && s.row.Some? && Delivered(s.row.value)
    ensures Run(s, es).row.Some? && Delivered(Run(s, es).row.value)
    ensures s.row.value.Bounced? ==> Run(s, es).row == s.row
    ensures Run(s, es).accepted == s.accepted
    decreases |es|
  {
    if es != [] { DeliveredForEver(Apply(s, es[0]), es[1..]); }
  }

  /** A send without a row is accepted again whenever a settlement is lost: its writes succeed and
      change nothing. */
  lemma {:induction false} MissingRowRepeats(s: Send, n: nat) returns (es: seq<Event>)
    requires s.row.None? && s.pending && s.deliveries + n <= MAX_ATTEMPTS
    ensures ValidRun(s, es)
    ensures Run(s, es) == s.(deliveries := s.deliveries + n, accepted := s.accepted + n)
    decreases n
  {
    if n == 0 {
      es := [];
    } else {
      var unsettled := Deliver(Replies(true, true, true, Accepted, true, false));
      var rest := MissingRowRepeats(Apply(s, unsettled), n - 1);
      es := [unsettled] + rest;
      assert es[1..] == rest;
    }
  }

  /** The bound is tight: each double loss can bring one more acceptance. */
  lemma {:induction false} DoubleLossRepeats(n: nat) returns (es: seq<Event>)
    requires n <= MAX_ATTEMPTS
    ensures ValidRun(NewSend(Queued), es)
    ensures Run(NewSend(Queued), es) == Send(Some(if n == 0 then Queued else Sending), true, n, n, n, 0)
  {
    es := LoseFrom(NewSend(Queued), n);
  }

  lemma {:induction false} LoseFrom(s: Send, n: nat) returns (es: seq<Event>)
    requires s.pending && s.row.Some? && !Delivered(s.row.value) && s.deliveries + n <= MAX_ATTEMPTS
    ensures ValidRun(s, es)
    ensures Run(s, es)
              == Send(if n == 0 then s.row
                  else Some(Sending), true, s.deliveries + n, s.accepted + n, s.doubleLost + n, s.deadLetters)
    decreases n
  {
    if n == 0 {
      es := [];
    } else {
      var lost := Deliver(Replies(true, true, true, Accepted, false, false));
      var rest := LoseFrom(Apply(s, lost), n - 1);
      es := [lost] + rest;
      assert es[1..] == rest;
    }
  }

  // ---------------------------------------------------------------------------------------
  // The last delivery
  // ---------------------------------------------------------------------------------------

  /** The send has an outcome. */
  predicate Decided(row: Option<SendStatus>) { row.Some? && (Delivered(row.value) || row.value.Failed?) }

  /** The broker will not deliver the message again. */
  predicate Over(s: Send) { !s.pending || s.deliveries >= MAX_ATTEMPTS }

  /** What the last delivery leaves decided: it decides if it got as far as SES and its row write
      succeeded, a `failed` row that it opened again and could not close is open, and one that it
      did not reach stays as it was. */
  predicate LastDecides(row: Option<SendStatus>, r: Replies) {
    if Reached(row, r) then r.writeOk else Decided(row)
  }

  /** When the message is gone only a bounce can give the send an outcome. */
  lemma {:induction false} OnlyBouncesLeft(s: Send, more: seq<Event>)
    requires s.row.Some? && Over(s) && ValidRun(s, more)
    ensures var e := Run(s, more);
            && e.deadLetters == s.deadLetters && e.accepted == s.accepted
            && (Decided(e.row) <==> Bounce in more || Decided(s.row))
    decreases |more|
  {
    if more != [] {
      OnlyBouncesLeft(Apply(s, more[0]), more[1..]);
      assert more == [more[0]] + more[1..];
    }
  }

  lemma {:induction false} RowStays(s: Send, es: seq<Event>)
    requires s.row.Some? && ValidRun(s, es)
    ensures Run(s, es).row.Some?
    decreases |es|
  {
    if es != [] { RowStays(Apply(s, es[0]), es[1..]); }
  }

  /** The end of every message: `es` leads to its last delivery, whether that one is settled or the
      sixth, and `more` is what happens after it. The send ends with an outcome exactly if the last
      delivery decided it or a bounce comes in later, and its message is dead-lettered by the last
      delivery exactly if SES refused it then for the time being on the sixth attempt. */
  lemma LastDeliveryDecides(status: SendStatus, es: seq<Event>, r: Replies, more: seq<Event>)
    requires ValidRun(NewSend(status), es)
    requires var s := Run(NewSend(status), es);
             && s.pending && s.deliveries < MAX_ATTEMPTS && Over(AfterDelivery(s, r))
             && ValidRun(AfterDelivery(s, r), more)
    ensures var s := Run(NewSend(status), es);
            var e := Run(AfterDelivery(s, r), more);
            && (Decided(e.row) <==> Bounce in more || LastDecides(s.row, r))
            && (e.deadLetters > s.deadLetters <==> Reached(s.row, r) && r.ses.TransientError?)
  {
    RowStays(NewSend(status), es);
    OnlyBouncesLeft(AfterDelivery(Run(NewSend(status), es), r), more);
  }

  /** An accepted mail whose `sent` write fails is acked: the row stays `sending` for ever, with no
      outcome and no dead letter, after a single delivery. */
  lemma UnwrittenSentIsLost() returns (es: seq<Event>)
    ensures ValidRun(NewSend(Queued), es) && Over(Run(NewSend(Queued), es))
    ensures Run(NewSend(Queued), es) == Send(Some(Sending), false, 1, 1, 0, 0)
  {
    es := [Deliver(Replies(true, true, true, Accepted, false, true))];
    assert es[1..] == [];
  }

  /** All six deliveries can be denied by the limiter: no outcome, no dead letter. */
  lemma LimiterLosesMessage() returns (es: seq<Event>)
    ensures ValidRun(NewSend(Queued), es)
    ensures Run(NewSend(Queued), es) == Send(Some(Queued), true, MAX_ATTEMPTS, 0, 0, 0)
  {
    es := DenyFrom(NewSend(Queued), MAX_ATTEMPTS);
  }

  lemma {:induction false} DenyFrom(s: Send, n: nat) returns (es: seq<Event>)
    requires s.pending && s.row == Some(Queued) && s.deliveries + n <= MAX_ATTEMPTS
    ensures ValidRun(s, es) && Run(s, es) == s.(deliveries := s.deliveries + n)
    decreases n
  {
    if n == 0 {
      es := [];
    } else {
      var denied := Deliver(Replies(true, false, true, Accepted, true, true));
      var rest := DenyFrom(Apply(s, denied), n - 1);
      es := [denied] + rest;
      assert es[1..] == rest;
    }
  }
}
