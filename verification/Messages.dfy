/** What the message handlers have in common: how a message is settled, and how a lock answers. */
module Messages {

  datatype Disposition = Ack | Nak | Term

  datatype LockReply = Acquired | Taken | LockError

  /** The handlers' `nak`: retry, or give up on the last attempt. */
  function NakOrTerm(attempt: nat, maxRetries: nat): Disposition {
    if attempt >= maxRetries then Term else Nak
  }
}
