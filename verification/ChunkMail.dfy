/** How often each single recipient is mailed. A recipient is named by its place in the plan:
    recipient `i` of chunk `c`. */
module ChunkMail {
  import opened CampaignTables
  import opened ChunkMachine
  import opened ChunkAccounting
  import opened ChunkCompletion

  /** The handler of chunk `c` is at its recipient `i`. */
  predicate Serving(s: State, c: nat, i: nat) {
    c < |s.mail| && s.mail[c].Busy? && s.mail[c].work.next == i
  }

  /** SES has accepted the recipient's mail, and the next statement is the `sent` write. */
  predicate Unwritten(s: State, c: nat, i: nat) {
    Serving(s, c, i) && s.mail[c].work.pc.AtRecordSent?
  }

  /** SES accepts a mail to the recipient. */
  predicate Accepts(s: State, step: Step, c: nat, i: nat) {
    step == Ses(c, Accepted) && Serving(s, c, i)
  }

  /** The `sent` write fails, or the handler dies before it. */
  predicate Loses(s: State, step: Step, c: nat, i: nat) {
    (step == Record(c, false) || step == Crash(c)) && Unwritten(s, c, i)
  }

  function AcceptedFor(plan: Plan, s: State, steps: seq<Step>, c: nat, i: nat): nat
    requires ValidRun(plan, s, steps)
    decreases |steps|
  {
    if steps == [] then 0
    else
      var before := steps[..|steps| - 1];
      AcceptedFor(plan, s, before, c, i) + if Accepts(Run(plan, s, before), steps[|steps| - 1], c, i) then 1 else 0
  }

  function LostFor(plan: Plan, s: State, steps: seq<Step>, c: nat, i: nat): nat
    requires ValidRun(plan, s, steps)
    decreases |steps|
  {
    if steps == [] then 0
    else
      var before := steps[..|steps| - 1];
      LostFor(plan, s, before, c, i) + if Loses(Run(plan, s, before), steps[|steps| - 1], c, i) then 1 else 0
  }

  /** Whether the recipient's row is delivered or is about to be. */
  function Mailed(plan: Plan, s: State, c: nat, i: nat): nat
    requires c < |plan| && i < |plan[c]| && plan[c][i] in s.rows
  {
    (if Delivered(s.rows[plan[c][i]]) then 1 else 0) + if Unwritten(s, c, i) then 1 else 0
  }

  ghost predicate Placed(plan: Plan, s: State, c: nat, i: nat) {
    c < |plan| == |s.mail| && i < |plan[c]| && plan[c][i] in s.rows
  }

  /** The change of one statement. */
  ghost predicate Books(plan: Plan, s: State, step: Step, c: nat, i: nat)
    requires Enabled(plan, s, step) && Placed(plan, s, c, i) && Placed(plan, Next(plan, s, step), c, i)
  {
    Mailed(plan, Next(plan, s, step), c, i) + (if Loses(s, step, c, i) then 1 else 0)
    == Mailed(plan, s, c, i) + if Accepts(s, step, c, i) then 1 else 0
  }

  lemma StaysPlaced(plan: Plan, s: State, step: Step, c: nat, i: nat)
    requires Enabled(plan, s, step) && Placed(plan, s, c, i)
    ensures Placed(plan, Next(plan, s, step), c, i)
  {
  }

  lemma EnvironmentBooks(plan: Plan, s: State, step: Step, c: nat, i: nat)
    requires Enabled(plan, s, step) && Placed(plan, s, c, i) && Placed(plan, Next(plan, s, step), c, i)
    requires step.SetTotal? || step.Bounce?
    ensures Books(plan, s, step, c, i)
  {
  }

  /** A step of another chunk. */
  lemma OtherStepBooks(plan: Plan, s: State, step: Step, c: nat, i: nat)
    requires Inv(plan, s) && Enabled(plan, s, step) && Placed(plan, s, c, i) && Placed(plan, Next(plan, s, step), c, i)
    requires !step.SetTotal? && !step.Bounce? && step.c != c
    ensures Books(plan, s, step, c, i)
  {
    hide Next, Enabled, HandlerSound, Target;
    var d := step.c;
    StepIsLocal(plan, s, step);
    TargetInChunk(plan, s, d);
    ElsewhereIsOther(plan, s, c, i, d, Target(plan[d], s.mail[d]));
    ChunkStep(plan, s, step);
  }

  lemma ElsewhereIsOther(plan: Plan, s: State, c: nat, i: nat, d: nat, r: Rid)
    requires Inv(plan, s) && c < |plan| && i < |plan[c]| && d < |plan| && d != c && r in plan[d]
    ensures plan[c][i] != r
  {
    var j :| 0 <= j < |plan[d]| && plan[d][j] == r;
  }

  /** A step of the chunk itself. */
  lemma OwnStepBooks(plan: Plan, s: State, step: Step, c: nat, i: nat)
    requires Local(plan, s, c) && Distinct(plan[c]) && Enabled(plan, s, step)
    requires Placed(plan, s, c, i) && Placed(plan, Next(plan, s, step), c, i)
    requires !step.SetTotal? && !step.Bounce? && step.c == c
    ensures Books(plan, s, step, c, i)
  {
  }

  /** Main result: whatever fails, however chunks are redelivered and interleave, SES accepts a
      mail to a recipient exactly once if its row is delivered or about to be, plus once for each
      of its `sent` writes that failed or was never reached. */
  lemma {:induction false} MailsPerRecipient(plan: Plan, s: State, steps: seq<Step>, c: nat, i: nat)
    requires Init(plan, s) && ValidRun(plan, s, steps) && c < |plan| && i < |plan[c]|
    ensures var e := Run(plan, s, steps);
            && Placed(plan, e, c, i)
            && AcceptedFor(plan, s, steps, c, i) == Mailed(plan, e, c, i) + LostFor(plan, s, steps, c, i)
            && Mailed(plan, e, c, i) <= 1
    decreases |steps|
  {
    hide Init, Inv, Mailed, Accepts, Loses;
    if steps == [] {
      NothingMailed(plan, s, c, i);
    } else {
      var before, step := steps[..|steps| - 1], steps[|steps| - 1];
      MailsPerRecipient(plan, s, before, c, i);
      Conservation(plan, s, before);
      var b := Run(plan, s, before);
      StaysPlaced(plan, b, step, c, i);
      ChunkOf(plan, b, c);
      if step.SetTotal? || step.Bounce? {
        EnvironmentBooks(plan, b, step, c, i);
      } else if step.c != c {
        OtherStepBooks(plan, b, step, c, i);
      } else {
        OwnStepBooks(plan, b, step, c, i);
      }
      Conservation(plan, s, steps);
      AtMostOne(plan, Run(plan, s, steps), c, i);
    }
  }

  lemma NothingMailed(plan: Plan, s: State, c: nat, i: nat)
    requires Init(plan, s) && c < |plan| && i < |plan[c]|
    ensures Placed(plan, s, c, i) && Mailed(plan, s, c, i) == 0
  {
  }

  lemma ChunkOf(plan: Plan, s: State, c: nat)
    requires Inv(plan, s) && c < |plan|
    ensures Local(plan, s, c) && Distinct(plan[c])
  {
  }

  lemma AtMostOne(plan: Plan, s: State, c: nat, i: nat)
    requires Inv(plan, s) && Placed(plan, s, c, i)
    ensures Mailed(plan, s, c, i) <= 1
  {
    assert HandlerSound(plan[c], s.rows, s.mail[c]);
  }

  /** With `sent` writes succeeding and no handler dying between the acceptance and that write,
      no recipient is mailed twice, and a delivered one was mailed exactly once. */
  lemma {:induction false} MailedOnce(plan: Plan, s: State, steps: seq<Step>, c: nat, i: nat)
    requires Init(plan, s) && ValidRun(plan, s, steps) && c < |plan| && i < |plan[c]|
    requires LostFor(plan, s, steps, c, i) == 0
    ensures var e := Run(plan, s, steps);
            && Placed(plan, e, c, i)
            && AcceptedFor(plan, s, steps, c, i) <= 1
            && (Delivered(e.rows[plan[c][i]]) ==> AcceptedFor(plan, s, steps, c, i) == 1)
  {
    MailsPerRecipient(plan, s, steps, c, i);
  }
}
