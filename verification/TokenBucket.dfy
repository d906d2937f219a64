/** The Redis token bucket: the Lua script that runs atomically on a {tokens, ts} hash, and the
    Go code that calls it. The clock is in whole milliseconds and the rate is a whole number of
    tokens per second, so counting in thousandths of a token makes the arithmetic exact. */
module TokenBucket {
  import opened Wrappers

  /** The price of one call, in thousandths of a token. */
  const COST := 1000

  /** Redis forgets an idle key after this many milliseconds. */
  const EXPIRY := 3600 * 1000

  /** The hash {tokens, ts}. */
  datatype Entry = Entry(tokens: int, ts: int)

  datatype Reply = Reply(allowed: bool, waitMs: int)

  function Min(a: int, b: int): int { if a <= b then a else b }

  function Max(a: int, b: int): int { if a >= b then a else b }

  /** math.ceil(n / d) for a positive divisor */
  function CeilDiv(n: int, d: int): int
    requires d > 0
  {
    (n + d - 1) / d
  }

  /** What the bucket holds at `now`. A clock that went backwards adds nothing; a missing key
      is a full bucket. */
  function Level(rate: int, capacity: int, e: Option<Entry>, now: int): int {
    match e
    case None => capacity
    case Some(Entry(tokens, ts)) => Min(capacity, tokens + Max(0, now - ts) * rate)
  }

  /** The script: new hash and reply. */
  function Script(rate: int, capacity: int, e: Option<Entry>, now: int): (Entry, Reply)
    requires rate > 0
  {
    var tokens := Level(rate, capacity, e, now);
    if tokens < COST then (Entry(tokens, now), Reply(false, CeilDiv(COST - tokens, rate)))
    else (Entry(tokens - COST, now), Reply(true, 0))
  }

  predicate InRange(capacity: int, e: Option<Entry>) {
    e.Some? ==> 0 <= e.value.tokens <= capacity
  }

  lemma LevelInRange(rate: int, capacity: int, e: Option<Entry>, now: int)
    requires rate > 0 && capacity >= 0 && InRange(capacity, e)
    ensures 0 <= Level(rate, capacity, e, now) <= capacity
  {
    if e.Some? { assert Max(0, now - e.value.ts) * rate >= 0; }
  }

  /** The replies to a history of calls, in order. */
  function Replies(rate: int, capacity: int, e: Option<Entry>, calls: seq<int>): (r: seq<Reply>)
    requires rate > 0
    ensures |r| == |calls|
    decreases |calls|
  {
    if calls == [] then []
    else
      var (e', reply) := Script(rate, capacity, e, calls[0]);
      [reply] + Replies(rate, capacity, Some(e'), calls[1..])
  }

  /** The hash after a history of calls. */
  function After(rate: int, capacity: int, e: Option<Entry>, calls: seq<int>): Option<Entry>
    requires rate > 0
    decreases |calls|
  {
    if calls == [] then e
    else After(rate, capacity, Some(Script(rate, capacity, e, calls[0]).0), calls[1..])
  }

  /** Tokens stay within the bucket, whatever the clock does. */
  lemma {:induction false} TokensInRange(rate: int, capacity: int, e: Option<Entry>, calls: seq<int>)
    requires rate > 0 && capacity >= 0 && InRange(capacity, e)
    ensures InRange(capacity, After(rate, capacity, e, calls))
    decreases |calls|
  {
    if calls != [] {
      LevelInRange(rate, capacity, e, calls[0]);
      TokensInRange(rate, capacity, Some(Script(rate, capacity, e, calls[0]).0), calls[1..]);
    }
  }

  // ---------------------------------------------------------------------------------------
  // Admission bound
  // ---------------------------------------------------------------------------------------

  function Admitted(replies: seq<Reply>): nat
    decreases |replies|
  {
    if replies == [] then 0 else (if replies[0].allowed then 1 else 0) + Admitted(replies[1..])
  }

  /** The sum of the clock's forward steps from `last` through the calls. */
  function Forward(last: int, calls: seq<int>): nat
    decreases |calls|
  {
    if calls == [] then 0 else Max(0, calls[0] - last) + Forward(calls[0], calls[1..])
  }

  /** What the bucket held plus what the clock added pays for every admission. */
  lemma {:induction false} Paid(rate: int, capacity: int, e: Entry, calls: seq<int>)
    requires rate > 0 && capacity >= 0 && InRange(capacity, Some(e))
    ensures COST * Admitted(Replies(rate, capacity, Some(e), calls)) <= e.tokens + Forward(e.ts, calls) * rate
    decreases |calls|
  {
    if calls != [] {
      hide Script, Level;
      var step := Max(0, calls[0] - e.ts);
      var (e', reply) := Script(rate, capacity, Some(e), calls[0]);
      StepPays(rate, capacity, e, calls[0]);
      Paid(rate, capacity, e', calls[1..]);
      Distribute(step, Forward(e'.ts, calls[1..]), rate);
      assert Forward(e.ts, calls) == step + Forward(e'.ts, calls[1..]);
    }
  }

  lemma Distribute(a: int, b: int, c: int)
    ensures (a + b) * c == a * c + b * c
  {
  }

  lemma StepPays(rate: int, capacity: int, e: Entry, now: int)
    requires rate > 0 && capacity >= 0 && InRange(capacity, Some(e))
    ensures var (e', reply) := Script(rate, capacity, Some(e), now);
            && e'.ts == now && InRange(capacity, Some(e'))
            && e'.tokens + (if reply.allowed then COST else 0) <= e.tokens + Max(0, now - e.ts) * rate
  {
    LevelInRange(rate, capacity, Some(e), now);
  }

  lemma {:induction false} RepliesSplit(rate: int, capacity: int, e: Option<Entry>, calls: seq<int>, more: seq<int>)
    requires rate > 0
    ensures Replies(rate, capacity, e, calls + more)
         == Replies(rate, capacity, e, calls) + Replies(rate, capacity, After(rate, capacity, e, calls), more)
    decreases |calls|
  {
    if calls == [] {
      assert calls + more == more;
    } else {
      assert (calls + more)[1..] == calls[1..] + more;
      RepliesSplit(rate, capacity, Some(Script(rate, capacity, e, calls[0]).0), calls[1..], more);
    }
  }

  /** Main result: in any window of any history, even with a clock that goes backwards, the
      admissions cost at most one full bucket plus what the forward clock steps inside the
      window add. */
  lemma AdmissionBound(rate: int, capacity: int, e: Option<Entry>, before: seq<int>, window: seq<int>, later: seq<int>)
    requires rate > 0 && capacity >= 0 && InRange(capacity, e) && window != []
    ensures var replies := Replies(rate, capacity, e, before + window + later)[|before|..|before| + |window|];
            1000 * Admitted(replies) <= capacity + Forward(window[0], window) * rate
  {
    var e1 := After(rate, capacity, e, before);
    TokensInRange(rate, capacity, e, before);
    RepliesSplit(rate, capacity, e, before + window, later);
    RepliesSplit(rate, capacity, e, before, window);
    var replies := Replies(rate, capacity, e1, window);
    assert Replies(rate, capacity, e, before + window + later)[|before|..|before| + |window|] == replies;
    var (e2, reply) := Script(rate, capacity, e1, window[0]);
    LevelInRange(rate, capacity, e1, window[0]);
    Paid(rate, capacity, e2, window[1..]);
    assert Forward(window[0], window) == Forward(e2.ts, window[1..]);
  }

  predicate Monotone(last: int, calls: seq<int>)
    decreases |calls|
  {
    calls == [] || (last <= calls[0] && Monotone(calls[0], calls[1..]))
  }

  lemma {:induction false} ForwardTelescopes(last: int, calls: seq<int>)
    requires Monotone(last, calls)
    ensures Forward(last, calls) == if calls == [] then 0 else calls[|calls| - 1] - last
    decreases |calls|
  {
    if |calls| > 1 { ForwardTelescopes(calls[0], calls[1..]); }
  }

  /** With a clock that never goes back the bound is one bucket plus the rate times the length
      of the window. */
  lemma AdmissionBoundMonotone(rate: int, capacity: int, e: Option<Entry>, before: seq<int>, window: seq<int>,
                               later: seq<int>)
    requires rate > 0 && capacity >= 0 && InRange(capacity, e) && window != [] && Monotone(window[0], window)
    ensures var replies := Replies(rate, capacity, e, before + window + later)[|before|..|before| + |window|];
            1000 * Admitted(replies) <= capacity + (window[|window| - 1] - window[0]) * rate
  {
    AdmissionBound(rate, capacity, e, before, window, later);
    ForwardTelescopes(window[0], window);
  }

  // ---------------------------------------------------------------------------------------
  // Which calls are admitted
  // ---------------------------------------------------------------------------------------

  /** Calls admitted from the `j`-th to before the `n`-th. */
  function AdmittedIn(replies: seq<Reply>, j: nat, n: nat): nat
    requires n <= |replies|
  {
    if n <= j then 0 else AdmittedIn(replies, j, n - 1) + if replies[n - 1].allowed then 1 else 0
  }

  /** The sum of the clock's forward steps from the `j`-th call to the `n`-th. */
  function Steps(calls: seq<int>, j: nat, n: nat): nat
    requires n < |calls|
  {
    if n <= j then 0 else Steps(calls, j, n - 1) + Max(0, calls[n] - calls[n - 1])
  }

  /** What is left of a bucket that was full at the `j`-th call when the `n`-th comes. */
  ghost function LeftOfFull(rate: int, capacity: int, calls: seq<int>, replies: seq<Reply>, j: nat, n: nat): int
    requires n < |calls| == |replies|
  {
    capacity + Steps(calls, j, n) * rate - COST * AdmittedIn(replies, j, n)
  }

  /** What is left of the hash's tokens when the `n`-th call comes, if the bucket never overflows. */
  ghost function LeftOfStart(rate: int, e: Entry, calls: seq<int>, replies: seq<Reply>, n: nat): int
    requires n < |calls| == |replies|
  {
    e.tokens + (Max(0, calls[0] - e.ts) + Steps(calls, 0, n)) * rate - COST * AdmittedIn(replies, 0, n)
  }

  /** One call more in a history. */
  lemma NextReply(rate: int, capacity: int, e: Option<Entry>, calls: seq<int>, n: nat)
    requires rate > 0 && n < |calls|
    ensures var before := After(rate, capacity, e, calls[..n]);
            && Replies(rate, capacity, e, calls)[n] == Script(rate, capacity, before, calls[n]).1
            && After(rate, capacity, e, calls[..n + 1]) == Some(Script(rate, capacity, before, calls[n]).0)
  {
    RepliesSplit(rate, capacity, e, calls[..n], calls[n..]);
    assert calls[..n] + calls[n..] == calls;
    AfterSplit(rate, capacity, e, calls[..n], [calls[n]]);
    assert calls[..n] + [calls[n]] == calls[..n + 1];
  }

  lemma {:induction false} AfterSplit(rate: int, capacity: int, e: Option<Entry>, calls: seq<int>, more: seq<int>)
    requires rate > 0
    ensures After(rate, capacity, e, calls + more) == After(rate, capacity, After(rate, capacity, e, calls), more)
    decreases |calls|
  {
    if calls == [] {
      assert calls + more == more;
    } else {
      assert (calls + more)[1..] == calls[1..] + more;
      AfterSplit(rate, capacity, Some(Script(rate, capacity, e, calls[0]).0), calls[1..], more);
    }
  }

  /** `level` is the least of what is left of the start and of what would be left had the bucket been
      full at any call before. */
  ghost predicate IsLeast(rate: int, capacity: int, e: Option<Entry>, calls: seq<int>, replies: seq<Reply>, n: nat,
                          level: int)
    requires n < |calls| == |replies|
  {
    && (forall j :: 0 <= j <= n ==> level <= LeftOfFull(rate, capacity, calls, replies, j, n))
    && (e.Some? ==> level <= LeftOfStart(rate, e.value, calls, replies, n))
    && ((exists j :: 0 <= j <= n && level == LeftOfFull(rate, capacity, calls, replies, j, n))
        || (e.Some? && level == LeftOfStart(rate, e.value, calls, replies, n)))
  }

  lemma NextLeast(rate: int, capacity: int, e: Option<Entry>, calls: seq<int>, replies: seq<Reply>, n: nat, level: int)
    requires 0 < n < |calls| == |replies| && IsLeast(rate, capacity, e, calls, replies, n - 1, level)
    ensures var change := Max(0, calls[n] - calls[n - 1]) * rate - if replies[n - 1].allowed then COST else 0;
            IsLeast(rate, capacity, e, calls, replies, n, Min(capacity, level + change))
  {
    hide LeftOfFull, LeftOfStart;
    var change := Max(0, calls[n] - calls[n - 1]) * rate - if replies[n - 1].allowed then COST else 0;
    forall j | 0 <= j < n
      ensures LeftOfFull(rate, capacity, calls, replies, j, n)
           == LeftOfFull(rate, capacity, calls, replies, j, n - 1) + change
    {
      NextLeftOfFull(rate, capacity, calls, replies, j, n);
    }
    NextLeftOfFull(rate, capacity, calls, replies, n, n);
    if e.Some? { NextLeftOfStart(rate, e.value, calls, replies, n); }
    if level + change < capacity {
      var m := n - 1;
      if j :| 0 <= j <= m && level == LeftOfFull(rate, capacity, calls, replies, j, m) {
        assert level + change == LeftOfFull(rate, capacity, calls, replies, j, n);
      }
    }
  }

  lemma NextLeftOfFull(rate: int, capacity: int, calls: seq<int>, replies: seq<Reply>, j: nat, n: nat)
    requires 0 < n < |calls| == |replies| && j <= n
    ensures LeftOfFull(rate, capacity, calls, replies, j, n)
         == if j == n then capacity
            else LeftOfFull(rate, capacity, calls, replies, j, n - 1) + Max(0, calls[n] - calls[n - 1]) * rate
                 - if replies[n - 1].allowed then COST else 0
  {
    Distribute(Steps(calls, j, n - 1), Max(0, calls[n] - calls[n - 1]), rate);
  }

  lemma NextLeftOfStart(rate: int, e: Entry, calls: seq<int>, replies: seq<Reply>, n: nat)
    requires 0 < n < |calls| == |replies|
    ensures LeftOfStart(rate, e, calls, replies, n)
         == LeftOfStart(rate, e, calls, replies, n - 1) + Max(0, calls[n] - calls[n - 1]) * rate
            - if replies[n - 1].allowed then COST else 0
  {
    Distribute(Max(0, calls[0] - e.ts) + Steps(calls, 0, n - 1), Max(0, calls[n] - calls[n - 1]), rate);
  }

  /** When the `n`-th call comes the bucket holds exactly that. */
  lemma {:induction false} LevelIsLeast(rate: int, capacity: int, e: Option<Entry>, calls: seq<int>, n: nat)
    requires rate > 0 && capacity >= 0 && InRange(capacity, e) && n < |calls|
    ensures IsLeast(rate, capacity, e, calls, Replies(rate, capacity, e, calls), n,
                    Level(rate, capacity, After(rate, capacity, e, calls[..n]), calls[n]))
    decreases n
  {
    hide Replies, IsLeast;
    if n > 0 {
      LevelIsLeast(rate, capacity, e, calls, n - 1);
      NextReply(rate, capacity, e, calls, n - 1);
      NextLeast(rate, capacity, e, calls, Replies(rate, capacity, e, calls), n,
                Level(rate, capacity, After(rate, capacity, e, calls[..n - 1]), calls[n - 1]));
    } else {
      assert calls[..0] == [];
      FirstLeast(rate, capacity, e, calls, Replies(rate, capacity, e, calls));
    }
  }

  lemma FirstLeast(rate: int, capacity: int, e: Option<Entry>, calls: seq<int>, replies: seq<Reply>)
    requires 0 < |calls| == |replies|
    ensures IsLeast(rate, capacity, e, calls, replies, 0, Level(rate, capacity, e, calls[0]))
  {
    assert LeftOfFull(rate, capacity, calls, replies, 0, 0) == capacity;
  }

  /** Main result, in both directions and for any clock: a call is admitted if and only if, in every
      stretch of the history that ends with it, the admissions and this call cost no more than a full
      bucket and what the clock has added since, nor, from the start, than the bucket then held. */
  lemma AdmittedExactly(rate: int, capacity: int, e: Option<Entry>, calls: seq<int>, n: nat)
    requires rate > 0 && capacity >= 0 && InRange(capacity, e) && n < |calls|
    ensures var replies := Replies(rate, capacity, e, calls);
            replies[n].allowed <==>
            && (forall j :: 0 <= j <= n ==>
                  1000 * (AdmittedIn(replies, j, n) + 1) <= capacity + Steps(calls, j, n) * rate)
            && (e.Some? ==>
                  1000 * (AdmittedIn(replies, 0, n) + 1)
                  <= e.value.tokens + (Max(0, calls[0] - e.value.ts) + Steps(calls, 0, n)) * rate)
  {
    LevelIsLeast(rate, capacity, e, calls, n);
    NextReply(rate, capacity, e, calls, n);
    var replies := Replies(rate, capacity, e, calls);
    if !replies[n].allowed {
      if j :| 0 <= j <= n && Level(rate, capacity, After(rate, capacity, e, calls[..n]), calls[n])
                             == LeftOfFull(rate, capacity, calls, replies, j, n) {
        assert COST * (AdmittedIn(replies, j, n) + 1) > capacity + Steps(calls, j, n) * rate;
      }
    } else {
      forall j | 0 <= j <= n
        ensures COST * (AdmittedIn(replies, j, n) + 1) <= capacity + Steps(calls, j, n) * rate
      {
        assert COST <= LeftOfFull(rate, capacity, calls, replies, j, n);
      }
    }
  }

  /** A limiter configured with `ratePerSec` admits, of the calls that come in one millisecond to a
      bucket nobody has used, exactly the first `ratePerSec`, or the first one if that is less. */
  lemma {:induction false} BurstExactly(ratePerSec: int, now: int, n: nat, k: nat)
    requires k < n
    ensures var rate := ClampRate(ratePerSec);
            var replies := Replies(rate, BurstOf(rate), None, seq(n, i => now));
            && (replies[k].allowed <==> k < (if ratePerSec < 1 then 1 else ratePerSec))
            && AdmittedIn(replies, 0, k) == Min(k, if ratePerSec < 1 then 1 else ratePerSec)
    decreases k
  {
    var rate := ClampRate(ratePerSec);
    var calls := seq(n, i => now);
    var replies := Replies(rate, BurstOf(rate), None, calls);
    if k > 0 { BurstExactly(ratePerSec, now, n, k - 1); }
    AdmittedExactly(rate, BurstOf(rate), None, calls, k);
    forall j | 0 <= j <= k ensures Steps(calls, j, k) == 0 && AdmittedIn(replies, j, k) <= AdmittedIn(replies, 0, k) {
      NoSteps(calls, now, j, k);
      FewerLater(replies, j, k);
    }
  }

  lemma {:induction false} NoSteps(calls: seq<int>, now: int, j: nat, n: nat)
    requires n < |calls| && forall i :: 0 <= i < |calls| ==> calls[i] == now
    ensures Steps(calls, j, n) == 0
    decreases n
  {
    if n > j { NoSteps(calls, now, j, n - 1); }
  }

  lemma {:induction false} FewerLater(replies: seq<Reply>, j: nat, n: nat)
    requires n <= |replies|
    ensures AdmittedIn(replies, j, n) <= AdmittedIn(replies, 0, n)
    decreases n
  {
    if n > 0 { FewerLater(replies, j, n - 1); }
  }

  // ---------------------------------------------------------------------------------------
  // The lazily refilled bucket is an ideal one
  // ---------------------------------------------------------------------------------------

  /** Two hashes no call at or after `now` can tell apart. */
  ghost predicate Alike(rate: int, capacity: int, a: Option<Entry>, b: Option<Entry>, now: int) {
    forall t :: t >= now ==> Level(rate, capacity, a, t) == Level(rate, capacity, b, t)
  }

  lemma AlikeReplies(rate: int, capacity: int, a: Option<Entry>, b: Option<Entry>, now: int)
    requires rate > 0 && Alike(rate, capacity, a, b, now)
    ensures Script(rate, capacity, a, now) == Script(rate, capacity, b, now)
  {
    assert Level(rate, capacity, a, now) == Level(rate, capacity, b, now);
  }

  /** A denied call leaves a hash that nobody can tell from the one before it. */
  lemma DenialInvisible(rate: int, capacity: int, e: Option<Entry>, now: int)
    requires rate > 0 && capacity >= 0 && (e.Some? ==> e.value.ts <= now)
    requires !Script(rate, capacity, e, now).1.allowed
    ensures Alike(rate, capacity, Some(Script(rate, capacity, e, now).0), e, now)
  {
    var e' := Script(rate, capacity, e, now).0;
    forall t | t >= now ensures Level(rate, capacity, Some(e'), t) == Level(rate, capacity, e, t) {
      assert (t - now) * rate >= 0;
      if e.Some? {
        assert (t - e.value.ts) * rate == (now - e.value.ts) * rate + (t - now) * rate;
      }
    }
  }

  /** A history without the denied calls that `keep` does not keep. */
  function Erase(calls: seq<int>, replies: seq<Reply>, keep: seq<bool>): seq<int>
    requires |calls| == |replies| == |keep|
  {
    if calls == [] then []
    else (if replies[0].allowed || keep[0] then [calls[0]] else []) + Erase(calls[1..], replies[1..], keep[1..])
  }

  function EraseReplies(replies: seq<Reply>, keep: seq<bool>): seq<Reply>
    requires |replies| == |keep|
  {
    if replies == [] then []
    else (if replies[0].allowed || keep[0] then [replies[0]] else []) + EraseReplies(replies[1..], keep[1..])
  }

  lemma {:induction false} EraseAlike(rate: int, capacity: int, a: Option<Entry>, b: Option<Entry>, last: int,
                                      calls: seq<int>, keep: seq<bool>)
    requires rate > 0 && capacity >= 0 && |keep| == |calls| && Monotone(last, calls)
    requires Alike(rate, capacity, a, b, last) && (a.Some? ==> a.value.ts <= last)
    ensures Replies(rate, capacity, b, Erase(calls, Replies(rate, capacity, a, calls), keep))
         == EraseReplies(Replies(rate, capacity, a, calls), keep)
    decreases |calls|
  {
    if calls != [] {
      var now := calls[0];
      var (a', reply) := Script(rate, capacity, a, now);
      var replies := Replies(rate, capacity, a, calls);
      assert replies[1..] == Replies(rate, capacity, Some(a'), calls[1..]);
      AlikeReplies(rate, capacity, a, b, now);
      var erased := Erase(calls, replies, keep);
      if reply.allowed || keep[0] {
        assert erased[1..] == Erase(calls[1..], replies[1..], keep[1..]);
        EraseAlike(rate, capacity, Some(a'), Some(a'), now, calls[1..], keep[1..]);
      } else {
        DenialInvisible(rate, capacity, a, now);
        assert erased == Erase(calls[1..], replies[1..], keep[1..]);
        EraseAlike(rate, capacity, Some(a'), b, now, calls[1..], keep[1..]);
      }
    }
  }

  /** Main result: with a clock that never goes back, leaving any of the denied calls out of a
      history changes no other reply. Being denied costs nothing, as in an ideal bucket that
      refills continuously. */
  lemma DenialsAreFree(rate: int, capacity: int, e: Option<Entry>, last: int, calls: seq<int>, keep: seq<bool>)
    requires rate > 0 && capacity >= 0 && |keep| == |calls| && Monotone(last, calls)
    requires e.Some? ==> e.value.ts <= last
    ensures Replies(rate, capacity, e, Erase(calls, Replies(rate, capacity, e, calls), keep))
         == EraseReplies(Replies(rate, capacity, e, calls), keep)
  {
    EraseAlike(rate, capacity, e, e, last, calls, keep);
  }

  // ---------------------------------------------------------------------------------------
  // Expiry and waits, for the bucket NewTokenBucket builds
  // ---------------------------------------------------------------------------------------

  /** The rate NewTokenBucket settles on. */
  function ClampRate(ratePerSec: int): (rate: int)
    ensures rate >= 1
  {
    if ratePerSec < 1 then 1 else ratePerSec
  }

  /** One second's worth of traffic. */
  function BurstOf(rate: int): int { rate * COST }

  /** A bucket idle for a second is full. */
  lemma FullAfterASecond(rate: int, e: Entry, now: int)
    requires rate > 0 && InRange(BurstOf(rate), Some(e)) && now - e.ts >= 1000
    ensures Level(rate, BurstOf(rate), Some(e), now) == BurstOf(rate)
  {
    assert (now - e.ts) * rate >= 1000 * rate;
  }

  datatype Event = Call(now: int) | Expire(now: int)

  /** Events in clock order, where Redis drops the key only when it has been idle long enough. */
  ghost predicate Timely(e: Option<Entry>, last: int, events: seq<Event>, rate: int)
    requires rate > 0
    decreases |events|
  {
    events == [] ||
    match events[0]
    case Call(now) => last <= now && Timely(Some(Script(rate, BurstOf(rate), e, now).0), now, events[1..], rate)
    case Expire(now) => last <= now && (e.Some? ==> now - e.value.ts >= EXPIRY) && Timely(None, now, events[1..], rate)
  }

  function RepliesWithExpiry(rate: int, e: Option<Entry>, events: seq<Event>): seq<Reply>
    requires rate > 0
    decreases |events|
  {
    if events == [] then []
    else match events[0]
      case Expire(_) => RepliesWithExpiry(rate, None, events[1..])
      case Call(now) =>
        var (e', reply) := Script(rate, BurstOf(rate), e, now);
        [reply] + RepliesWithExpiry(rate, Some(e'), events[1..])
  }

  function CallsOf(events: seq<Event>): seq<int>
    decreases |events|
  {
    if events == [] then []
    else match events[0]
      case Expire(_) => CallsOf(events[1..])
      case Call(now) => [now] + CallsOf(events[1..])
  }

  lemma {:induction false} ExpiryAlike(rate: int, a: Option<Entry>, b: Option<Entry>, last: int, events: seq<Event>)
    requires rate > 0 && Timely(a, last, events, rate) && InRange(BurstOf(rate), a)
    requires Alike(rate, BurstOf(rate), a, b, last)
    ensures RepliesWithExpiry(rate, a, events) == Replies(rate, BurstOf(rate), b, CallsOf(events))
    decreases |events|
  {
    if events != [] {
      match events[0]
      case Call(now) =>
        var (a', reply) := Script(rate, BurstOf(rate), a, now);
        AlikeReplies(rate, BurstOf(rate), a, b, now);
        LevelInRange(rate, BurstOf(rate), a, now);
        ExpiryAlike(rate, Some(a'), Some(a'), now, events[1..]);
        assert CallsOf(events)[1..] == CallsOf(events[1..]);
      case Expire(now) =>
        forall t | t >= now ensures Level(rate, BurstOf(rate), None, t) == Level(rate, BurstOf(rate), b, t) {
          assert Level(rate, BurstOf(rate), a, t) == Level(rate, BurstOf(rate), b, t);
          if a.Some? { FullAfterASecond(rate, a.value, t); }
        }
        ExpiryAlike(rate, None, b, now, events[1..]);
    }
  }

  /** With a clock that never goes back, no caller can tell that Redis drops idle keys. */
  lemma ExpiryUnobservable(rate: int, e: Option<Entry>, last: int, events: seq<Event>)
    requires rate > 0 && Timely(e, last, events, rate) && InRange(BurstOf(rate), e)
    ensures RepliesWithExpiry(rate, e, events) == Replies(rate, BurstOf(rate), e, CallsOf(events))
  {
    ExpiryAlike(rate, e, e, last, events);
  }

  lemma CeilDivSpec(n: int, d: int)
    requires d > 0
    ensures (CeilDiv(n, d) - 1) * d < n <= CeilDiv(n, d) * d
  {
    var q := (n + d - 1) / d;
    assert q * d + (n + d - 1) % d == n + d - 1;
    assert (q - 1) * d == q * d - d;
  }

  lemma Cancel(a: int, b: int, c: int)
    requires c > 0 && a * c < b * c
    ensures a < b
  {
  }

  /** A denial's wait is exact: with no other consumer, a call `d` milliseconds later succeeds
      if and only if `d` is at least the wait. The wait is between 1 and 1000 milliseconds. */
  lemma WaitIsTight(rate: int, e: Option<Entry>, now: int, d: nat)
    requires rate > 0 && InRange(BurstOf(rate), e)
    requires !Script(rate, BurstOf(rate), e, now).1.allowed
    ensures var (e', reply) := Script(rate, BurstOf(rate), e, now);
            && 1 <= reply.waitMs <= 1000
            && (Script(rate, BurstOf(rate), Some(e'), now + d).1.allowed <==> d >= reply.waitMs)
  {
    var (e', reply) := Script(rate, BurstOf(rate), e, now);
    var w := reply.waitMs;
    LevelInRange(rate, BurstOf(rate), e, now);
    CeilDivSpec(COST - e'.tokens, rate);
    WaitRange(COST - e'.tokens, rate);
    hide CeilDiv;
    if d >= w { MulMono(w, d, rate); } else { MulMono(d, w - 1, rate); }
    assert Level(rate, BurstOf(rate), Some(e'), now + d) == Min(rate * COST, e'.tokens + d * rate);
  }

  lemma MulMono(a: int, b: int, c: int)
    requires c > 0 && a <= b
    ensures a * c <= b * c
  {
  }

  lemma WaitRange(n: int, rate: int)
    requires rate > 0 && 0 < n <= COST
    ensures 1 <= CeilDiv(n, rate) <= 1000
  {
    var w := CeilDiv(n, rate);
    CeilDivSpec(n, rate);
    MulMono(1, rate, COST);
    Cancel(w - 1, 1000, rate);
    Cancel(0, w, rate);
  }
}
