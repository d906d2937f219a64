/** TokenBucket as the workers call it: the script rewriting the shared hash in place, and
    Acquire's loop of denials and waits against rivals, scheduling delays and a failing Redis. */
module Limiter {
  import opened Wrappers
  import opened TokenBucket

  /** What happens around the k-th attempt of an Acquire call: how long the caller is delayed
      before the script, before the deadline check and in the sleep beyond the wait, how many
      rival calls get in before the script, whether Redis fails, whether the context ends. */
  datatype Environment = Environment(
    delay: nat -> nat,
    oversleep: nat -> nat,
    rivals: nat -> nat,
    redisDown: nat -> bool,
    cancelled: nat -> bool)

  /** No rivals, no failures, and no delay above `lag`. */
  ghost predicate Calm(env: Environment, lag: nat) {
    forall k: nat :: env.delay(k) <= lag && env.rivals(k) == 0 && !env.redisDown(k) && !env.cancelled(k)
  }

  datatype Outcome =
    | Acquired(waited: nat)
    | RateLimitExceeded(waited: nat)
    | RedisFailed(waited: nat)
    | ContextDone(waited: nat)

  /** One execution of the script, by the caller at hand or by a rival. */
  datatype Attempt = Attempt(key: string, at: int, own: bool, reply: Reply)

  /** The tokens the caller at hand got. */
  ghost function OwnTokens(log: seq<Attempt>): nat {
    if log == [] then 0
    else
      var last := log[|log| - 1];
      OwnTokens(log[..|log| - 1]) + if last.own && last.reply.allowed then 1 else 0
  }

  lemma OneAttemptMore(log: seq<Attempt>, a: Attempt)
    ensures OwnTokens(log + [a]) == OwnTokens(log) + if a.own && a.reply.allowed then 1 else 0
  {
    assert (log + [a])[..|log|] == log;
  }

  ghost predicate OthersKept(before: map<string, Entry>, after: map<string, Entry>, key: string) {
    forall other :: other != key ==>
      (other in after <==> other in before) && (other in after ==> after[other] == before[other])
  }

  lemma OthersKeptSame(hash: map<string, Entry>, key: string)
    ensures OthersKept(hash, hash, key)
  {
  }

  lemma OthersKeptTwice(a: map<string, Entry>, b: map<string, Entry>, c: map<string, Entry>, key: string)
    requires OthersKept(a, b, key) && OthersKept(b, c, key)
    ensures OthersKept(a, c, key)
  {
  }

  /** From `from` on every call succeeds. */
  ghost predicate Promised(rate: int, e: Option<Entry>, from: int)
    requires rate > 0
  {
    forall t :: t >= from ==> Script(rate, BurstOf(rate), e, t).1.allowed
  }

  lemma DenialPromises(rate: int, e: Option<Entry>, now: int)
    requires rate > 0 && InRange(BurstOf(rate), e) && !Script(rate, BurstOf(rate), e, now).1.allowed
    ensures var (e', reply) := Script(rate, BurstOf(rate), e, now);
            1 <= reply.waitMs <= 1000 && Promised(rate, Some(e'), now + reply.waitMs)
  {
    var (e', reply) := Script(rate, BurstOf(rate), e, now);
    WaitIsTight(rate, e, now, 0);
    forall t | t >= now + reply.waitMs
      ensures Script(rate, BurstOf(rate), Some(e'), t).1.allowed
    {
      WaitIsTight(rate, e, now, t - now);
      assert now + (t - now) == t;
    }
  }

  class Buckets {
    const rate: int
    /** the hashes by key */
    var hash: map<string, Entry>
    /** the wall clock in milliseconds */
    var clock: int
    ghost var log: seq<Attempt>

    ghost predicate Valid() reads this {
      rate >= 1 && forall key :: key in hash ==> InRange(BurstOf(rate), Some(hash[key]))
    }

    function Get(key: string): Option<Entry> reads this {
      if key in hash then Some(hash[key]) else None
    }

    /** NewTokenBucket */
    constructor (ratePerSec: int)
      ensures Valid() && hash == map[] && rate == ClampRate(ratePerSec) && log == []
    {
      log := [];
      rate, hash, clock := ClampRate(ratePerSec), map[], 0;
    }

    /** The Lua script on one key. Other keys are untouched. */
    method Run(key: string, now: int, ghost own: bool) returns (reply: Reply)
      requires Valid()
      modifies this`hash, this`log
      ensures log == old(log) + [Attempt(key, now, own, reply)]
      ensures OwnTokens(log) == OwnTokens(old(log)) + if own && reply.allowed then 1 else 0
      ensures Valid()
      ensures var (e, r) := Script(rate, BurstOf(rate), old(Get(key)), now); hash == old(hash)[key := e] && reply == r
    {
      hide OwnTokens, CeilDiv;
      var capacity := BurstOf(rate);
      LevelInRange(rate, capacity, Get(key), now);
      var tokens, ts := capacity, now;
      if key in hash {
        tokens, ts := hash[key].tokens, hash[key].ts;
      }
      var elapsed := now - ts;
      if elapsed < 0 { elapsed := 0; }
      tokens := Min(capacity, tokens + elapsed * rate);
      if tokens < COST {
        hash := hash[key := Entry(tokens, now)];
        reply := Reply(false, CeilDiv(COST - tokens, rate));
      } else {
        tokens := tokens - COST;
        hash := hash[key := Entry(tokens, now)];
        reply := Reply(true, 0);
      }
      OneAttemptMore(log, Attempt(key, now, own, reply));
      log := log + [Attempt(key, now, own, reply)];
    }

    /** Rival consumers of the same key. */
    method Contend(key: string, calls: nat)
      requires Valid()
      modifies this`hash, this`log
      ensures Valid() && OwnTokens(log) == OwnTokens(old(log))
      ensures calls == 0 ==> hash == old(hash)
      ensures OthersKept(old(hash), hash, key)
    {
      for i := 0 to calls
        invariant Valid() && (i == 0 ==> hash == old(hash)) && OwnTokens(log) == OwnTokens(old(log))
        invariant OthersKept(old(hash), hash, key)
      {
        var _ := Run(key, clock, false);
      }
    }

    /** TryAcquire: the rivals that get in first, then the script, unless Redis fails. A denial says how
        long it takes until every call succeeds if nobody else calls. */
    method TryAcquire(key: string, rivals: nat, down: bool) returns (err: bool, reply: Reply)
      requires Valid()
      modifies this`hash, this`log
      ensures Valid() && err == down && OthersKept(old(hash), hash, key)
      ensures OwnTokens(log) == OwnTokens(old(log)) + if !err && reply.allowed then 1 else 0
      ensures !err ==> log != [] && log[|log| - 1] == Attempt(key, clock, true, reply)
      ensures !err && rivals == 0 ==> Script(rate, BurstOf(rate), old(Get(key)), clock).1 == reply
      ensures !err && !reply.allowed ==> 1 <= reply.waitMs <= 1000 && Promised(rate, Get(key), clock + reply.waitMs)
    {
      hide Script, InRange, BurstOf, Level, OwnTokens;
      Contend(key, rivals);
      if down { return true, Reply(false, 0); }
      err := false;
      ghost var before := Get(key);
      reply := Run(key, clock, true);
      if !reply.allowed { DenialPromises(rate, before, clock); }
    }

    /** Acquire: waits out denials until a token is there, the next wait would end after the
        deadline, Redis fails or the context ends. It always returns, never waits longer than
        `maxWait` in total, and without rivals and failures gets its token after at most one
        wait, provided the budget covers a second and the scheduling delays. It takes one token if it
        succeeds and none otherwise, and gives up only after a denial whose wait would end too late,
        a failure of Redis or the end of the context. */
    method Acquire(key: string, maxWait: nat, env: Environment, ghost lag: nat) returns (outcome: Outcome)
      requires Valid()
      modifies this`hash, this`clock, this`log
      ensures Valid() && clock >= old(clock) + outcome.waited
      ensures outcome.waited <= maxWait
      ensures OwnTokens(log) == OwnTokens(old(log)) + if outcome.Acquired? then 1 else 0
      ensures outcome.Acquired? || outcome.RateLimitExceeded? ==>
                && log != [] && log[|log| - 1].own && log[|log| - 1].key == key
                && log[|log| - 1].reply.allowed == outcome.Acquired?
      ensures outcome.RateLimitExceeded? ==> clock + log[|log| - 1].reply.waitMs > old(clock) + maxWait
      ensures outcome.RedisFailed? ==> exists k: nat :: env.redisDown(k)
      ensures outcome.ContextDone? ==> exists k: nat :: env.cancelled(k)
      ensures OthersKept(old(hash), hash, key)
      ensures Calm(env, lag) && 1000 + 2 * lag <= maxWait ==> outcome.Acquired? && outcome.waited <= 1000
    {
      hide Script, InRange, BurstOf, Level, OwnTokens, OthersKept;
      OthersKeptSame(hash, key);
      var start := clock;
      var deadline := clock + maxWait;
      var totalWait: nat, k: nat := 0, 0;
      ghost var calm := Calm(env, lag) && 1000 + 2 * lag <= maxWait;
      while true
        invariant Valid() && totalWait <= maxWait && start + totalWait <= clock
        invariant OthersKept(old(hash), hash, key) && OwnTokens(log) == OwnTokens(old(log))
        invariant calm ==>
                    || (k == 0 && clock == start && totalWait == 0)
                    || (k == 1 && totalWait <= 1000 && Promised(rate, Get(key), clock))
        decreases Max(0, deadline + 1 - clock)
      {
        clock := clock + env.delay(k);
        ghost var hash0 := hash;
        var err, reply := TryAcquire(key, env.rivals(k), env.redisDown(k));
        OthersKeptTwice(old(hash), hash0, hash, key);
        if err { return RedisFailed(totalWait); }
        if reply.allowed { return Acquired(totalWait); }
        assert calm ==> k == 0;
        ghost var from := clock + reply.waitMs;
        var wait := reply.waitMs;
        if wait <= 0 { wait := 10; }
        clock := clock + env.delay(k);
        if clock + wait > deadline { return RateLimitExceeded(totalWait); }
        if env.cancelled(k) { return ContextDone(totalWait); }
        clock := clock + wait + env.oversleep(k);
        assert from <= clock;
        totalWait := totalWait + wait;
        k := k + 1;
      }
    }
  }
}
