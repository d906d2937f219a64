/** The Redis lock: SET NX with a time to live, released by compare-and-delete. */
module Lease {
  import opened Wrappers

  type Holder = nat

  // ---------------------------------------------------------------------------------------
  // One key among many holders
  // ---------------------------------------------------------------------------------------

  /** The key's entry; `owner` remembers which holder set it and is never read by anyone. */
  datatype Grant = Grant(value: string, expires: int, owner: Holder)

  /** `deadlines` are the holders that believe they have the lock, with the end of their lease. */
  datatype State = State(now: int, grant: Option<Grant>, deadlines: map<Holder, int>)

  datatype Event =
    | Acquire(who: Holder, at: int)
    | Release(who: Holder, at: int)
    | Vanish(who: Holder, at: int)

  /** A time to live; Redis refuses one that is not positive. */
  type Ttl = t: int | t > 0 witness 1

  /** How a lock is used: the value each holder writes, and the time to live it asks for. */
  datatype Use = Use(value: Holder -> string, ttl: Holder -> Ttl)

  predicate Free(s: State, at: int) {
    s.grant.None? || at >= s.grant.value.expires
  }

  predicate Enabled(s: State, e: Event) {
    e.at >= s.now && if e.Acquire? then e.who !in s.deadlines else e.who in s.deadlines
  }

  function Next(u: Use, s: State, e: Event): State
    requires Enabled(s, e)
  {
    match e
    case Acquire(who, at) =>
      if Free(s, at) then
          State(at, Some(Grant(u.value(who), at + u.ttl(who), who)), s.deadlines[who := at + u.ttl(who)])
      else s.(now := at)
    case Release(who, at) =>
      var mine := !Free(s, at) && s.grant.value.value == u.value(who);
      State(at, if mine then None else s.grant, s.deadlines - {who})
    case Vanish(who, at) => State(at, s.grant, s.deadlines - {who})
  }

  predicate ValidRun(u: Use, s: State, es: seq<Event>)
    decreases |es|
  {
    es == [] || (Enabled(s, es[0]) && ValidRun(u, Next(u, s, es[0]), es[1..]))
  }

  function Run(u: Use, s: State, es: seq<Event>): State
    requires ValidRun(u, s, es)
    decreases |es|
  {
    if es == [] then s else Run(u, Next(u, s, es[0]), es[1..])
  }

  const IDLE := State(0, None, map[])

  /** A holder whose lease is not over owns the entry. */
  ghost predicate Owned(u: Use, s: State) {
    && (forall who :: who in s.deadlines && s.now < s.deadlines[who] ==>
          s.grant.Some? && s.grant.value == Grant(u.value(who), s.deadlines[who], who))
    && (s.grant.Some? ==> s.grant.value.value == u.value(s.grant.value.owner))
  }

  ghost predicate DistinctValues(u: Use) {
    forall a, b :: u.value(a) == u.value(b) ==> a == b
  }

  ghost predicate ReleasedInTime(s: State, e: Event) {
    e.Release? && e.who in s.deadlines ==> e.at < s.deadlines[e.who]
  }

  /** Every release comes before the end of the holder's lease. */
  ghost predicate AllReleasedInTime(u: Use, s: State, es: seq<Event>)
    requires ValidRun(u, s, es)
    decreases |es|
  {
    es == [] || (ReleasedInTime(s, es[0]) && AllReleasedInTime(u, Next(u, s, es[0]), es[1..]))
  }

  lemma EventKeepsOwned(u: Use, s: State, e: Event)
    requires Owned(u, s) && Enabled(s, e)
    requires DistinctValues(u) || ReleasedInTime(s, e)
    ensures Owned(u, Next(u, s, e))
  {
    if e.Release? && !Free(s, e.at) && s.grant.value.value == u.value(e.who) {
      assert s.grant.value.owner == e.who;
    }
  }

  lemma {:induction false} OwnedAlways(u: Use, s: State, es: seq<Event>)
    requires Owned(u, s) && ValidRun(u, s, es)
    requires DistinctValues(u) || AllReleasedInTime(u, s, es)
    ensures Owned(u, Run(u, s, es))
    decreases |es|
  {
    if es != [] {
      EventKeepsOwned(u, s, es[0]);
      OwnedAlways(u, Next(u, s, es[0]), es[1..]);
    }
  }

  /** Main result: at any time at most one holder is within its lease, whatever crashes and
      overruns happen, if every holder writes a value of its own, or if nobody releases after
      its lease is over. */
  lemma MutualExclusion(u: Use, es: seq<Event>, a: Holder, b: Holder)
    requires ValidRun(u, IDLE, es)
    requires DistinctValues(u) || AllReleasedInTime(u, IDLE, es)
    requires var s := Run(u, IDLE, es);
             a in s.deadlines && b in s.deadlines && s.now < s.deadlines[a] && s.now < s.deadlines[b]
    ensures a == b
  {
    OwnedAlways(u, IDLE, es);
  }

  /** A release takes away nobody else's entry when values are distinct. */
  lemma ReleaseIsOwnerSafe(u: Use, es: seq<Event>, who: Holder, at: int)
    requires ValidRun(u, IDLE, es) && DistinctValues(u)
    requires Enabled(Run(u, IDLE, es), Release(who, at))
    ensures var s := Run(u, IDLE, es);
            s.grant.Some? && s.grant.value.owner != who ==> Next(u, s, Release(who, at)).grant == s.grant
  {
    OwnedAlways(u, IDLE, es);
  }

  /** After the run both holders are within their leases. */
  ghost predicate BothInside(u: Use, es: seq<Event>, a: Holder, b: Holder) {
    && ValidRun(u, IDLE, es)
    && var s := Run(u, IDLE, es);
       a in s.deadlines && b in s.deadlines && s.now < s.deadlines[a] && s.now < s.deadlines[b]
  }

  /** The lock excludes: no run, with whatever crashes and late releases, lets two holders in. */
  ghost predicate Exclusive(u: Use) {
    forall es, a, b :: BothInside(u, es, a, b) ==> a == b
  }

  lemma {:induction false} RunAppend(u: Use, s: State, es: seq<Event>, e: Event)
    requires ValidRun(u, s, es) && Enabled(Run(u, s, es), e)
    ensures ValidRun(u, s, es + [e]) && Run(u, s, es + [e]) == Next(u, Run(u, s, es), e)
    decreases |es|
  {
    if es == [] {
      assert [] + [e] == [e] && [e][1..] == [];
    } else {
      assert (es + [e])[1..] == es[1..] + [e];
      RunAppend(u, Next(u, s, es[0]), es[1..], e);
    }
  }

  /** Two holders that share a value: the first overruns its lease, the second gets the lock, the
      first releases what is now the second's entry, and gets the lock again. */
  lemma SharedValueUnsafe(u: Use, a: Holder, b: Holder) returns (es: seq<Event>)
    requires a != b && u.value(a) == u.value(b)
    ensures BothInside(u, es, a, b)
  {
    var late := u.ttl(a);
    es := [];
    RunAppend(u, IDLE, es, Acquire(a, 0));
    es := es + [Acquire(a, 0)];
    RunAppend(u, IDLE, es, Acquire(b, late));
    es := es + [Acquire(b, late)];
    RunAppend(u, IDLE, es, Release(a, late));
    es := es + [Release(a, late)];
    RunAppend(u, IDLE, es, Acquire(a, late));
    es := es + [Acquire(a, late)];
  }

  /** Main result: a lock excludes if and only if its holders write different values. */
  lemma ExclusiveExactly(u: Use)
    ensures Exclusive(u) <==> DistinctValues(u)
  {
    if DistinctValues(u) {
      forall es, a, b | BothInside(u, es, a, b) ensures a == b { MutualExclusion(u, es, a, b); }
    } else {
      var a, b :| u.value(a) == u.value(b) && a != b;
      var es := SharedValueUnsafe(u, a, b);
    }
  }

  // ---------------------------------------------------------------------------------------
  // The commands on the store
  // ---------------------------------------------------------------------------------------

  datatype Entry = Entry(value: string, expires: int)

  function Stored(grant: Option<Grant>): Option<Entry> {
    if grant.None? then None else Some(Entry(grant.value.value, grant.value.expires))
  }

  /** The keys in Redis, each with a use of its own. The store knows values and expiry times; which
      holder sent a command is ghost, and so is the log of commands per key that the store is
      proved to follow. */
  class Locks {
    var entries: map<string, Entry>
    var clock: int
    ghost const use: string -> Use
    ghost var logs: map<string, seq<Event>>

    ghost function LogOf(key: string): seq<Event>
      reads this
    {
      if key in logs then logs[key] else []
    }

    /** The key's entry is what the logged commands leave. */
    ghost predicate Tracks(key: string)
      reads this
    {
      && ValidRun(use(key), IDLE, LogOf(key))
      && Run(use(key), IDLE, LogOf(key)).now <= clock
      && Stored(Run(use(key), IDLE, LogOf(key)).grant) == if key in entries then Some(entries[key]) else None
    }

    ghost predicate Valid()
      reads this
    {
      clock >= 0 && forall key :: Tracks(key)
    }

    /** The holders of a key and the ends of their leases. */
    ghost function Of(key: string): (s: State)
      requires Valid()
      reads this
      ensures s.now <= clock
    {
      assert Tracks(key);
      Run(use(key), IDLE, LogOf(key))
    }

    /** The holder believes it has the key, and its lease is not over. */
    ghost predicate Inside(key: string, who: Holder)
      requires Valid()
      reads this
    {
      who in Of(key).deadlines && clock < Of(key).deadlines[who]
    }

    constructor (ghost use: string -> Use)
      ensures Valid() && this.use == use && forall key :: Of(key) == IDLE
    {
      entries, clock := map[], 0;
      this.use := use;
      logs := map[];
    }

    method Sleep(ms: nat)
      requires Valid()
      modifies this`clock
      ensures Valid() && clock == old(clock) + ms && forall key :: Of(key) == old(Of(key))
    {
      assert forall key :: Tracks(key);
      clock := clock + ms;
      forall key ensures Tracks(key) { assert old(Tracks(key)); }
    }

    /** SET key value NX EX ttl; false is ErrLockNotAcquired. If holders write different values,
        whoever is granted the key is the only one inside. */
    method AcquireLock(key: string, value: string, ttl: Ttl, ghost who: Holder) returns (acquired: bool)
      requires Valid() && who !in Of(key).deadlines && value == use(key).value(who) && ttl == use(key).ttl(who)
      modifies this`entries, this`logs
      ensures Valid() && Of(key) == Next(use(key), old(Of(key)), Acquire(who, clock))
      ensures forall other :: other != key ==> Of(other) == old(Of(other))
      ensures acquired <==> Inside(key, who)
      ensures acquired && DistinctValues(use(key)) ==> forall h :: Inside(key, h) ==> h == who
      ensures !acquired ==> entries == old(entries) && key in entries && clock < entries[key].expires
    {
      assert Tracks(key);
      RunAppend(use(key), IDLE, LogOf(key), Acquire(who, clock));
      acquired := key !in entries || clock >= entries[key].expires;
      if acquired { entries := entries[key := Entry(value, clock + ttl)]; }
      logs := logs[key := LogOf(key) + [Acquire(who, clock)]];
      forall other ensures Tracks(other) { assert old(Tracks(other)); }
      if acquired && DistinctValues(use(key)) {
        forall h | Inside(key, h) ensures h == who { MutualExclusion(use(key), LogOf(key), h, who); }
      }
    }

    /** Deletes the key if it still carries the caller's value. If holders write different values,
        a holder inside frees the key, and one whose lease is over takes nothing from another. */
    method ReleaseLock(key: string, value: string, ghost who: Holder)
      requires Valid() && who in Of(key).deadlines && value == use(key).value(who)
      modifies this`entries, this`logs
      ensures Valid() && Of(key) == Next(use(key), old(Of(key)), Release(who, clock))
      ensures forall other :: other != key ==> Of(other) == old(Of(other))
      ensures !Inside(key, who)
      ensures DistinctValues(use(key)) && old(Inside(key, who)) ==> key !in entries
      ensures DistinctValues(use(key)) && (exists h :: h != who && old(Inside(key, h))) ==> entries == old(entries)
    {
      assert Tracks(key);
      RunAppend(use(key), IDLE, LogOf(key), Release(who, clock));
      if DistinctValues(use(key)) { OwnedAlways(use(key), IDLE, LogOf(key)); }
      if key in entries && clock < entries[key].expires && entries[key].value == value {
        entries := entries - {key};
      }
      logs := logs[key := LogOf(key) + [Release(who, clock)]];
      forall other ensures Tracks(other) { assert old(Tracks(other)); }
    }

    /** The holder dies, or gives up without the command getting through. */
    ghost method Vanishes(key: string, who: Holder)
      requires Valid() && who in Of(key).deadlines
      modifies this`logs
      ensures Valid() && Of(key) == Next(use(key), old(Of(key)), Vanish(who, clock))
      ensures forall other :: other != key ==> Of(other) == old(Of(other))
    {
      assert Tracks(key);
      RunAppend(use(key), IDLE, LogOf(key), Vanish(who, clock));
      logs := logs[key := LogOf(key) + [Vanish(who, clock)]];
      forall other ensures Tracks(other) { assert old(Tracks(other)); }
    }
  }
}
