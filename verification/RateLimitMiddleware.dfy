/**
 The counters as they are kept in Redis, the script that mutates them, and the
 middleware that checks one key after another until one is refused.
 */
module RateLimitMiddleware {
  import opened Numbers
  import opened Options
  import opened RateLimiter

  type Counters = map<Key, Entry>

  function Lookup(m: Counters, key: Key): Option<Entry> {
    if key in m then Some(m[key]) else None
  }

  function Set(m: Counters, key: Key, e: Option<Entry>): Counters {
    if e.Some? then m[key := e.value] else m - {key}
  }

  /** The counters after these calls have reached Redis in order. */
  function Charge(m: Counters, calls: seq<Call>): Counters {
    if calls == [] then m
    else
      var c := calls[|calls| - 1];
      var before := Charge(m, calls[..|calls| - 1]);
      if Executed(c.reply) then Set(before, c.key, EntryAfter(Lookup(before, c.key), c.at, c.seconds, c.reply)) else before
  }

  /** What the i-th call is answered when those before it have been charged. */
  function AnswerAt(m: Counters, calls: seq<Call>, i: nat): Result
    requires i < |calls|
  {
    var c := calls[i];
    Answer(Lookup(Charge(m, calls[..i]), c.key), c.limit, c.seconds, c.policy, c.at, c.reply)
  }

  /** The first n calls are all answered with an admission. */
  ghost predicate Admits(m: Counters, calls: seq<Call>, n: nat)
    requires n <= |calls|
  {
    forall i :: 0 <= i < n ==> AnswerAt(m, calls, i).allowed
  }

  /** The n-th call is the first that is refused. */
  ghost predicate StopsAt(m: Counters, calls: seq<Call>, n: nat) {
    0 < n <= |calls| && Admits(m, calls, n - 1) && !AnswerAt(m, calls, n - 1).allowed
  }

  datatype Decision = Next | RateLimited(retryAfter: int) | LimiterUnavailable(retryAfter: int)

  function Refusal(r: Result): Decision {
    if r.status.Unavailable? then LimiterUnavailable(r.resetAfterSeconds) else RateLimited(r.resetAfterSeconds)
  }

  class Redis {
    var counters: Counters

    constructor (initial: Counters)
      ensures counters == initial
    {
      counters := initial;
    }

    method Incr(key: Key, now: Time) returns (count: Hits)
      modifies this
      ensures var live := Live(Lookup(old(counters), key), now);
        && count == (if live.Some? then live.value.count + 1 else 1)
        && counters == old(counters)[key := if live.Some? then live.value.(count := count) else Entry(count, None)]
    {
      var live := Live(Lookup(counters, key), now);
      if live.Some? {
        count := live.value.count + 1;
        counters := counters[key := live.value.(count := count)];
      } else {
        count := 1;
        counters := counters[key := Entry(1, None)];
      }
    }

    method SetExpiry(key: Key, now: Time, seconds: int)
      requires key in counters
      modifies this
      ensures counters == Set(old(counters), key, Expire(old(counters)[key], now, seconds))
    {
      if seconds <= 0 {
        counters := counters - {key};
      } else {
        counters := counters[key := counters[key].(expiresAt := Some(now + seconds * 1000))];
      }
    }

    /** RATE_LIMIT_LUA_SCRIPT, command by command. */
    method Eval(key: Key, now: Time, seconds: int) returns (count: int, ttl: int)
      modifies this
      ensures var s := Script(Lookup(old(counters), key), now, seconds);
        && count == s.count && ttl == s.ttl
        && counters == Set(old(counters), key, s.entry)
    {
      count := Incr(key, now);
      if count == 1 {
        SetExpiry(key, now, seconds);
      }
      ttl := Ttl(Lookup(counters, key), now);
      if ttl == -1 && key in counters {
        SetExpiry(key, now, seconds);
        ttl := seconds;
      }
      assert counters == Set(old(counters), key, Script(Lookup(old(counters), key), now, seconds).entry);
    }

    /** incrementRateLimit; `reply` is what becomes of the call to Redis. */
    method IncrementRateLimit(c: Call) returns (r: Result)
      modifies this
      ensures r == Answer(Lookup(old(counters), c.key), c.limit, c.seconds, c.policy, c.at, c.reply)
      ensures !Answered(c.reply) ==>
        r == if c.policy.FailClosed? then Result(false, 0, c.seconds, Unavailable) else Result(true, 1, c.seconds, Ok)
      ensures Answered(c.reply) ==>
        var counted := if c.reply.Served? then Script(Lookup(old(counters), c.key), c.at, c.seconds).count else 1;
        && (r.allowed <==> counted <= c.limit) && (r.status == if r.allowed then Ok else Exceeded)
        && r.remaining == (if r.allowed then c.limit - counted else 0)
      ensures counters == if Executed(c.reply)
        then Set(old(counters), c.key, EntryAfter(Lookup(old(counters), c.key), c.at, c.seconds, c.reply)) else old(counters)
    {
      if c.reply.LostBefore? {
        return if c.policy.FailClosed? then Result(false, 0, c.seconds, Unavailable) else Result(true, 1, c.seconds, Ok);
      }
      var rawCount, rawTtl := Eval(c.key, c.at, c.seconds);
      if c.reply.LostAfter? {
        return if c.policy.FailClosed? then Result(false, 0, c.seconds, Unavailable) else Result(true, 1, c.seconds, Ok);
      }
      var count, ttl := rawCount, rawTtl;
      if c.reply.Garbled? {
        count, ttl := 1, c.seconds;
      }
      if ttl <= 0 {
        ttl := c.seconds;
      }
      if count > c.limit {
        return Result(false, 0, ttl, Exceeded);
      }
      return Result(true, Max(0, c.limit - count), ttl, Ok);
    }

    /**
     The middleware's loop: the request goes on exactly if every key admits it; otherwise the keys
     up to the first that refuses, and no others, have been charged.
     */
    method CheckKeys(calls: seq<Call>) returns (d: Decision, charged: nat)
      modifies this
      ensures charged <= |calls| && counters == Charge(old(counters), calls[..charged])
      ensures d.Next? <==> Admits(old(counters), calls, |calls|)
      ensures d.Next? ==> charged == |calls|
      ensures !d.Next? ==> StopsAt(old(counters), calls, charged) && d == Refusal(AnswerAt(old(counters), calls, charged - 1))
      ensures !d.Next? ==>
        && (d.LimiterUnavailable? <==> !Answered(calls[charged - 1].reply))
        && d.retryAfter == AnswerAt(old(counters), calls, charged - 1).resetAfterSeconds
    {
      charged := 0;
      while charged < |calls|
        invariant charged <= |calls| && counters == Charge(old(counters), calls[..charged])
        invariant Admits(old(counters), calls, charged)
      {
        var r := IncrementRateLimit(calls[charged]);
        assert r == AnswerAt(old(counters), calls, charged);
        charged := charged + 1;
        assert calls[..charged][..charged - 1] == calls[..charged - 1];
        if !r.allowed {
          return Refusal(r), charged;
        }
      }
      assert calls[..charged] == calls;
      d := Next;
    }
  }

  // ------------------------------------------------------------ the counters and the traces agree

  ghost predicate SameEntries(m: Counters, store: Store) {
    forall k :: Lookup(m, k) == SlotOf(store, k).entry
  }

  function StoreAfterAll(store: Store, calls: seq<Call>): Store {
    if calls == [] then store else StoreAfter(StoreAfterAll(store, calls[..|calls| - 1]), calls[|calls| - 1])
  }

  lemma {:induction false} ChargeKeepsEntries(m: Counters, store: Store, calls: seq<Call>)
    requires SameEntries(m, store)
    ensures SameEntries(Charge(m, calls), StoreAfterAll(store, calls))
    decreases |calls|
  {
    if calls != [] {
      var front, c := calls[..|calls| - 1], calls[|calls| - 1];
      ChargeKeepsEntries(m, store, front);
      assert Lookup(Charge(m, front), c.key) == SlotOf(StoreAfterAll(store, front), c.key).entry;
      forall k ensures Lookup(Charge(m, calls), k) == SlotOf(StoreAfterAll(store, calls), k).entry {
        assert Lookup(Charge(m, front), k) == SlotOf(StoreAfterAll(store, front), k).entry;
      }
    }
  }

  lemma {:induction false} RunSplits(store: Store, calls: seq<Call>, i: nat)
    requires i < |calls|
    ensures Run(store, calls)[i] == OutcomeOf(StoreAfterAll(store, calls[..i]), calls[i])
    decreases i
  {
    if i > 0 {
      RunSplits(StoreAfter(store, calls[0]), calls[1..], i - 1);
      FirstThenRest(store, calls[..i]);
      assert calls[..i][1..] == calls[1..][..i - 1];
    }
  }

  lemma {:induction false} FirstThenRest(store: Store, calls: seq<Call>)
    requires calls != []
    ensures StoreAfterAll(store, calls) == StoreAfterAll(StoreAfter(store, calls[0]), calls[1..])
    decreases |calls|
  {
    if |calls| > 1 {
      var front := calls[..|calls| - 1];
      FirstThenRest(store, front);
      assert front[1..] == calls[1..][..|calls| - 2];
    }
  }

  /** A request's checks, made by the middleware, are the outcomes of the trace of its calls. */
  lemma ChecksAreATrace(m: Counters, store: Store, calls: seq<Call>, i: nat)
    requires SameEntries(m, store) && i < |calls|
    ensures AnswerAt(m, calls, i).allowed == Run(store, calls)[i].allowed
  {
    RunSplits(store, calls, i);
    ChargeKeepsEntries(m, store, calls[..i]);
  }

  /** A counter whose key is not charged is not changed. */
  lemma {:induction false} OnlyChargedKeysChange(m: Counters, calls: seq<Call>, key: Key)
    requires forall i :: 0 <= i < |calls| ==> calls[i].key != key
    ensures Lookup(Charge(m, calls), key) == Lookup(m, key)
    decreases |calls|
  {
    if calls != [] {
      OnlyChargedKeysChange(m, calls[..|calls| - 1], key);
    }
  }
}
