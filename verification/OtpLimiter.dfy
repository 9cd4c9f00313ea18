/**
 The OTP limiters: an IP, a phone and a device counter checked in that order,
 all failing closed. The hash that shortens identifiers is arbitrary: distinct
 phones may share a key.
 */
module OtpLimiter {
  import opened Numbers
  import opened Options
  import opened RateLimiter
  import opened RateLimitMiddleware

  datatype Kind = Send | Verify
  datatype Dimension = Ip | Phone | Device

  datatype OtpConfig = OtpConfig(ip: int, phone: int, device: int, seconds: int)

  /** The request as the limiter sees it: phone is None when missing or not normalisable. */
  datatype OtpRequest = OtpRequest(ip: string, phone: Option<string>, device: Option<string>)

  function Prefix(kind: Kind, d: Dimension): string {
    "ratelimit:otp:" + (if kind.Send? then "req:" else "verify:")
    + (match d case Ip => "ip:" case Phone => "phone:" case Device => "device:")
  }

  function KeyOf(kind: Kind, d: Dimension, hash: string -> string, identifier: string): Key {
    Prefix(kind, d) + hash(identifier)
  }

  function LimitOf(cfg: OtpConfig, d: Dimension): int {
    match d case Ip => cfg.ip case Phone => cfg.phone case Device => cfg.device
  }

  function Identifier(r: OtpRequest, d: Dimension): Option<string> {
    match d case Ip => Some(r.ip) case Phone => r.phone case Device => r.device
  }

  function CallOf(kind: Kind, cfg: OtpConfig, hash: string -> string, d: Dimension, identifier: string, at: Time, reply: Reply): Call {
    Call(KeyOf(kind, d, hash, identifier), at, LimitOf(cfg, d), cfg.seconds, FailClosed, reply)
  }

  /** Counters of different limiters or dimensions never share a key, whatever the hash is. */
  lemma PrefixesDiffer(kind: Kind, d: Dimension, x: string, kind': Kind, d': Dimension, x': string)
    requires Prefix(kind, d) + x == Prefix(kind', d') + x'
    ensures kind == kind' && d == d' && x == x'
  {
    var k, k' := Prefix(kind, d) + x, Prefix(kind', d') + x';
    assert k[14] == (if kind.Send? then 'r' else 'v') && k'[14] == (if kind'.Send? then 'r' else 'v');
    var p := if kind.Send? then 18 else 21;
    assert k[p] == (match d case Ip => 'i' case Phone => 'p' case Device => 'd');
    assert k'[p] == (match d' case Ip => 'i' case Phone => 'p' case Device => 'd');
    var n := |Prefix(kind, d)|;
    assert x == k[n..] && x' == k'[n..];
  }

  // ------------------------------------------------------------ one request

  /** The calls a request makes if nothing stops it. */
  function CallsOf(kind: Kind, cfg: OtpConfig, hash: string -> string, r: OtpRequest, at: Dimension -> Time, reply: Dimension -> Reply): (calls: seq<Call>) {
    [CallOf(kind, cfg, hash, Ip, r.ip, at(Ip), reply(Ip))]
    + (if r.phone.Some? then [CallOf(kind, cfg, hash, Phone, r.phone.value, at(Phone), reply(Phone))] else [])
    + (if r.device.Some? then [CallOf(kind, cfg, hash, Device, r.device.value, at(Device), reply(Device))] else [])
  }

  /** The calls and their order, written out: the IP always, then the phone, then the device. */
  lemma CallsAreIpPhoneDevice(kind: Kind, cfg: OtpConfig, hash: string -> string, r: OtpRequest, at: Dimension -> Time, reply: Dimension -> Reply)
    ensures var calls, limiter := CallsOf(kind, cfg, hash, r, at, reply), "ratelimit:otp:" + (if kind.Send? then "req:" else "verify:");
      && |calls| == 1 + (if r.phone.Some? then 1 else 0) + (if r.device.Some? then 1 else 0)
      && calls[0] == Call(limiter + "ip:" + hash(r.ip), at(Ip), cfg.ip, cfg.seconds, FailClosed, reply(Ip))
      && (r.phone.Some? ==>
            calls[1] == Call(limiter + "phone:" + hash(r.phone.value), at(Phone), cfg.phone, cfg.seconds, FailClosed, reply(Phone)))
      && (r.device.Some? ==>
            calls[|calls| - 1] == Call(limiter + "device:" + hash(r.device.value), at(Device), cfg.device, cfg.seconds, FailClosed, reply(Device)))
  {
  }

  /** Only the device refusal of the send limiter announces the whole window instead of what is left of it. */
  function Announce(kind: Kind, cfg: OtpConfig, r: OtpRequest, d: Decision, charged: nat): Decision {
    if d.RateLimited? && kind.Send? && r.device.Some? && charged == (if r.phone.Some? then 3 else 2)
    then RateLimited(cfg.seconds) else d
  }

  /**
   What the refusals of Limit mean: 503 if and only if the call to Redis went unanswered; and after a 429 the
   seconds to wait are those of the refusing counter, or the whole window if it is the device's of
   the send limiter.
   */
  lemma RefusalMeans(kind: Kind, cfg: OtpConfig, hash: string -> string, r: OtpRequest, at: Dimension -> Time, reply: Dimension -> Reply,
                     m: Counters, charged: nat)
    requires StopsAt(m, CallsOf(kind, cfg, hash, r, at, reply), charged)
    ensures var calls := CallsOf(kind, cfg, hash, r, at, reply);
      var answer := AnswerAt(m, calls, charged - 1);
      var byDevice := r.device.Some? && charged == |calls|;
      Announce(kind, cfg, r, Refusal(answer), charged)
      == if !Answered(calls[charged - 1].reply) then LimiterUnavailable(cfg.seconds)
         else RateLimited(if kind.Send? && byDevice then cfg.seconds else answer.resetAfterSeconds)
  {
    var calls := CallsOf(kind, cfg, hash, r, at, reply);
    var c := calls[charged - 1];
    assert c.policy.FailClosed? && c.seconds == cfg.seconds;
    VerdictIff(Lookup(Charge(m, calls[..charged - 1]), c.key), c.limit, c.seconds, c.policy, c.at, c.reply);
  }

  /** Checks the next dimension of a request; `calls` are all its calls and `n` of them have been charged. */
  method CheckNext(redis: Redis, ghost start: Counters, ghost calls: seq<Call>, ghost n: nat, c: Call) returns (r: Result)
    requires n < |calls| && calls[n] == c && redis.counters == Charge(start, calls[..n]) && Admits(start, calls, n)
    modifies redis
    ensures r == AnswerAt(start, calls, n) && redis.counters == Charge(start, calls[..n + 1])
    ensures if r.allowed then Admits(start, calls, n + 1) else StopsAt(start, calls, n + 1)
  {
    r := redis.IncrementRateLimit(c);
    assert calls[..n + 1][..n] == calls[..n];
  }

  /** otpRequestRateLimiter and otpVerifyRateLimiter, dimension by dimension. */
  method Limit(redis: Redis, kind: Kind, cfg: OtpConfig, hash: string -> string, r: OtpRequest, at: Dimension -> Time, reply: Dimension -> Reply)
    returns (d: Decision, charged: nat)
    modifies redis
    ensures var calls := CallsOf(kind, cfg, hash, r, at, reply);
      && charged <= |calls|
      && redis.counters == Charge(old(redis.counters), calls[..charged])
      && (d.Next? <==> Admits(old(redis.counters), calls, |calls|))
      && (d.Next? ==> charged == |calls|)
      && (!d.Next? ==>
           && StopsAt(old(redis.counters), calls, charged)
           && d == Announce(kind, cfg, r, Refusal(AnswerAt(old(redis.counters), calls, charged - 1)), charged))
  {
    ghost var calls := CallsOf(kind, cfg, hash, r, at, reply);
    ghost var start := redis.counters;
    var ipResult := CheckNext(redis, start, calls, 0, CallOf(kind, cfg, hash, Ip, r.ip, at(Ip), reply(Ip)));
    charged := 1;
    if !ipResult.allowed {
      return Refusal(ipResult), charged;
    }
    if r.phone.Some? {
      var phoneResult := CheckNext(redis, start, calls, 1, CallOf(kind, cfg, hash, Phone, r.phone.value, at(Phone), reply(Phone)));
      charged := 2;
      if !phoneResult.allowed {
        return Refusal(phoneResult), charged;
      }
    }
    if r.device.Some? {
      var deviceResult := CheckNext(redis, start, calls, charged, CallOf(kind, cfg, hash, Device, r.device.value, at(Device), reply(Device)));
      charged := charged + 1;
      if !deviceResult.allowed {
        if deviceResult.status.Unavailable? || kind.Verify? {
          return Refusal(deviceResult), charged;
        }
        return RateLimited(cfg.seconds), charged;
      }
    }
    assert calls[..charged] == calls;
    d := Next;
  }

  // ------------------------------------------------------------ any interleaving of requests

  /** A request to one of the two limiters. */
  datatype Arrival = Arrival(kind: Kind, request: OtpRequest)

  /** A call made on behalf of an arrival; `request` is its number. */
  datatype Tagged = Tagged(request: nat, dimension: Dimension, call: Call)

  function Untag(tagged: seq<Tagged>): (calls: seq<Call>)
    ensures |calls| == |tagged| && forall i :: 0 <= i < |tagged| ==> calls[i] == tagged[i].call
  {
    seq(|tagged|, i requires 0 <= i < |tagged| => tagged[i].call)
  }

  /** Every call carries the key, limit and window of its request's dimension. */
  ghost predicate WellTagged(cfg: Kind -> OtpConfig, hash: string -> string, arrivals: seq<Arrival>, tagged: seq<Tagged>) {
    forall i :: 0 <= i < |tagged| ==> tagged[i].request < |arrivals| && WellFormed(cfg, hash, arrivals[tagged[i].request], tagged[i])
  }

  predicate WellFormed(cfg: Kind -> OtpConfig, hash: string -> string, a: Arrival, t: Tagged) {
    && Identifier(a.request, t.dimension).Some?
    && t.call == CallOf(a.kind, cfg(a.kind), hash, t.dimension, Identifier(a.request, t.dimension).value, t.call.at, t.call.reply)
  }

  /** The requests whose check of `key` let them through in the scope. */
  function PassedRequests(tagged: seq<Tagged>, outs: seq<Outcome>, key: Key, scope: Scope): set<nat>
    requires |tagged| == |outs|
  {
    set i | 0 <= i < |tagged| && Is(outs[i], Passes) && InScope(outs[i], key, scope) :: tagged[i].request
  }

  lemma {:induction false} RequestsBelowPasses(tagged: seq<Tagged>, outs: seq<Outcome>, key: Key, scope: Scope)
    requires |tagged| == |outs|
    ensures |PassedRequests(tagged, outs, key, scope)| <= Number(outs, key, Passes, scope)
    decreases |outs|
  {
    var all := PassedRequests(tagged, outs, key, scope);
    if outs == [] {
      assert all == {};
    } else {
      RequestsBelowPasses(tagged[1..], outs[1..], key, scope);
      var rest := PassedRequests(tagged[1..], outs[1..], key, scope);
      var first := if Is(outs[0], Passes) && InScope(outs[0], key, scope) then {tagged[0].request} else {};
      forall r | r in all ensures r in rest + first {
        var i :| 0 <= i < |tagged| && Is(outs[i], Passes) && InScope(outs[i], key, scope) && tagged[i].request == r;
        if i > 0 {
          assert outs[1..][i - 1] == outs[i] && tagged[1..][i - 1] == tagged[i];
        }
      }
      SubsetSize(all, rest + first);
    }
  }

  lemma {:induction false} SubsetSize<T>(a: set<T>, b: set<T>)
    requires a <= b
    ensures |a| <= |b|
  {
    assert |b - a| == |b| - |a|;
  }

  lemma OneLimitPerKey(cfg: Kind -> OtpConfig, hash: string -> string, arrivals: seq<Arrival>, tagged: seq<Tagged>, kind: Kind, d: Dimension, identifier: string)
    requires WellTagged(cfg, hash, arrivals, tagged)
    ensures Uniform(Untag(tagged), KeyOf(kind, d, hash, identifier), LimitOf(cfg(kind), d), cfg(kind).seconds)
    ensures FailsClosed(Untag(tagged), KeyOf(kind, d, hash, identifier))
  {
    var calls := Untag(tagged);
    forall i | 0 <= i < |calls|
      ensures calls[i].policy.FailClosed?
      ensures calls[i].key == KeyOf(kind, d, hash, identifier) ==> calls[i].limit == LimitOf(cfg(kind), d) && calls[i].seconds == cfg(kind).seconds
    {
      var t := tagged[i];
      var a := arrivals[t.request];
      assert WellFormed(cfg, hash, a, t);
      if calls[i].key == KeyOf(kind, d, hash, identifier) {
        PrefixesDiffer(a.kind, t.dimension, hash(Identifier(a.request, t.dimension).value), kind, d, hash(identifier));
      }
    }
  }

  /**
   Whatever the mix of the two limiters and their dimensions, the interleaving and the Redis
   failures, in one window of a phone's key (or an IP's, or a device's) the requests let through of
   all identifiers that share the key together keep to the limit of that dimension, except for
   those on late answers; there are none if Redis answers with the script's pair.
   */
  lemma SharedKeyBound(cfg: Kind -> OtpConfig, hash: string -> string, arrivals: seq<Arrival>, store: Store,
                       tagged: seq<Tagged>, kind: Kind, d: Dimension, identifier: string, window: nat)
    requires WellTagged(cfg, hash, arrivals, tagged)
    ensures var key, calls := KeyOf(kind, d, hash, identifier), Untag(tagged);
      var outs, here := Run(store, calls), InWindow(window);
      var limit := Max(0, match d case Ip => cfg(kind).ip case Phone => cfg(kind).phone case Device => cfg(kind).device);
      && |PassedRequests(tagged, outs, key, here)| <= limit + Number(outs, key, Late, here)
      && (Number(outs, key, Late, here) <= Number(outs, key, LostEarly, here) ==> |PassedRequests(tagged, outs, key, here)| <= limit)
      && (NeverGarbled(calls, key) ==> |PassedRequests(tagged, outs, key, here)| <= limit)
  {
    var key, calls := KeyOf(kind, d, hash, identifier), Untag(tagged);
    OneLimitPerKey(cfg, hash, arrivals, tagged, kind, d, identifier);
    RequestsBelowPasses(tagged, Run(store, calls), key, InWindow(window));
    WindowBound(store, calls, key, LimitOf(cfg(kind), d), cfg(kind).seconds, window);
  }

  /** Twice the limit bounds the requests let through in the interval of one window length from `lo`, except for the late ones. */
  ghost predicate KeepsToTwice(tagged: seq<Tagged>, store: Store, key: Key, limit: int, seconds: int, lo: Time) {
    var outs, span := Run(store, Untag(tagged)), Between(lo, lo + Length(seconds));
    && |PassedRequests(tagged, outs, key, span)| <= 2 * Max(0, limit) + Number(outs, key, Late, span)
    && (NeverGarbled(Untag(tagged), key) ==> |PassedRequests(tagged, outs, key, span)| <= 2 * Max(0, limit))
  }

  /** The same for any interval of one window length, with twice the limit. */
  lemma SharedKeySlidingBound(cfg: Kind -> OtpConfig, hash: string -> string, arrivals: seq<Arrival>, store: Store,
                              tagged: seq<Tagged>, kind: Kind, d: Dimension, identifier: string, lo: Time)
    requires WellTagged(cfg, hash, arrivals, tagged) && cfg(kind).seconds >= 1 && Chronological(Untag(tagged))
    ensures var limit := match d case Ip => cfg(kind).ip case Phone => cfg(kind).phone case Device => cfg(kind).device;
      KeepsToTwice(tagged, store, KeyOf(kind, d, hash, identifier), limit, cfg(kind).seconds, lo)
  {
    OneLimitPerKey(cfg, hash, arrivals, tagged, kind, d, identifier);
    RequestsSlide(tagged, store, KeyOf(kind, d, hash, identifier), LimitOf(cfg(kind), d), cfg(kind).seconds, lo);
  }

  lemma RequestsSlide(tagged: seq<Tagged>, store: Store, key: Key, limit: int, seconds: int, lo: Time)
    requires seconds >= 1 && Uniform(Untag(tagged), key, limit, seconds) && FailsClosed(Untag(tagged), key) && Chronological(Untag(tagged))
    ensures KeepsToTwice(tagged, store, key, limit, seconds, lo)
  {
    RequestsBelowPasses(tagged, Run(store, Untag(tagged)), key, Between(lo, lo + Length(seconds)));
    SlidingBound(store, Untag(tagged), key, limit, seconds, lo);
  }

  /** A check that lets its request go on is counted by SharedKeyBound on the key it charged. */
  lemma PassingIsCounted(cfg: Kind -> OtpConfig, hash: string -> string, arrivals: seq<Arrival>, store: Store, tagged: seq<Tagged>, i: nat)
    requires WellTagged(cfg, hash, arrivals, tagged) && i < |tagged| && Run(store, Untag(tagged))[i].allowed
    ensures var a, d, outs := arrivals[tagged[i].request], tagged[i].dimension, Run(store, Untag(tagged));
      && Identifier(a.request, d).Some?
      && tagged[i].request in
           PassedRequests(tagged, outs, KeyOf(a.kind, d, hash, Identifier(a.request, d).value), InWindow(outs[i].window))
  {
    assert WellFormed(cfg, hash, arrivals[tagged[i].request], tagged[i]);
  }
}
