/**
 The distributed rate limiter: a fixed-window counter kept in Redis by one
 atomic script. Instants are milliseconds, windows are seconds. TTL rounds to the
 nearest second.
 */
module RateLimiter {
  import opened Options
  import opened Numbers

  type Key = string
  type Time = int
  type Hits = n: int | n >= 1 witness 1

  /**
   Whether a key is already gone at the instant it expires at (0) or only from the next millisecond
   on (1). It is left open: everything below holds for either rule.
   */
  type Edge = e: int | 0 <= e <= 1 witness 0
  const EDGE: Edge

  /** A stored counter; expiresAt is None for a key that would never expire. */
  datatype Entry = Entry(count: Hits, expiresAt: Option<Time>)

  datatype Policy = FailClosed | FailOpen
  datatype Verdict = Ok | Exceeded | Unavailable
  datatype Result = Result(allowed: bool, remaining: int, resetAfterSeconds: int, status: Verdict)

  /**
   What becomes of a call to Redis: the script's answer arrives; the call fails before or after
   the script ran; or something that is not the script's pair arrives.
   */
  datatype Reply = Served | LostBefore | LostAfter | Garbled

  function Live(e: Option<Entry>, now: Time): (l: Option<Entry>)
    ensures l.Some? <==> e.Some? && (e.value.expiresAt.Some? ==> now < e.value.expiresAt.value + EDGE)
    ensures l.Some? ==> l == e
  {
    if e.Some? && e.value.expiresAt.Some? && e.value.expiresAt.value + EDGE <= now then None else e
  }

  /** How many milliseconds a window lasts. */
  function Length(seconds: int): Time {
    seconds * 1000 + EDGE
  }

  /** EXPIRE: a timeout that is not positive deletes the key. */
  function Expire(e: Entry, now: Time, seconds: int): Option<Entry> {
    if seconds <= 0 then None else Some(e.(expiresAt := Some(now + seconds * 1000)))
  }

  function Ttl(e: Option<Entry>, now: Time): int {
    if e.None? then -2 else if e.value.expiresAt.None? then -1 else (e.value.expiresAt.value - now + 500) / 1000
  }

  datatype ScriptResult = ScriptResult(entry: Option<Entry>, count: int, ttl: int)

  /** RATE_LIMIT_LUA_SCRIPT on the entry of its key. */
  function Script(stored: Option<Entry>, now: Time, seconds: int): (r: ScriptResult) {
    var live := Live(stored, now);
    var hit := if live.Some? then live.value.(count := live.value.count + 1) else Entry(1, None);
    var first := if hit.count == 1 then Expire(hit, now, seconds) else Some(hit);
    var ttl := Ttl(first, now);
    if ttl == -1 && first.Some? then ScriptResult(Expire(first.value, now, seconds), hit.count, seconds)
    else ScriptResult(first, hit.count, ttl)
  }

  predicate Executed(reply: Reply) { !reply.LostBefore? }

  predicate Answered(reply: Reply) { reply.Served? || reply.Garbled? }

  function EntryAfter(stored: Option<Entry>, now: Time, seconds: int, reply: Reply): Option<Entry> {
    if Executed(reply) then Script(stored, now, seconds).entry else stored
  }

  /** incrementRateLimit. */
  function Answer(stored: Option<Entry>, limit: int, seconds: int, policy: Policy, now: Time, reply: Reply): (r: Result) {
    if reply.Served? || reply.Garbled? then
      var s := Script(stored, now, seconds);
      var count := if reply.Served? then s.count else 1;
      var rawTtl := if reply.Served? then s.ttl else seconds;
      var ttl := if rawTtl > 0 then rawTtl else seconds;
      if count > limit then Result(false, 0, ttl, Exceeded) else Result(true, Max(0, limit - count), ttl, Ok)
    else if policy.FailClosed? then Result(false, 0, seconds, Unavailable)
    else Result(true, 1, seconds, Ok)
  }

  // ------------------------------------------------------------ one call

  /** The script, case by case: a key that is not there, one that would never expire, and one that will. */
  lemma ScriptCases(stored: Option<Entry>, now: Time, seconds: int)
    ensures var s := Script(stored, now, seconds);
      && (Live(stored, now).None? ==>
            && s.count == 1
            && (seconds >= 1 ==> s.entry == Some(Entry(1, Some(now + seconds * 1000))) && s.ttl == seconds)
            && (seconds <= 0 ==> s.entry == None && s.ttl == -2))
      && (Live(stored, now).Some? && stored.value.expiresAt.None? ==>
            && s.count == stored.value.count + 1 && s.ttl == seconds
            && s.entry == (if seconds >= 1 then Some(Entry(s.count, Some(now + seconds * 1000))) else None))
      && (Live(stored, now).Some? && stored.value.expiresAt.Some? ==>
            && s.count == stored.value.count + 1 && s.entry == Some(Entry(s.count, stored.value.expiresAt))
            && s.ttl == (stored.value.expiresAt.value - now + 500) / 1000)
  {
  }

  /** With a positive window every executed call leaves a key that will expire; an immortal key is healed by it. */
  lemma ScriptHeals(stored: Option<Entry>, now: Time, seconds: int)
    requires seconds >= 1
    ensures var e := Script(stored, now, seconds).entry;
      e.Some? && e.value.expiresAt.Some? && Live(e, now).Some?
    ensures Live(stored, now).None? || stored.value.expiresAt.None? ==>
      Script(stored, now, seconds).entry.value.expiresAt == Some(now + seconds * 1000)
  {
  }

  /** A call on a live key, admitted or not, adds one and leaves the expiry where it is. */
  lemma ScriptKeepsExpiry(stored: Option<Entry>, now: Time, seconds: int)
    requires Live(stored, now).Some? && stored.value.expiresAt.Some?
    ensures Script(stored, now, seconds).entry == Some(stored.value.(count := stored.value.count + 1))
    ensures Script(stored, now, seconds).count == stored.value.count + 1
  {
  }

  /**
   Retry-After: a caller that was turned away and comes back first, after exactly the seconds it
   was told, is let in if and only if the rounding of TTL did not cut the wait short. With a
   whole number of seconds left that depends on whether the key is gone at its last instant.
   */
  lemma RetryAfterIsEnoughIff(stored: Option<Entry>, limit: int, seconds: int, policy: Policy, now: Time)
    requires seconds >= 1 && limit >= 1 && Answer(stored, limit, seconds, policy, now, Served).status.Exceeded?
    ensures var r := Answer(stored, limit, seconds, policy, now, Served);
      var next := Script(stored, now, seconds).entry;
      var left := next.value.expiresAt.value - now;
      Answer(next, limit, seconds, policy, now + r.resetAfterSeconds * 1000, Served).allowed
      <==> left < 500 || left % 1000 >= 500 || (left % 1000 == 0 && EDGE == 0)
  {
    ScriptHeals(stored, now, seconds);
    var next := Script(stored, now, seconds).entry;
    var left := next.value.expiresAt.value - now;
    var ttl := Ttl(next, now);
    assert ttl == (left + 500) / 1000;
    RoundedSeconds(left);
  }

  lemma RoundedSeconds(left: int)
    requires left >= 0
    ensures var ttl := (left + 500) / 1000;
      && (ttl > 0 ==> (ttl * 1000 >= left + EDGE <==> left % 1000 >= 500 || (left % 1000 == 0 && EDGE == 0)))
      && (ttl == 0 <==> left < 500)
  {
    var q, m := left / 1000, left % 1000;
    assert left == 1000 * q + m;
    assert (left + 500) / 1000 == if m < 500 then q else q + 1;
  }

  /**
   The verdicts, for every call: unavailable if and only if it went unanswered and fails closed, exceeded if and
   only if the count in the answer is past the limit, and ok otherwise; ok and nothing else lets
   through. An answer that is not the script's counts as 1.
   */
  lemma VerdictIff(stored: Option<Entry>, limit: int, seconds: int, policy: Policy, now: Time, reply: Reply)
    ensures var r := Answer(stored, limit, seconds, policy, now, reply);
      var counted := if reply.Served? then Script(stored, now, seconds).count else 1;
      && (r.status.Unavailable? <==> !Answered(reply) && policy.FailClosed?)
      && (r.status.Exceeded? <==> Answered(reply) && limit < counted)
      && (r.allowed <==> r.status.Ok?)
      && (!Answered(reply) ==> r.resetAfterSeconds == seconds && r.remaining == if policy.FailOpen? then 1 else 0)
      && (Answered(reply) ==> r.remaining == if counted <= limit then limit - counted else 0)
  {
  }

  /** What a caller is told to wait: the rest of the window to the nearest second, the whole window when less than half a second is left. */
  lemma ResetIsTheRest(stored: Option<Entry>, limit: int, seconds: int, policy: Policy, now: Time)
    requires seconds >= 1
    ensures var r := Answer(stored, limit, seconds, policy, now, Served);
      var left := Script(stored, now, seconds).entry.value.expiresAt.value - now;
      if left < 500 then r.resetAfterSeconds == seconds
      else -500 < r.resetAfterSeconds * 1000 - left <= 500
  {
    ScriptHeals(stored, now, seconds);
    ScriptCases(stored, now, seconds);
    var left := Script(stored, now, seconds).entry.value.expiresAt.value - now;
    var q, m := left / 1000, left % 1000;
    assert left == 1000 * q + m;
    assert (left + 500) / 1000 == if m < 500 then q else q + 1;
  }

  // ------------------------------------------------------------ traces of calls

  datatype Call = Call(key: Key, at: Time, limit: int, seconds: int, policy: Policy, reply: Reply)

  /** A key's entry and the number of windows opened on it so far. */
  datatype Slot = Slot(entry: Option<Entry>, window: nat)
  type Store = map<Key, Slot>

  /** within: the script ran and counted no more than the limit; allowed: the request was let through. */
  datatype Outcome = Outcome(key: Key, at: Time, reply: Reply, window: nat, within: bool, allowed: bool)

  function SlotOf(store: Store, key: Key): Slot {
    if key in store then store[key] else Slot(None, 0)
  }

  function SlotAfter(slot: Slot, c: Call): (t: Slot) {
    var opens := Executed(c.reply) && Live(slot.entry, c.at).None?;
    Slot(EntryAfter(slot.entry, c.at, c.seconds, c.reply), if opens then slot.window + 1 else slot.window)
  }

  function StoreAfter(store: Store, c: Call): Store {
    store[c.key := SlotAfter(SlotOf(store, c.key), c)]
  }

  function OutcomeAt(slot: Slot, c: Call): (o: Outcome) {
    Outcome(c.key, c.at, c.reply, SlotAfter(slot, c).window,
            Executed(c.reply) && Script(slot.entry, c.at, c.seconds).count <= c.limit,
            Answer(slot.entry, c.limit, c.seconds, c.policy, c.at, c.reply).allowed)
  }

  function OutcomeOf(store: Store, c: Call): Outcome {
    OutcomeAt(SlotOf(store, c.key), c)
  }

  /** The outcomes of calls that reach Redis in this order, from any store. */
  function Run(store: Store, calls: seq<Call>): (outs: seq<Outcome>)
    ensures |outs| == |calls|
    ensures forall i :: 0 <= i < |calls| ==> outs[i].key == calls[i].key && outs[i].at == calls[i].at && outs[i].reply == calls[i].reply
    decreases |calls|
  {
    if calls == [] then [] else [OutcomeOf(store, calls[0])] + Run(StoreAfter(store, calls[0]), calls[1..])
  }

  /** All calls on `key` are made by limiters with this limit and window. */
  ghost predicate Uniform(calls: seq<Call>, key: Key, limit: int, seconds: int) {
    forall i :: 0 <= i < |calls| && calls[i].key == key ==> calls[i].limit == limit && calls[i].seconds == seconds
  }

  ghost predicate Chronological(calls: seq<Call>) {
    forall i, j :: 0 <= i < j < |calls| ==> calls[i].at <= calls[j].at
  }

  ghost predicate FailsClosed(calls: seq<Call>, key: Key) {
    forall i :: 0 <= i < |calls| && calls[i].key == key ==> calls[i].policy.FailClosed?
  }

  ghost predicate FailsOpen(calls: seq<Call>, key: Key) {
    forall i :: 0 <= i < |calls| && calls[i].key == key ==> calls[i].policy.FailOpen?
  }

  ghost predicate NeverGarbled(calls: seq<Call>, key: Key) {
    forall i :: 0 <= i < |calls| && calls[i].key == key ==> !calls[i].reply.Garbled?
  }

  // ------------------------------------------------------------ what is counted

  /**
   Hits: the script ran. Passes: the request was let through. A pass is on time if it was answered
   and within the limit, late if it was answered past the limit, and failed open if it was not
   answered. Unanswered: the call to Redis failed. LostEarly: the script counted it within the limit, but its answer was lost.
   */
  datatype What = Hits | Passes | OnTime | Late | FailedOpen | LostEarly | Unanswered

  datatype Scope = InWindow(window: nat) | Between(lo: Time, hi: Time)

  predicate Is(o: Outcome, what: What) {
    match what
    case Hits => Executed(o.reply)
    case Passes => o.allowed
    case OnTime => o.allowed && Answered(o.reply) && o.within
    case Late => o.allowed && Answered(o.reply) && !o.within
    case FailedOpen => o.allowed && !Answered(o.reply)
    case LostEarly => o.reply.LostAfter? && o.within
    case Unanswered => !Answered(o.reply)
  }

  predicate InScope(o: Outcome, key: Key, scope: Scope) {
    o.key == key && match scope case InWindow(w) => o.window == w case Between(lo, hi) => lo <= o.at <= hi
  }

  function One(o: Outcome, key: Key, what: What, scope: Scope): nat {
    if Is(o, what) && InScope(o, key, scope) then 1 else 0
  }

  function Number(outs: seq<Outcome>, key: Key, what: What, scope: Scope): (n: nat) {
    if outs == [] then 0 else One(outs[0], key, what, scope) + Number(outs[1..], key, what, scope)
  }

  lemma NumberOfRun(store: Store, c: Call, rest: seq<Call>, key: Key, what: What, scope: Scope)
    ensures Number(Run(store, [c] + rest), key, what, scope)
            == One(OutcomeOf(store, c), key, what, scope) + Number(Run(StoreAfter(store, c), rest), key, what, scope)
  {
    assert ([c] + rest)[1..] == rest;
    assert Run(store, [c] + rest)[1..] == Run(StoreAfter(store, c), rest);
  }

  lemma NumberOfCalls(store: Store, calls: seq<Call>, key: Key, what: What, scope: Scope)
    requires calls != []
    ensures Number(Run(store, calls), key, what, scope)
            == One(OutcomeOf(store, calls[0]), key, what, scope) + Number(Run(StoreAfter(store, calls[0]), calls[1..]), key, what, scope)
  {
    assert Run(store, calls)[1..] == Run(StoreAfter(store, calls[0]), calls[1..]);
  }

  /** Every request let through is on time, late or failed open, and the first two and the early lost are different hits. */
  lemma {:induction false} PassesSplit(outs: seq<Outcome>, key: Key, scope: Scope)
    ensures Number(outs, key, Passes, scope)
            == Number(outs, key, OnTime, scope) + Number(outs, key, Late, scope) + Number(outs, key, FailedOpen, scope)
    ensures Number(outs, key, OnTime, scope) + Number(outs, key, Late, scope) + Number(outs, key, LostEarly, scope)
            <= Number(outs, key, Hits, scope)
  {
    if outs != [] {
      PassesSplit(outs[1..], key, scope);
    }
  }

  /** A key whose limiters all fail closed never fails open. */
  lemma {:induction false} ClosedNeverFailsOpen(store: Store, calls: seq<Call>, key: Key, scope: Scope)
    requires FailsClosed(calls, key)
    ensures Number(Run(store, calls), key, FailedOpen, scope) == 0
    decreases |calls|
  {
    if calls != [] {
      ClosedNeverFailsOpen(StoreAfter(store, calls[0]), calls[1..], key, scope);
      NumberOfCalls(store, calls, key, FailedOpen, scope);
    }
  }

  /** A key whose limiters all fail open lets every unanswered call through. */
  lemma {:induction false} OpenAdmitsTheUnanswered(store: Store, calls: seq<Call>, key: Key, scope: Scope)
    requires FailsOpen(calls, key)
    ensures Number(Run(store, calls), key, FailedOpen, scope) == Number(Run(store, calls), key, Unanswered, scope)
    decreases |calls|
  {
    if calls != [] {
      OpenAdmitsTheUnanswered(StoreAfter(store, calls[0]), calls[1..], key, scope);
      NumberOfCalls(store, calls, key, FailedOpen, scope);
      NumberOfCalls(store, calls, key, Unanswered, scope);
      var slot, c := SlotOf(store, calls[0].key), calls[0];
      VerdictIff(slot.entry, c.limit, c.seconds, c.policy, c.at, c.reply);
    }
  }

  /** A call that fails open is refused if and only if its answer counts past the limit. */
  lemma {:induction false} OpenRefusesIff(store: Store, calls: seq<Call>, i: nat)
    requires i < |calls| && calls[i].policy.FailOpen?
    ensures var o := Run(store, calls)[i];
      !o.allowed <==> (calls[i].reply.Served? && !o.within) || (calls[i].reply.Garbled? && calls[i].limit < 1)
    decreases |calls|
  {
    if i == 0 {
      var slot, c := SlotOf(store, calls[0].key), calls[0];
      VerdictIff(slot.entry, c.limit, c.seconds, c.policy, c.at, c.reply);
    } else {
      OpenRefusesIff(StoreAfter(store, calls[0]), calls[1..], i - 1);
    }
  }

  /** Only an answer that is not the script's lets a request through past the limit. */
  lemma {:induction false} LateIsGarbled(store: Store, calls: seq<Call>, key: Key, scope: Scope)
    requires NeverGarbled(calls, key)
    ensures Number(Run(store, calls), key, Late, scope) == 0
    decreases |calls|
  {
    if calls != [] {
      LateIsGarbled(StoreAfter(store, calls[0]), calls[1..], key, scope);
      NumberOfCalls(store, calls, key, Late, scope);
    }
  }

  // ------------------------------------------------------------ one window

  /** What is left of the limit in a window, given the slot it starts from. */
  function Left(slot: Slot, limit: int, window: nat): nat {
    if window < slot.window then 0
    else if window == slot.window then (if slot.entry.Some? then Max(0, limit - slot.entry.value.count) else 0)
    else Max(0, limit)
  }

  /** No call can hit the window any more. */
  predicate Closed(slot: Slot, window: nat) {
    window < slot.window || (window == slot.window && slot.entry.None?)
  }

  lemma {:induction false} NoHitsInClosedWindow(store: Store, calls: seq<Call>, key: Key, window: nat)
    requires Closed(SlotOf(store, key), window)
    ensures Number(Run(store, calls), key, Hits, InWindow(window)) == 0
    decreases |calls|
  {
    if calls != [] {
      NoHitsInClosedWindow(StoreAfter(store, calls[0]), calls[1..], key, window);
      NumberOfCalls(store, calls, key, Hits, InWindow(window));
    }
  }

  /** One call uses up one of what is left, and is on time or lost early, if and only if something is left. */
  lemma LeftStep(slot: Slot, c: Call, window: nat, later: nat)
    requires Closed(SlotAfter(slot, c), window) ==> later == 0
    ensures var o := OutcomeAt(slot, c);
      One(o, c.key, OnTime, InWindow(window)) + One(o, c.key, LostEarly, InWindow(window)) + Min(later, Left(SlotAfter(slot, c), c.limit, window))
      == Min(One(o, c.key, Hits, InWindow(window)) + later, Left(slot, c.limit, window))
  {
  }

  /**
   The law of a window, over every trace and every pattern of Redis failures: of the calls that hit
   it, exactly as many as were left of the limit are on time or lost early.
   */
  lemma {:induction false} WindowLaw(store: Store, calls: seq<Call>, key: Key, limit: int, seconds: int, window: nat)
    requires Uniform(calls, key, limit, seconds)
    ensures var outs := Run(store, calls);
      Number(outs, key, OnTime, InWindow(window)) + Number(outs, key, LostEarly, InWindow(window))
      == Min(Number(outs, key, Hits, InWindow(window)), Left(SlotOf(store, key), limit, window))
    decreases |calls|
  {
    if calls != [] {
      var rest := StoreAfter(store, calls[0]);
      WindowLaw(rest, calls[1..], key, limit, seconds, window);
      NumberOfCalls(store, calls, key, OnTime, InWindow(window));
      NumberOfCalls(store, calls, key, LostEarly, InWindow(window));
      NumberOfCalls(store, calls, key, Hits, InWindow(window));
      if calls[0].key == key {
        if Closed(SlotOf(rest, key), window) {
          NoHitsInClosedWindow(rest, calls[1..], key, window);
        }
        LeftStep(SlotOf(store, key), calls[0], window, Number(Run(rest, calls[1..]), key, Hits, InWindow(window)));
      }
    }
  }

  /**
   A window of a key that fails closed lets no more through than what was left of its limit, except
   for the late ones; it keeps to that if and only if no more were late than were lost early, so
   always if Redis answers with the script's pair.
   */
  lemma WindowBound(store: Store, calls: seq<Call>, key: Key, limit: int, seconds: int, window: nat)
    requires Uniform(calls, key, limit, seconds) && FailsClosed(calls, key)
    ensures var outs, left := Run(store, calls), Left(SlotOf(store, key), limit, window);
      && left <= Max(0, limit)
      && Number(outs, key, Passes, InWindow(window)) <= left + Number(outs, key, Late, InWindow(window))
      && (Number(outs, key, Passes, InWindow(window)) <= left
          <==> Number(outs, key, Late, InWindow(window)) <= Number(outs, key, LostEarly, InWindow(window)))
      && (NeverGarbled(calls, key) ==> Number(outs, key, Passes, InWindow(window)) <= left)
  {
    WindowLaw(store, calls, key, limit, seconds, window);
    PassesSplit(Run(store, calls), key, InWindow(window));
    ClosedNeverFailsOpen(store, calls, key, InWindow(window));
    if NeverGarbled(calls, key) {
      LateIsGarbled(store, calls, key, InWindow(window));
    }
  }

  /**
   A call told remaining = k is followed by exactly k more passes in its window if that many calls hit
   it, less the answers lost early, plus the late ones and those that fail open.
   */
  lemma RemainingIsExact(store: Store, c: Call, later: seq<Call>)
    requires c.seconds >= 1 && c.reply.Served? && Uniform(later, c.key, c.limit, c.seconds)
    requires Answer(SlotOf(store, c.key).entry, c.limit, c.seconds, c.policy, c.at, c.reply).allowed
    ensures var k := Answer(SlotOf(store, c.key).entry, c.limit, c.seconds, c.policy, c.at, c.reply).remaining;
      var here := InWindow(OutcomeOf(store, c).window);
      var outs := Run(StoreAfter(store, c), later);
      Number(outs, c.key, Passes, here) + Number(outs, c.key, LostEarly, here)
      == Min(Number(outs, c.key, Hits, here), k) + Number(outs, c.key, Late, here) + Number(outs, c.key, FailedOpen, here)
  {
    ScriptHeals(SlotOf(store, c.key).entry, c.at, c.seconds);
    var window := OutcomeOf(store, c).window;
    WindowLaw(StoreAfter(store, c), later, c.key, c.limit, c.seconds, window);
    PassesSplit(Run(StoreAfter(store, c), later), c.key, InWindow(window));
  }

  // ------------------------------------------------------------ any interval

  /** The earliest instant at which the window after the slot's own can open. */
  function Floor(slot: Slot, now: Time): Time {
    if slot.entry.Some? && slot.entry.value.expiresAt.Some? then Max(now, slot.entry.value.expiresAt.value + EDGE) else now
  }

  /** A hit at `at` of the window with this number, seen from the slot at `now`: the window after next is a full length away. */
  predicate Apart(slot: Slot, now: Time, seconds: int, window: nat, at: Time) {
    && window >= slot.window
    && (window >= slot.window + 1 ==> at >= Floor(slot, now))
    && (window >= slot.window + 2 ==> at >= Floor(slot, now) + Length(seconds))
  }

  /** The window after next is at least one full window length away. */
  lemma {:induction false} WindowsAreApart(store: Store, calls: seq<Call>, key: Key, limit: int, seconds: int, now: Time, i: nat)
    requires seconds >= 1 && Uniform(calls, key, limit, seconds) && Chronological(calls)
    requires i < |calls| && calls[i].key == key && now <= calls[0].at
    ensures Apart(SlotOf(store, key), now, seconds, Run(store, calls)[i].window, calls[i].at)
    decreases |calls|
  {
    var c := calls[0];
    var rest := StoreAfter(store, c);
    if i == 0 {
      ApartStep(SlotOf(store, key), c, now);
    } else {
      WindowsAreApart(rest, calls[1..], key, limit, seconds, c.at, i - 1);
      assert Run(store, calls)[i] == Run(rest, calls[1..])[i - 1];
      if c.key == key {
        ApartBefore(SlotOf(store, key), c, now, Run(store, calls)[i].window, calls[i].at);
      }
    }
  }

  lemma ApartBefore(slot: Slot, c: Call, now: Time, window: nat, at: Time)
    requires c.seconds >= 1 && now <= c.at && Apart(SlotAfter(slot, c), c.at, c.seconds, window, at) && c.at <= at
    ensures Apart(slot, now, c.seconds, window, at)
  {
    ApartStep(slot, c, now);
  }

  lemma ApartStep(slot: Slot, c: Call, now: Time)
    requires c.seconds >= 1 && now <= c.at
    ensures var next := SlotAfter(slot, c);
      || (next.window == slot.window && Floor(next, c.at) >= Floor(slot, now))
      || (next.window == slot.window + 1 && c.at >= Floor(slot, now) && Floor(next, c.at) >= c.at + Length(c.seconds))
    ensures Executed(c.reply) ==> c.at < Floor(SlotAfter(slot, c), c.at)
  {
    if Executed(c.reply) {
      ScriptHeals(slot.entry, c.at, c.seconds);
      if Live(slot.entry, c.at).Some? && slot.entry.value.expiresAt.Some? {
        ScriptKeepsExpiry(slot.entry, c.at, c.seconds);
      }
    }
  }

  lemma {:induction false} TwoWindowsCover(outs: seq<Outcome>, key: Key, lo: Time, hi: Time, window: nat)
    requires forall i :: 0 <= i < |outs| && Is(outs[i], OnTime) && InScope(outs[i], key, Between(lo, hi)) ==>
               outs[i].window == window || outs[i].window == window + 1
    ensures Number(outs, key, OnTime, Between(lo, hi))
            <= Number(outs, key, OnTime, InWindow(window)) + Number(outs, key, OnTime, InWindow(window + 1))
    decreases |outs|
  {
    if outs != [] {
      TwoWindowsCover(outs[1..], key, lo, hi, window);
    }
  }

  /** Once the first call is a hit, the rest of an interval of one window length lies in its window and the next. */
  lemma TwoWindowsFromFirst(store: Store, calls: seq<Call>, key: Key, limit: int, seconds: int, lo: Time, i: nat)
    requires seconds >= 1 && Uniform(calls, key, limit, seconds) && Chronological(calls) && i < |calls|
    requires calls[0].key == key && Executed(calls[0].reply) && lo <= calls[0].at
    requires calls[i].key == key && calls[i].at <= lo + Length(seconds)
    ensures var outs := Run(store, calls);
      outs[0].window <= outs[i].window <= outs[0].window + 1
  {
    if i > 0 {
      var rest := StoreAfter(store, calls[0]);
      ApartStep(SlotOf(store, key), calls[0], calls[0].at);
      WindowsAreApart(rest, calls[1..], key, limit, seconds, calls[0].at, i - 1);
      assert Run(store, calls)[i] == Run(rest, calls[1..])[i - 1];
    }
  }

  lemma OnTimeInWindow(store: Store, calls: seq<Call>, key: Key, limit: int, seconds: int, window: nat)
    requires Uniform(calls, key, limit, seconds)
    ensures Number(Run(store, calls), key, OnTime, InWindow(window)) <= Max(0, limit)
  {
    WindowLaw(store, calls, key, limit, seconds, window);
  }

  lemma {:induction false} OnTimeInInterval(store: Store, calls: seq<Call>, key: Key, limit: int, seconds: int, lo: Time)
    requires seconds >= 1 && Uniform(calls, key, limit, seconds) && Chronological(calls)
    ensures Number(Run(store, calls), key, OnTime, Between(lo, lo + Length(seconds))) <= 2 * Max(0, limit)
    decreases |calls|
  {
    if calls != [] {
      var outs, hi := Run(store, calls), lo + Length(seconds);
      if Is(outs[0], OnTime) && InScope(outs[0], key, Between(lo, hi)) {
        var window := outs[0].window;
        forall i | 0 <= i < |outs| && Is(outs[i], OnTime) && InScope(outs[i], key, Between(lo, hi))
          ensures outs[i].window == window || outs[i].window == window + 1
        {
          TwoWindowsFromFirst(store, calls, key, limit, seconds, lo, i);
        }
        TwoWindowsCover(outs, key, lo, hi, window);
        OnTimeInWindow(store, calls, key, limit, seconds, window);
        OnTimeInWindow(store, calls, key, limit, seconds, window + 1);
      } else {
        OnTimeInInterval(StoreAfter(store, calls[0]), calls[1..], key, limit, seconds, lo);
        NumberOfCalls(store, calls, key, OnTime, Between(lo, hi));
      }
    }
  }

  /**
   In every interval of one window length a key that fails closed lets at most twice its limit
   through, except for the late ones; there are none if Redis answers with the script's pair.
   */
  lemma SlidingBound(store: Store, calls: seq<Call>, key: Key, limit: int, seconds: int, lo: Time)
    requires seconds >= 1 && Uniform(calls, key, limit, seconds) && Chronological(calls) && FailsClosed(calls, key)
    ensures var outs, span := Run(store, calls), Between(lo, lo + Length(seconds));
      && Number(outs, key, Passes, span) == Number(outs, key, OnTime, span) + Number(outs, key, Late, span)
      && Number(outs, key, OnTime, span) <= 2 * Max(0, limit)
      && (NeverGarbled(calls, key) ==> Number(outs, key, Passes, span) <= 2 * Max(0, limit))
  {
    var span := Between(lo, lo + Length(seconds));
    OnTimeInInterval(store, calls, key, limit, seconds, lo);
    PassesSplit(Run(store, calls), key, span);
    ClosedNeverFailsOpen(store, calls, key, span);
    if NeverGarbled(calls, key) {
      LateIsGarbled(store, calls, key, span);
    }
  }

  /** Behind a fail_closed policy only the script's answer, or an answer that is not the script's, admits. */
  lemma {:induction false} FailClosedAdmitsOnlyServed(store: Store, calls: seq<Call>, i: nat)
    requires i < |calls| && calls[i].policy.FailClosed? && Run(store, calls)[i].allowed
    ensures calls[i].reply.Served? || calls[i].reply.Garbled?
    decreases |calls|
  {
    if i > 0 {
      FailClosedAdmitsOnlyServed(StoreAfter(store, calls[0]), calls[1..], i - 1);
    }
  }

  // ------------------------------------------------------------ the bounds are reached, and overrun

  lemma OpensWindow(store: Store, c: Call, scope: Scope)
    requires c.reply.Served? && c.seconds >= 1 && c.limit >= 1 && Live(SlotOf(store, c.key).entry, c.at).None?
    requires InScope(OutcomeOf(store, c), c.key, scope)
    ensures SlotOf(StoreAfter(store, c), c.key) == Slot(Some(Entry(1, Some(c.at + c.seconds * 1000))), SlotOf(store, c.key).window + 1)
    ensures One(OutcomeOf(store, c), c.key, Passes, scope) == 1
  {
  }

  lemma CountsHit(store: Store, c: Call, e: Entry, scope: Scope)
    requires SlotOf(store, c.key).entry == Some(e) && e.expiresAt.Some? && c.at < e.expiresAt.value + EDGE
    requires (c.reply.Served? && e.count < c.limit) || (c.reply.Garbled? && c.limit >= 1)
    requires InScope(OutcomeOf(store, c), c.key, scope)
    ensures SlotOf(StoreAfter(store, c), c.key) == Slot(Some(Entry(e.count + 1, e.expiresAt)), SlotOf(store, c.key).window)
    ensures One(OutcomeOf(store, c), c.key, Passes, scope) == 1
  {
    ScriptKeepsExpiry(Some(e), c.at, c.seconds);
  }

  /** The same call n times over. */
  function Times(c: Call, n: nat): (calls: seq<Call>)
    ensures |calls| == n && forall i :: 0 <= i < n ==> calls[i] == c
  {
    if n == 0 then [] else [c] + Times(c, n - 1)
  }

  /** The scope covers every call of the live window made at c.at. */
  predicate Covers(scope: Scope, c: Call, window: nat) {
    match scope case InWindow(w) => w == window case Between(lo, hi) => lo <= c.at <= hi
  }

  /** As many calls as are left of the limit of a live window, or any number of garbled ones, are all let through. */
  lemma {:induction false} Burst(store: Store, c: Call, n: nat, e: Entry, rest: seq<Call>, scope: Scope) returns (after: Store)
    requires SlotOf(store, c.key).entry == Some(e) && e.expiresAt.Some? && c.at < e.expiresAt.value + EDGE
    requires (c.reply.Served? && e.count + n <= c.limit) || (c.reply.Garbled? && c.limit >= 1)
    requires Covers(scope, c, SlotOf(store, c.key).window)
    ensures SlotOf(after, c.key) == Slot(Some(Entry(e.count + n, e.expiresAt)), SlotOf(store, c.key).window)
    ensures Number(Run(store, Times(c, n) + rest), c.key, Passes, scope) == n + Number(Run(after, rest), c.key, Passes, scope)
    decreases n
  {
    if n == 0 {
      assert Times(c, n) + rest == rest;
      after := store;
    } else {
      CountsHit(store, c, e, scope);
      NumberOfRun(store, c, Times(c, n - 1) + rest, c.key, Passes, scope);
      assert Times(c, n) + rest == [c] + (Times(c, n - 1) + rest);
      after := Burst(StoreAfter(store, c), c, n - 1, Entry(e.count + 1, e.expiresAt), rest, scope);
    }
  }

  /** A whole limit of calls, the first at `first.at` on a key that is not live and the rest at `c.at` in the same window. */
  lemma FullWindow(store: Store, first: Call, c: Call, rest: seq<Call>, scope: Scope) returns (after: Store)
    requires first.reply.Served? && c == first.(at := c.at) && first.seconds >= 1 && first.limit >= 1
    requires Live(SlotOf(store, c.key).entry, first.at).None?
    requires first.at <= c.at < first.at + Length(c.seconds)
    requires Covers(scope, first, SlotOf(store, c.key).window + 1) && Covers(scope, c, SlotOf(store, c.key).window + 1)
    ensures SlotOf(after, c.key) == Slot(Some(Entry(c.limit, Some(first.at + c.seconds * 1000))), SlotOf(store, c.key).window + 1)
    ensures Number(Run(store, [first] + (Times(c, c.limit - 1) + rest)), c.key, Passes, scope)
            == c.limit + Number(Run(after, rest), c.key, Passes, scope)
  {
    OpensWindow(store, first, scope);
    NumberOfRun(store, first, Times(c, c.limit - 1) + rest, c.key, Passes, scope);
    after := Burst(StoreAfter(store, first), c, c.limit - 1, Entry(1, Some(first.at + c.seconds * 1000)), rest, scope);
  }

  /** One call, n of `b`, then one and m more of `c`. */
  function Bursts(a: Call, b: Call, n: nat, c: Call, m: nat): seq<Call> {
    [a] + (Times(b, n) + ([c] + (Times(c, m) + [])))
  }

  lemma BurstsAreOrdered(a: Call, b: Call, n: nat, c: Call, m: nat)
    requires b == a.(at := b.at) && c == a.(at := c.at, reply := c.reply) && a.at <= b.at <= c.at && a.policy.FailClosed?
    ensures var calls := Bursts(a, b, n, c, m);
      Uniform(calls, a.key, a.limit, a.seconds) && Chronological(calls) && FailsClosed(calls, a.key)
  {
    var calls := Bursts(a, b, n, c, m);
    forall i | 0 <= i < |calls|
      ensures calls[i] == if i == 0 then a else if i <= n then b else c
    {
      if i > n + 1 {
        assert calls[i] == Times(c, m)[i - n - 2];
      } else if 0 < i <= n {
        assert calls[i] == Times(b, n)[i - 1];
      }
    }
  }

  /**
   The limiter is not a sliding window, and SlidingBound cannot be improved: for every limit and
   window there are calls of which twice the limit are let through within one window length.
   */
  lemma SlidingBoundIsTight(key: Key, limit: int, seconds: int) returns (calls: seq<Call>)
    requires limit >= 1 && seconds >= 1
    ensures Uniform(calls, key, limit, seconds) && Chronological(calls) && FailsClosed(calls, key)
    ensures Number(Run(map[], calls), key, Passes, Between(0, Length(seconds))) == 2 * limit
  {
    var hi := Length(seconds);
    var a := Call(key, 0, limit, seconds, FailClosed, Served);
    var b, c := a.(at := hi - 1), a.(at := hi);
    calls := Bursts(a, b, limit - 1, c, limit - 1);
    BurstsAreOrdered(a, b, limit - 1, c, limit - 1);
    var tail := [c] + (Times(c, limit - 1) + []);
    var s1 := FullWindow(map[], a, b, tail, Between(0, hi));
    var s2 := FullWindow(s1, c, c, [], Between(0, hi));
    assert Number(Run(s2, []), key, Passes, Between(0, hi)) == 0;
  }

  /**
   Answers that are not the script's overrun a key that fails closed by as many as there are: once the
   limit of a window is used up, any number of further calls is let through.
   */
  lemma GarbledAnswersOverrun(key: Key, limit: int, seconds: int, extra: nat) returns (calls: seq<Call>)
    requires limit >= 1 && seconds >= 1 && extra >= 1
    ensures Uniform(calls, key, limit, seconds) && Chronological(calls) && FailsClosed(calls, key)
    ensures Number(Run(map[], calls), key, Passes, InWindow(1)) == limit + extra
  {
    var a := Call(key, 0, limit, seconds, FailClosed, Served);
    var g := a.(reply := Garbled);
    calls := Bursts(a, a, limit - 1, g, extra - 1);
    BurstsAreOrdered(a, a, limit - 1, g, extra - 1);
    var tail := [g] + (Times(g, extra - 1) + []);
    assert tail == Times(g, extra) + [];
    var s1 := FullWindow(map[], a, a, tail, InWindow(1));
    var s2 := Burst(s1, g, extra, Entry(limit, Some(seconds * 1000)), [], InWindow(1));
    assert Number(Run(s2, []), key, Passes, InWindow(1)) == 0;
  }
}
