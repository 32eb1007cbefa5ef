/** Fixed-window rate limiting: INCR and TTL run as one pipeline, EXPIRE is a separate, later
    command that another client may overtake and that a crashed client never sends. */
module RateLimit {
  import opened Prelude

  /** What Redis stores under one key; `expires` is the first instant at which it is gone. */
  datatype Entry = Entry(count: nat, expires: Option<int>)

  // ----- Redis commands on one key -------------------------------------------------------

  /** Redis never serves an expired key. */
  function Live(e: Option<Entry>, now: int): Option<Entry> {
    if e.Some? && e.value.expires.Some? && e.value.expires.value <= now then None else e
  }

  /** INCR: a missing key starts at zero and has no expiry. */
  function Incr(e: Option<Entry>, now: int): Entry {
    match Live(e, now)
    case None => Entry(1, None)
    case Some(entry) => entry.(count := entry.count + 1)
  }

  /** Times are in milliseconds. */
  const SECOND := 1000

  /** TTL: -1 when the key has no expiry, otherwise the time left, rounded to whole seconds. */
  function Ttl(e: Entry, now: int): int {
    if e.expires.None? then -1 else (e.expires.value - now + SECOND / 2) / SECOND
  }

  /** EXPIRE: nothing happens to a missing key; a non-positive timeout deletes the key. */
  function Expire(e: Option<Entry>, now: int, window: int): Option<Entry> {
    match Live(e, now)
    case None => e
    case Some(entry) => if window <= 0 then None else Some(entry.(expires := Some(now + window)))
  }

  // ----- The protocol: any number of calls to `hit` on one key, interleaved ----------------

  datatype Step =
    | Tick(elapsed: nat)
    | Hit(call: nat)      // the INCR+TTL pipeline of one call
    | Arm(call: nat)      // the EXPIRE of a call that read a negative TTL
    | Crash(call: nat)    // the call is lost before its EXPIRE

  /** One hit the Redis backend answered, with the lifetime of the key it fell into. */
  datatype Event = Event(at: int, life: int, allowed: bool)

  /** `births` and `log` only record what happened; no command reads them. */
  datatype State = State(now: int, entry: Option<Entry>, pending: set<nat>, births: seq<int>, log: seq<Event>)

  function Init(now: int): State {
    State(now, None, {}, [], [])
  }

  function HitStep(s: State, call: nat, limit: int): State {
    var after := Incr(s.entry, s.now);
    var births := if Live(s.entry, s.now).None? then s.births + [s.now] else s.births;
    s.(entry := Some(after),
       pending := if Ttl(after, s.now) < 0 then s.pending + {call} else s.pending,
       births := births,
       log := s.log + [Event(s.now, |births| - 1, after.count <= limit)])
  }

  function Next(s: State, step: Step, limit: int, window: int): State {
    match step
    case Tick(elapsed) => s.(now := s.now + elapsed)
    case Hit(call) => if call in s.pending then s else HitStep(s, call, limit)
    case Arm(call) =>
      if call !in s.pending then s
      else s.(pending := s.pending - {call}, entry := Expire(s.entry, s.now, window))
    case Crash(call) => s.(pending := s.pending - {call})
  }

  /** The state after a whole schedule. */
  function Run(s: State, steps: seq<Step>, limit: int, window: int): State
    decreases |steps|
  {
    if steps == [] then s
    else Run(Next(s, steps[0], limit, window), steps[1..], limit, window)
  }

  // ----- Counting -----------------------------------------------------------------------

  /** Hits allowed at an instant of the half-open interval [from, to). */
  function Allowed(log: seq<Event>, from: int, to: int): nat {
    if log == [] then 0
    else Allowed(log[..|log| - 1], from, to) +
         var e := log[|log| - 1]; if e.allowed && from <= e.at < to then 1 else 0
  }

  /** The same, counting one lifetime of the key only. */
  function AllowedIn(log: seq<Event>, life: int, from: int, to: int): nat {
    if log == [] then 0
    else AllowedIn(log[..|log| - 1], life, from, to) +
         var e := log[|log| - 1]; if e.allowed && e.life == life && from <= e.at < to then 1 else 0
  }

  /** All hits allowed during one lifetime of the key. */
  function AllowedPerLife(log: seq<Event>, life: int): nat {
    if log == [] then 0
    else AllowedPerLife(log[..|log| - 1], life) +
         var e := log[|log| - 1]; if e.allowed && e.life == life then 1 else 0
  }

  lemma Appended(log: seq<Event>, e: Event, life: int, from: int, to: int)
    ensures AllowedPerLife(log + [e], life) == AllowedPerLife(log, life) + if e.allowed && e.life == life then 1 else 0
    ensures AllowedIn(log + [e], life, from, to) ==
            AllowedIn(log, life, from, to) + if e.allowed && e.life == life && from <= e.at < to then 1 else 0
  {
    assert (log + [e])[..|log|] == log;
  }

  /** Two disjoint intervals share the allowed hits of a lifetime. */
  lemma {:induction false} Disjoint(log: seq<Event>, life: int, a: int, b: int, from: int, to: int)
    requires b <= from || to <= a
    ensures AllowedIn(log, life, a, b) + AllowedIn(log, life, from, to) <= AllowedPerLife(log, life)
  {
    if log != [] { Disjoint(log[..|log| - 1], life, a, b, from, to); }
  }

  lemma {:induction false} TwoLives(log: seq<Event>, life: int, from: int, to: int)
    requires forall e :: e in log && e.allowed && from <= e.at < to ==> e.life == life || e.life == life + 1
    ensures Allowed(log, from, to) == AllowedIn(log, life, from, to) + AllowedIn(log, life + 1, from, to)
  {
    if log != [] {
      assert log[|log| - 1] in log;
      TwoLives(log[..|log| - 1], life, from, to);
    }
  }

  lemma {:induction false} NoneIn(log: seq<Event>, life: int, from: int, to: int)
    requires forall e :: e in log && from <= e.at < to ==> e.life != life
    ensures AllowedIn(log, life, from, to) == 0
  {
    if log != [] {
      assert log[|log| - 1] in log;
      NoneIn(log[..|log| - 1], life, from, to);
    }
  }

  lemma {:induction false} NonePerLife(log: seq<Event>, life: int)
    requires forall e :: e in log ==> e.life != life
    ensures AllowedPerLife(log, life) == 0
  {
    if log != [] {
      assert log[|log| - 1] in log;
      NonePerLife(log[..|log| - 1], life);
    }
  }

  /** All hits that fell into one lifetime. */
  function HitsIn(log: seq<Event>, life: int): nat {
    if log == [] then 0
    else HitsIn(log[..|log| - 1], life) + if log[|log| - 1].life == life then 1 else 0
  }

  lemma {:induction false} NoHitsIn(log: seq<Event>, life: int)
    requires forall e :: e in log ==> e.life != life
    ensures HitsIn(log, life) == 0
  {
    if log != [] {
      assert log[|log| - 1] in log;
      NoHitsIn(log[..|log| - 1], life);
    }
  }

  // ----- The invariant --------------------------------------------------------------------

  /** Lifetimes start at least a window apart and the stored expiry honours the last one. */
  ghost predicate Spaced(s: State, window: int) {
    && (forall i :: 0 <= i < |s.births| ==> s.births[i] <= s.now)
    && (forall i, j :: 0 <= i < j < |s.births| ==> s.births[i] + window <= s.births[j])
    && (s.births == [] ==> s.entry.None?)
    && (s.births != [] && window > 0 ==> s.entry.Some?)
    && (s.entry.Some? && s.entry.value.expires.Some?
        ==> s.births[|s.births| - 1] + window <= s.entry.value.expires.value)
  }

  ghost predicate InLife(s: State, window: int, e: Event) {
    && 0 <= e.life < |s.births|
    && s.births[e.life] <= e.at <= s.now
    && (window > 0 ==> forall j :: e.life < j < |s.births| ==> e.at < s.births[j])
    && (window > 0 && s.entry.Some? && s.entry.value.expires.Some? ==> e.at < s.entry.value.expires.value)
  }

  /** Every hit lies inside the lifetime it was counted for. */
  ghost predicate Placed(s: State, window: int) {
    forall e :: e in s.log ==> InLife(s, window, e)
  }

  /** The first hit of a lifetime creates the key, and no lifetime lets more than `limit` through. */
  ghost predicate LifeCounted(s: State, limit: int, i: int)
    requires 0 <= i < |s.births|
  {
    && AllowedPerLife(s.log, i) <= Max(limit, 0)
    && (1 <= limit ==> 1 <= AllowedIn(s.log, i, s.births[i], s.births[i] + 1))
  }

  ghost predicate Counted(s: State, limit: int) {
    && (forall i :: 0 <= i < |s.births| ==> LifeCounted(s, limit, i))
    && (s.entry.Some? ==>
        && s.entry.value.count > 0
        && AllowedPerLife(s.log, |s.births| - 1) == Min(s.entry.value.count, Max(limit, 0)))
  }

  ghost predicate Inv(s: State, limit: int, window: int) {
    Spaced(s, window) && Placed(s, window) && Counted(s, limit)
  }

  lemma HitKeepsSpaced(s: State, call: nat, limit: int, window: int)
    requires Spaced(s, window)
    ensures Spaced(HitStep(s, call, limit), window)
  {
  }

  lemma HitKeepsPlaced(s: State, call: nat, limit: int, window: int)
    requires Spaced(s, window) && Placed(s, window)
    ensures Placed(HitStep(s, call, limit), window)
  {
    var t := HitStep(s, call, limit);
    forall e | e in t.log ensures InLife(t, window, e) {
      if e in s.log { assert InLife(s, window, e); }
    }
  }

  /** A lifetime that is just starting has let nothing through yet. */
  lemma NewLifeIsEmpty(s: State, window: int)
    requires Placed(s, window)
    ensures AllowedPerLife(s.log, |s.births|) == 0
  {
    forall e | e in s.log ensures e.life != |s.births| { assert InLife(s, window, e); }
    NonePerLife(s.log, |s.births|);
  }

  /** The stored count tells how many hits its lifetime has let through. */
  lemma HitKeepsCount(s: State, call: nat, limit: int, window: int)
    requires Inv(s, limit, window)
    ensures var t := HitStep(s, call, limit);
            AllowedPerLife(t.log, |t.births| - 1) == Min(t.entry.value.count, Max(limit, 0)) && t.entry.value.count > 0
  {
    var t := HitStep(s, call, limit);
    var last := |t.births| - 1;
    Appended(s.log, t.log[|s.log|], last, t.births[last], t.births[last] + 1);
    NewLifeIsEmpty(s, window);
  }

  lemma HitKeepsCounted(s: State, call: nat, limit: int, window: int)
    requires Inv(s, limit, window)
    ensures Counted(HitStep(s, call, limit), limit)
  {
    var t := HitStep(s, call, limit);
    HitKeepsCount(s, call, limit, window);
    forall i | 0 <= i < |t.births| ensures LifeCounted(t, limit, i) {
      Appended(s.log, t.log[|s.log|], i, t.births[i], t.births[i] + 1);
      assert i < |s.births| ==> LifeCounted(s, limit, i);
    }
  }

  lemma ArmKeepsInv(s: State, call: nat, limit: int, window: int)
    requires Inv(s, limit, window)
    ensures Inv(s.(pending := s.pending - {call}, entry := Expire(s.entry, s.now, window)), limit, window)
  {
    var t := s.(pending := s.pending - {call}, entry := Expire(s.entry, s.now, window));
    forall e | e in t.log ensures InLife(t, window, e) { assert InLife(s, window, e); }
    forall i | 0 <= i < |t.births| ensures LifeCounted(t, limit, i) { assert LifeCounted(s, limit, i); }
  }

  lemma NextKeepsInv(s: State, step: Step, limit: int, window: int)
    requires Inv(s, limit, window)
    ensures Inv(Next(s, step, limit, window), limit, window)
  {
    match step
    case Hit(call) =>
      if call !in s.pending {
        HitKeepsSpaced(s, call, limit, window);
        HitKeepsPlaced(s, call, limit, window);
        HitKeepsCounted(s, call, limit, window);
      }
    case Arm(call) => if call in s.pending { ArmKeepsInv(s, call, limit, window); }
    case _ =>
      var t := Next(s, step, limit, window);
      forall e | e in t.log ensures InLife(t, window, e) { assert InLife(s, window, e); }
      forall i | 0 <= i < |t.births| ensures LifeCounted(t, limit, i) { assert LifeCounted(s, limit, i); }
  }

  lemma {:induction false} RunKeepsInv(s: State, steps: seq<Step>, limit: int, window: int)
    requires Inv(s, limit, window)
    ensures Inv(Run(s, steps, limit, window), limit, window)
    decreases |steps|
  {
    if steps != [] {
      NextKeepsInv(s, steps[0], limit, window);
      RunKeepsInv(Next(s, steps[0], limit, window), steps[1..], limit, window);
    }
  }

  // ----- Results over every schedule --------------------------------------------------------

  /** However late an EXPIRE is, a key is still there a full window after it was created, so
      successive lifetimes start at least a window apart. */
  lemma KeyLivesAWindow(now: int, steps: seq<Step>, limit: int, window: int)
    ensures var s := Run(Init(now), steps, limit, window);
            && (s.births != [] && s.now < s.births[|s.births| - 1] + window ==> Live(s.entry, s.now).Some?)
            && forall i, j :: 0 <= i < j < |s.births| ==> s.births[i] + window <= s.births[j]
  {
    RunKeepsInv(Init(now), steps, limit, window);
  }

  /** A hit was let through exactly if fewer than `limit` hits of its lifetime came before it. */
  ghost predicate FirstHitsAllowed(log: seq<Event>, limit: int) {
    forall k :: 0 <= k < |log| ==> (log[k].allowed <==> HitsIn(log[..k], log[k].life) < limit)
  }

  /** The stored count is the number of hits of the lifetime that goes on. */
  ghost predicate CountsHits(s: State) {
    s.entry.Some? ==> s.births != [] && s.entry.value.count == HitsIn(s.log, |s.births| - 1)
  }

  lemma HitExtendsLog(s: State, call: nat, limit: int, window: int)
    requires Inv(s, limit, window) && CountsHits(s) && FirstHitsAllowed(s.log, limit)
    ensures CountsHits(HitStep(s, call, limit)) && FirstHitsAllowed(HitStep(s, call, limit).log, limit)
  {
    var t := HitStep(s, call, limit);
    var life := |t.births| - 1;
    if life == |s.births| {
      forall e | e in s.log ensures e.life != life { assert InLife(s, window, e); }
      NoHitsIn(s.log, life);
    }
    assert t.log[..|s.log|] == s.log;
    forall k | 0 <= k < |t.log| ensures t.log[k].allowed <==> HitsIn(t.log[..k], t.log[k].life) < limit {
      if k < |s.log| { assert t.log[..k] == s.log[..k]; }
    }
  }

  lemma {:induction false} RunCountsHits(s: State, steps: seq<Step>, limit: int, window: int)
    requires Inv(s, limit, window) && CountsHits(s) && FirstHitsAllowed(s.log, limit)
    ensures FirstHitsAllowed(Run(s, steps, limit, window).log, limit)
    decreases |steps|
  {
    if steps != [] {
      NextKeepsInv(s, steps[0], limit, window);
      if steps[0].Hit? && steps[0].call !in s.pending { HitExtendsLog(s, steps[0].call, limit, window); }
      RunCountsHits(Next(s, steps[0], limit, window), steps[1..], limit, window);
    }
  }

  /** Each lifetime of the key lets exactly its first `limit` hits through. */
  lemma LifeAdmitsItsFirstHits(now: int, steps: seq<Step>, limit: int, window: int)
    ensures FirstHitsAllowed(Run(Init(now), steps, limit, window).log, limit)
  {
    RunCountsHits(Init(now), steps, limit, window);
  }

  /** One lifetime lets at most `limit` hits through, the current one as many as were counted. */
  lemma LifeAdmitsAtMostLimit(now: int, steps: seq<Step>, limit: int, window: int, life: int)
    ensures var s := Run(Init(now), steps, limit, window);
            && (0 <= life < |s.births| ==> AllowedPerLife(s.log, life) <= Max(limit, 0))
            && (s.entry.Some? ==>
                AllowedPerLife(s.log, |s.births| - 1) == Min(s.entry.value.count, Max(limit, 0)))
  {
    RunKeepsInv(Init(now), steps, limit, window);
    var s := Run(Init(now), steps, limit, window);
    assert 0 <= life < |s.births| ==> LifeCounted(s, limit, life);
  }

  /** Any half-open interval as long as the window contains at most 2 * limit - 1 allowed hits. */
  lemma WindowBound(now: int, steps: seq<Step>, limit: int, window: int, from: int)
    ensures Allowed(Run(Init(now), steps, limit, window).log, from, from + window) <= Max(2 * limit - 1, 0)
  {
    var s := Run(Init(now), steps, limit, window);
    RunKeepsInv(Init(now), steps, limit, window);
    if life :| 0 < life < |s.births| && from <= s.births[life] < from + window {
      BoundAcrossLives(s, limit, window, from, life);
    } else {
      BoundWithinLife(s, limit, window, from);
    }
  }

  /** A lifetime starts inside the interval: the one before it was created earlier, so at least its
      first hit is not counted, and no third lifetime is seen. */
  lemma BoundAcrossLives(s: State, limit: int, window: int, from: int, life: int)
    requires Inv(s, limit, window) && 0 < life < |s.births|
    requires from <= s.births[life] < from + window
    ensures Allowed(s.log, from, from + window) <= Max(2 * limit - 1, 0)
  {
    var to := from + window;
    assert s.births[life - 1] + window <= s.births[life];
    forall e | e in s.log && from <= e.at < to ensures e.life == life - 1 || e.life == life {
      assert InLife(s, window, e);
    }
    TwoLives(s.log, life - 1, from, to);
    assert LifeCounted(s, limit, life - 1) && LifeCounted(s, limit, life);
    Disjoint(s.log, life - 1, s.births[life - 1], s.births[life - 1] + 1, from, to);
    Disjoint(s.log, life, from, from, from, to);
  }

  /** Otherwise every hit of the interval falls into one lifetime. */
  lemma BoundWithinLife(s: State, limit: int, window: int, from: int)
    requires Inv(s, limit, window)
    requires forall life :: 0 < life < |s.births| ==> !(from <= s.births[life] < from + window)
    ensures Allowed(s.log, from, from + window) <= Max(2 * limit - 1, 0)
  {
    var to := from + window;
    var life := 0;
    if one :| one in s.log && from <= one.at < to {
      life := one.life;
      forall e | e in s.log && from <= e.at < to ensures e.life == life && 0 <= life < |s.births| {
        assert InLife(s, window, e) && InLife(s, window, one);
      }
      assert LifeCounted(s, limit, life);
      Disjoint(s.log, life, from, from, from, to);
    } else {
      NoneIn(s.log, life, from, to);
    }
    TwoLives(s.log, life, from, to);
    NoneIn(s.log, life + 1, from, to);
  }

  // ----- The bound is attained ----------------------------------------------------------------

  lemma {:induction false} RunAppend(s: State, a: seq<Step>, b: seq<Step>, limit: int, window: int)
    ensures Run(s, a + b, limit, window) == Run(Run(s, a, limit, window), b, limit, window)
    decreases |a|
  {
    if a == [] {
      assert a + b == b;
    } else {
      assert (a + b)[0] == a[0] && (a + b)[1..] == a[1..] + b;
      RunAppend(Next(s, a[0], limit, window), a[1..], b, limit, window);
    }
  }

  /** `n` calls, numbered from `call`, one after the other. */
  function Burst(call: nat, n: nat): seq<Step>
    decreases n
  {
    if n == 0 then [] else [Hit(call)] + Burst(call + 1, n - 1)
  }

  /** A burst within the budget of a live key is let through whole. */
  lemma {:induction false} BurstPasses(s: State, call: nat, n: nat, limit: int, window: int, from: int, to: int)
    requires forall c :: c in s.pending ==> c < call
    requires s.entry.Some? && Live(s.entry, s.now) == s.entry && s.entry.value.count + n <= limit
    requires from <= s.now < to
    ensures var t := Run(s, Burst(call, n), limit, window);
            t.now == s.now && t.entry == Some(s.entry.value.(count := s.entry.value.count + n)) &&
            Allowed(t.log, from, to) == Allowed(s.log, from, to) + n
    decreases n
  {
    if n > 0 {
      var t := HitStep(s, call, limit);
      assert t.log[..|s.log|] == s.log;
      BurstPasses(t, call + 1, n - 1, limit, window, from, to);
    }
  }

  lemma Single(s: State, step: Step, limit: int, window: int)
    ensures Run(s, [step], limit, window) == Next(s, step, limit, window)
  {
    assert Run(Next(s, step, limit, window), [], limit, window) == Next(s, step, limit, window);
  }

  /** The key is created early and its budget is spent at the last instant of its window. */
  function SlowLife(limit: nat, window: nat): seq<Step>
    requires limit > 0 && window > 1
  {
    [Hit(0)] + [Arm(0)] + [Tick(window - 1)] + Burst(1, limit - 1)
  }

  /** A moment later the key is gone, and the next lifetime spends its budget at once. */
  function FastLife(limit: nat): seq<Step>
    requires limit > 0
  {
    [Tick(1)] + [Hit(0)] + Burst(1, limit - 1)
  }

  /** After its first hit the key waits for the end of its window. */
  lemma Opened(limit: nat, window: nat) returns (s: State)
    requires limit > 0 && window > 1
    ensures s == Run(Init(0), [Hit(0)] + [Arm(0)] + [Tick(window - 1)], limit, window)
    ensures s.now == window - 1 && s.pending == {} && s.entry == Some(Entry(1, Some(window)))
    ensures s.births == [0] && s.log == [Event(0, 0, true)]
  {
    var s0 := HitStep(Init(0), 0, limit);
    var s1 := Next(s0, Arm(0), limit, window);
    s := Next(s1, Tick(window - 1), limit, window);
    Single(Init(0), Hit(0), limit, window);
    Single(s0, Arm(0), limit, window);
    Single(s1, Tick(window - 1), limit, window);
    RunAppend(Init(0), [Hit(0)], [Arm(0)], limit, window);
    RunAppend(Init(0), [Hit(0)] + [Arm(0)], [Tick(window - 1)], limit, window);
  }

  lemma AfterSlowLife(limit: nat, window: nat)
    requires limit > 0 && window > 1
    ensures var s := Run(Init(0), SlowLife(limit, window), limit, window);
            s.now == window - 1 && s.pending == {} && s.entry == Some(Entry(limit, Some(window))) &&
            Allowed(s.log, window - 1, window - 1 + window) == limit - 1
  {
    var s2 := Opened(limit, window);
    RunAppend(Init(0), [Hit(0)] + [Arm(0)] + [Tick(window - 1)], Burst(1, limit - 1), limit, window);
    assert s2.log[..0] == [];
    BurstPasses(s2, 1, limit - 1, limit, window, window - 1, window - 1 + window);
    BurstKeepsPending(s2, 1, limit - 1, limit, window);
  }

  lemma AfterFastLife(s: State, limit: nat, window: nat, from: int, to: int)
    requires limit > 0 && s.pending == {} && from <= s.now + 1 < to
    requires s.entry.Some? && s.entry.value.expires == Some(s.now + 1)
    ensures Allowed(Run(s, FastLife(limit), limit, window).log, from, to) == Allowed(s.log, from, to) + limit
  {
    var s1 := Next(s, Tick(1), limit, window);
    var s2 := HitStep(s1, 0, limit);
    Single(s, Tick(1), limit, window);
    Single(s1, Hit(0), limit, window);
    RunAppend(s, [Tick(1)], [Hit(0)], limit, window);
    RunAppend(s, [Tick(1)] + [Hit(0)], Burst(1, limit - 1), limit, window);
    assert s2.log[..|s.log|] == s.log;
    BurstPasses(s2, 1, limit - 1, limit, window, from, to);
  }

  /** No smaller bound holds: this schedule lets 2 * limit - 1 hits through inside one window. */
  lemma WindowBoundIsTight(limit: nat, window: nat)
    requires limit > 0 && window > 1
    ensures Allowed(Run(Init(0), SlowLife(limit, window) + FastLife(limit), limit, window).log,
                    window - 1, window - 1 + window) == 2 * limit - 1
  {
    RunAppend(Init(0), SlowLife(limit, window), FastLife(limit), limit, window);
    AfterSlowLife(limit, window);
    AfterFastLife(Run(Init(0), SlowLife(limit, window), limit, window), limit, window, window - 1, window - 1 + window);
  }

  /** No call of a burst on a key that has an expiry is left with an EXPIRE to send. */
  lemma {:induction false} BurstKeepsPending(s: State, call: nat, n: nat, limit: int, window: int)
    requires s.entry.Some? && Live(s.entry, s.now) == s.entry && s.entry.value.expires.Some?
    ensures Run(s, Burst(call, n), limit, window).pending == s.pending
    decreases n
  {
    if n > 0 { BurstKeepsPending(Next(s, Hit(call), limit, window), call + 1, n - 1, limit, window); }
  }

  // ----- Keys left without an expiry --------------------------------------------------------

  /** The key exists and nothing will ever remove it. */
  predicate Leaked(s: State) {
    s.entry.Some? && s.entry.value.expires.None?
  }

  lemma {:induction false} StaysPending(s: State, call: nat, steps: seq<Step>, limit: int, window: int)
    requires call in s.pending && Arm(call) !in steps && Crash(call) !in steps
    ensures call in Run(s, steps, limit, window).pending
    decreases |steps|
  {
    if steps != [] {
      assert steps[0] in steps && forall x :: x in steps[1..] ==> x in steps;
      StaysPending(Next(s, steps[0], limit, window), call, steps[1..], limit, window);
    }
  }

  /** Any later call that gets to send its EXPIRE repairs a leaked key, whatever happens in between. */
  lemma LeakIsRepaired(s: State, call: nat, between: seq<Step>, limit: int, window: int)
    requires Leaked(s) && call !in s.pending
    requires Arm(call) !in between && Crash(call) !in between
    ensures !Leaked(Run(s, [Hit(call)] + between + [Arm(call)], limit, window))
  {
    var hit := Next(s, Hit(call), limit, window);
    StaysPending(hit, call, between, limit, window);
    RunAppend(s, [Hit(call)], between, limit, window);
    RunAppend(s, [Hit(call)] + between, [Arm(call)], limit, window);
    assert Run(s, [Hit(call)], limit, window) == hit;
  }

  /** If every EXPIRE is lost the key lives for ever, and only the first `limit` hits ever pass. */
  lemma LostExpiryBlocksForever(now: int, steps: seq<Step>, limit: int, window: int, from: int, to: int)
    requires forall call :: Arm(call) !in steps
    ensures var s := Run(Init(now), steps, limit, window);
            |s.births| <= 1 && Allowed(s.log, from, to) <= Max(limit, 0)
  {
    RunKeepsInv(Init(now), steps, limit, window);
    NeverArmed(Init(now), steps, limit, window);
    var s := Run(Init(now), steps, limit, window);
    forall e | e in s.log ensures e.life == 0 && s.births != [] { assert InLife(s, window, e); }
    TwoLives(s.log, 0, from, to);
    NoneIn(s.log, 1, from, to);
    Disjoint(s.log, 0, from, from, from, to);
    if s.births == [] {
      NoneIn(s.log, 0, from, to);
    } else {
      assert LifeCounted(s, limit, 0);
    }
  }

  lemma {:induction false} NeverArmed(s: State, steps: seq<Step>, limit: int, window: int)
    requires forall call :: Arm(call) !in steps
    requires |s.births| <= 1 && (s.births == [] <==> s.entry.None?) && (s.entry.Some? ==> Leaked(s))
    ensures |Run(s, steps, limit, window).births| <= 1
    decreases |steps|
  {
    if steps != [] {
      assert steps[0] in steps && forall x :: x in steps[1..] ==> x in steps;
      NeverArmed(Next(s, steps[0], limit, window), steps[1..], limit, window);
    }
  }

  // ----- The limiter as the service calls it ----------------------------------------------------

  datatype Policy = Policy(kind: string, limit: int, window: int)

  datatype Backend = FromRedis | Bypassed

  datatype Result = Result(allowed: bool, remaining: int, retryAfter: int, limit: int, backend: Backend)

  function CacheKey(namespace: string, kind: string, identifier: string): string {
    namespace + ":" + kind + ":" + identifier
  }

  /** Dimensions never share a counter: kinds contain no colon, so the key can be read back. */
  lemma CacheKeyInjective(namespace: string, kind: string, id: string, kind': string, id': string)
    requires ':' !in kind && ':' !in kind'
    requires CacheKey(namespace, kind, id) == CacheKey(namespace, kind', id')
    ensures kind == kind' && id == id'
  {
    var k, k' := CacheKey(namespace, kind, id), CacheKey(namespace, kind', id');
    var n := |namespace| + 1;
    assert k[n..] == kind + ":" + id && k'[n..] == kind' + ":" + id';
    SplitAtColon(kind, id, kind', id');
  }

  lemma SplitAtColon(kind: string, id: string, kind': string, id': string)
    requires ':' !in kind && ':' !in kind' && kind + ":" + id == kind' + ":" + id'
    ensures kind == kind' && id == id'
  {
    var a, b := kind + ":" + id, kind' + ":" + id';
    assert a[|kind|] == ':' && b[|kind'|] == ':';
    assert |kind| == |kind'|;
    assert a[..|kind|] == kind && b[..|kind|] == kind';
    assert a[|kind| + 1..] == id && b[|kind| + 1..] == id';
  }

  /** Whether a command is answered; a lost one may have been applied all the same. */
  datatype Exchange = Answered | Lost(applied: bool)

  /** What happens to the pipeline of INCR and TTL, and to the EXPIRE. */
  datatype Link = Link(pipeline: Exchange, expire: Exchange)

  /** A call for the entry does not get all the answers it waits for. */
  predicate Outage(e: Option<Entry>, link: Link, now: int) {
    link.pipeline.Lost? || (link.expire.Lost? && Ttl(Incr(e, now), now) < 0)
  }

  /** The entry an uninterrupted call leaves behind. */
  function Left(e: Option<Entry>, link: Link, now: int, later: int, window: int): Option<Entry> {
    if link.pipeline == Lost(false) then e
    else if link.pipeline.Lost? || link.expire == Lost(false) then Some(Incr(e, now))
    else AfterCall(e, now, later, window)
  }

  /** A hit that was counted. */
  function Judged(e: Option<Entry>, now: int, limit: int, window: int): Result {
    var count := Incr(e, now).count;
    Result(count <= limit, Max(limit - count, 0), if count <= limit then 0 else RetryAfter(e, now, window), limit,
           FromRedis)
  }

  /** The answer when nothing is known. */
  function LetThrough(limit: int): Result {
    Result(true, limit, 0, limit, Bypassed)
  }

  /** The entry a call that is answered leaves behind. */
  function AfterCall(e: Option<Entry>, now: int, later: int, window: int): Option<Entry> {
    var counted := Incr(e, now);
    if Ttl(counted, now) < 0 then Expire(Some(counted), later, window) else Some(counted)
  }

  /** The seconds a refused client is told to wait: what is left of the key, rounded, or a whole window when the
      key had no expiry. */
  function RetryAfter(e: Option<Entry>, now: int, window: int): int {
    var counted := Incr(e, now);
    if Ttl(counted, now) < 0 then window else Ttl(counted, now)
  }

  /** A client can be refused and told to retry at once: exactly in the last half second of an existing key. */
  lemma RetryAtOnceIff(e: Option<Entry>, now: int, window: int)
    requires window > 0
    ensures RetryAfter(e, now, window) >= 0
    ensures RetryAfter(e, now, window) == 0 <==>
            Live(e, now).Some? && e.value.expires.Some? && e.value.expires.value - now < SECOND / 2
  {
  }

  class Redis {
    var keys: map<string, Entry>

    function Get(key: string): Option<Entry>
      reads this
    {
      if key in keys then Some(keys[key]) else None
    }

    ghost predicate Untouched(before: map<string, Entry>, key: string)
      reads this
    {
      keys - {key} == before - {key}
    }

    method IncrTtl(key: string, now: int) returns (count: nat, ttl: int)
      modifies this
      ensures Get(key) == Some(Incr(old(Get(key)), now)) && Untouched(old(keys), key)
      ensures count == Incr(old(Get(key)), now).count && ttl == Ttl(Incr(old(Get(key)), now), now)
    {
      var entry := Incr(Get(key), now);
      keys := keys[key := entry];
      count, ttl := entry.count, Ttl(entry, now);
    }

    method SetExpiry(key: string, now: int, window: int)
      modifies this
      ensures Get(key) == Expire(old(Get(key)), now, window) && Untouched(old(keys), key)
    {
      match Expire(Get(key), now, window)
      case None => keys := keys - {key};
      case Some(entry) => keys := keys[key := entry];
    }

    method Delete(key: string)
      modifies this
      ensures Get(key) == None && Untouched(old(keys), key)
    {
      keys := keys - {key};
    }
  }

  class ScopedRateLimiter {
    const redis: Redis
    const policy: Policy
    const namespace: string

    constructor (redis: Redis, policy: Policy, namespace: string)
      ensures this.redis == redis && this.policy == policy && this.namespace == namespace
    {
      this.redis, this.policy, this.namespace := redis, policy, namespace;
    }

    /** `now` is when the pipeline runs, `later` when the EXPIRE does; the window is in seconds. Without an answer from
        Redis the hit is let through, or, if Redis is required, None: the request fails. */
    method Hit(identifier: string, limit: Option<int>, window: Option<int>, kind: Option<string>,
               enabled: bool, required: bool, link: Link, now: int, later: int) returns (r: Option<Result>)
      requires now <= later
      modifies redis
      ensures !enabled ==> redis.keys == old(redis.keys)
      ensures var key := CacheKey(namespace, kind.Or(policy.kind), identifier);
              enabled ==>
                && redis.Get(key) == Left(old(redis.Get(key)), link, now, later, SECOND * window.Or(policy.window))
                && redis.Untouched(old(redis.keys), key)
      ensures var e := old(redis.Get(CacheKey(namespace, kind.Or(policy.kind), identifier)));
              r == if enabled && !Outage(e, link, now) then Some(Judged(e, now, limit.Or(policy.limit),
                                                                       window.Or(policy.window)))
                   else if enabled && required then None
                   else Some(LetThrough(limit.Or(policy.limit)))
    {
      var effectiveLimit, effectiveWindow := limit.Or(policy.limit), window.Or(policy.window);
      var key := CacheKey(namespace, kind.Or(policy.kind), identifier);
      if !enabled {
        return Some(LetThrough(effectiveLimit));
      }
      if link.pipeline == Lost(false) {
        return if required then None else Some(LetThrough(effectiveLimit));
      }
      var current, ttl := redis.IncrTtl(key, now);
      if link.pipeline.Lost? {
        return if required then None else Some(LetThrough(effectiveLimit));
      }
      if ttl < 0 {
        if link.expire != Lost(false) {
          redis.SetExpiry(key, later, SECOND * effectiveWindow);
        }
        if link.expire.Lost? {
          return if required then None else Some(LetThrough(effectiveLimit));
        }
        ttl := effectiveWindow;
      }
      var allowed := current <= effectiveLimit;
      return Some(Result(allowed, Max(effectiveLimit - current, 0), if allowed then 0 else ttl, effectiveLimit,
                         FromRedis));
    }

    /** A reset that does not reach Redis is skipped. */
    method Reset(identifier: string, kind: Option<string>, delete: Exchange)
      modifies redis
      ensures delete == Lost(false) ==> redis.keys == old(redis.keys)
      ensures var key := CacheKey(namespace, kind.Or(policy.kind), identifier);
              delete != Lost(false) ==> redis.Get(key) == None && redis.Untouched(old(redis.keys), key)
    {
      if delete != Lost(false) {
        redis.Delete(CacheKey(namespace, kind.Or(policy.kind), identifier));
      }
    }
  }

  /** The method is the protocol with no one else in between, and it never leaks a key. */
  lemma UninterruptedCall(s: State, call: nat, elapsed: nat, limit: int, window: int)
    requires call !in s.pending
    ensures var t := Run(s, [Hit(call)] + [Tick(elapsed)] + [Arm(call)], limit, window);
            && t.entry == AfterCall(s.entry, s.now, s.now + elapsed, window)
            && t.log == s.log + [Event(s.now, |t.births| - 1, Incr(s.entry, s.now).count <= limit)]
            && !Leaked(t)
  {
    var s1 := HitStep(s, call, limit);
    var s2 := Next(s1, Tick(elapsed), limit, window);
    Single(s, Hit(call), limit, window);
    Single(s1, Tick(elapsed), limit, window);
    Single(s2, Arm(call), limit, window);
    RunAppend(s, [Hit(call)], [Tick(elapsed)], limit, window);
    RunAppend(s, [Hit(call)] + [Tick(elapsed)], [Arm(call)], limit, window);
  }

  /** The protocol steps of a call, as far as its commands are applied. */
  function StepsOf(call: nat, link: Link, elapsed: nat): seq<Step> {
    if link.pipeline == Lost(false) then []
    else if link.pipeline == Lost(true) || link.expire == Lost(false) then [Hit(call)] + [Tick(elapsed)] + [Crash(call)]
    else [Hit(call)] + [Tick(elapsed)] + [Arm(call)]
  }

  /** Whatever is lost, a call leaves the key as the protocol does. */
  lemma LeftIsProtocol(s: State, call: nat, link: Link, elapsed: nat, limit: int, window: int)
    requires call !in s.pending
    ensures Run(s, StepsOf(call, link, elapsed), limit, window).entry
         == Left(s.entry, link, s.now, s.now + elapsed, window)
  {
    var s1 := HitStep(s, call, limit);
    var s2 := Next(s1, Tick(elapsed), limit, window);
    if link.pipeline != Lost(false) {
      if link.pipeline == Lost(true) || link.expire == Lost(false) {
        Single(s, Hit(call), limit, window);
        Single(s1, Tick(elapsed), limit, window);
        Single(s2, Crash(call), limit, window);
        RunAppend(s, [Hit(call)], [Tick(elapsed)], limit, window);
        RunAppend(s, [Hit(call)] + [Tick(elapsed)], [Crash(call)], limit, window);
      } else {
        UninterruptedCall(s, call, elapsed, limit, window);
      }
    }
  }

  /** The service hears nothing exactly if a reply is lost that it waits for: that of the pipeline, or that of the
      EXPIRE, which is sent to a key without an expiry. */
  lemma OutageIff(e: Option<Entry>, link: Link, now: int)
    ensures Outage(e, link, now) <==>
      || link.pipeline != Answered
      || (link.expire != Answered && (e == None || e.value.expires == None || e.value.expires.value <= now))
  {
  }
}
