/**
  The token bucket under threads: every load, store and compare-and-swap of a call is one step, and the
  steps of concurrent calls interleave freely.
 */
module NotifRace {
  import opened NotifBucket

  /** Where a call stands between two accesses, with the locals it holds. */
  datatype Pc =
    | Idle
    | Clocked(now: Millis)
    | Due(now: Millis, refill: nat)
    | Stamped(refill: nat)
    | Topping(refill: nat, prev: nat)
    | Reading
    | Swapping(cur: nat)

  /** `grants` and `refills` count successful swaps and stores of a refilled token count. */
  datatype State = State(bucket: Bucket, pcs: map<nat, Pc>, grants: nat, refills: nat)

  function PcOf(s: State, t: nat): Pc { if t in s.pcs then s.pcs[t] else Idle }

  function At(s: State, t: nat, pc: Pc): State { s.(pcs := s.pcs[t := pc]) }

  /** Unsigned 32-bit subtraction, which wraps below zero. */
  function Decremented(c: nat): nat { if c == 0 then MAX_U32 else c - 1 }

  /** The next access of thread `t`; `now` is the clock reading, used by the first. */
  function Step(s: State, t: nat, now: Millis): State
  {
    match PcOf(s, t)
    case Idle => At(s, t, Clocked(now))
    case Clocked(n) =>
      var elapsed := SaturatingSub(n, s.bucket.last);
      At(s, t, if elapsed >= INTERVAL then Due(n, Worth(elapsed)) else Reading)
    case Due(n, r) => At(s, t, Stamped(r)).(bucket := s.bucket.(last := n))
    case Stamped(r) => At(s, t, Topping(r, s.bucket.tokens))
    case Topping(r, p) => At(s, t, Reading).(bucket := s.bucket.(tokens := Topped(p, r)), refills := s.refills + 1)
    case Reading => At(s, t, if s.bucket.tokens == 0 then Idle else Swapping(s.bucket.tokens))
    case Swapping(c) =>
      if s.bucket.tokens == c then
        At(s, t, Idle).(bucket := s.bucket.(tokens := Decremented(c)), grants := s.grants + 1)
      else At(s, t, Reading)
  }

  type Tick = (nat, Millis)

  function Run(s: State, ticks: seq<Tick>): State
  {
    if ticks == [] then s else Step(Run(s, ticks[..|ticks| - 1]), ticks[|ticks| - 1].0, ticks[|ticks| - 1].1)
  }

  function Init(born: Millis): State { State(Bucket(CAPACITY, born), map[], 0, 0) }

  /** No count above the capacity anywhere, and no swap that would go below zero. */
  predicate Bounded(s: State)
  {
    && s.bucket.tokens <= CAPACITY
    && (forall t :: t in s.pcs && s.pcs[t].Topping? ==> s.pcs[t].prev <= CAPACITY)
    && (forall t :: t in s.pcs && s.pcs[t].Swapping? ==> 1 <= s.pcs[t].cur <= CAPACITY)
    && s.grants + s.bucket.tokens <= CAPACITY * (1 + s.refills)
  }

  lemma StepKeepsBounded(s: State, t: nat, now: Millis)
    requires Bounded(s)
    ensures Bounded(Step(s, t, now))
  {
  }

  /** Over every interleaving: tokens stay within 0 and 10, and each refill lets at most ten more calls through. */
  lemma {:induction false} EveryRunIsBounded(born: Millis, ticks: seq<Tick>)
    ensures Bounded(Run(Init(born), ticks))
  {
    if ticks != [] {
      EveryRunIsBounded(born, ticks[..|ticks| - 1]);
      StepKeepsBounded(Run(Init(born), ticks[..|ticks| - 1]), ticks[|ticks| - 1].0, ticks[|ticks| - 1].1);
    }
  }

  /** A call ends by taking a token off the count, one at a time, or on finding none; a lost swap tries again. */
  lemma EndsByGrantOrEmpty(s: State, t: nat, now: Millis)
    requires Bounded(s) && !PcOf(s, t).Idle?
    ensures var r := Step(s, t, now);
            var granted := r.grants == s.grants + 1 && r.bucket == s.bucket.(tokens := s.bucket.tokens - 1);
            && (PcOf(r, t).Idle? <==> granted || (PcOf(s, t).Reading? && s.bucket.tokens == 0))
            && (!granted ==> r.grants == s.grants)
            && (PcOf(s, t).Swapping? && !granted ==> PcOf(r, t).Reading? && r.bucket == s.bucket)
  {
  }

  // ----- a call on its own --------------------------------------------------------------------

  function Alone(t: nat, now: Millis, n: nat): seq<Tick> { seq(n, _ => (t, now)) }

  lemma {:induction false} RunAppend(s: State, xs: seq<Tick>, ys: seq<Tick>)
    ensures Run(s, xs + ys) == Run(Run(s, xs), ys)
  {
    if ys == [] {
      assert xs + ys == xs;
    } else {
      assert (xs + ys)[..|xs + ys| - 1] == xs + ys[..|ys| - 1];
      RunAppend(s, xs, ys[..|ys| - 1]);
    }
  }

  lemma AloneStep(s: State, t: nat, now: Millis, n: nat)
    ensures Run(s, Alone(t, now, n + 1)) == Step(Run(s, Alone(t, now, n)), t, now)
  {
    assert Alone(t, now, n + 1)[..n] == Alone(t, now, n);
  }

  /** From `s` only thread `t` moved, to `pc`, leaving the bucket and the counters as given. */
  ghost predicate Moved(s: State, r: State, t: nat, pc: Pc, b: Bucket, grants: nat)
  {
    && PcOf(r, t) == pc
    && r.bucket == b
    && r.grants == grants
    && forall u :: u != t ==> PcOf(r, u) == PcOf(s, u)
  }

  predicate IsDue(b: Bucket, now: Millis) { SaturatingSub(now, b.last) >= INTERVAL }

  lemma RefillSteps(s: State, t: nat, now: Millis)
    requires PcOf(s, t).Idle? && IsDue(s.bucket, now)
    ensures Moved(s, Run(s, Alone(t, now, 4)), t, Topping(Worth(SaturatingSub(now, s.bucket.last)), s.bucket.tokens),
                  Bucket(s.bucket.tokens, now), s.grants)
  {
    RunNothing(s, t, now);
    hide Run;
    AloneStep(s, t, now, 0);
    AloneStep(s, t, now, 1);
    AloneStep(s, t, now, 2);
    AloneStep(s, t, now, 3);
  }

  /** A call up to the point where it reads the count to take from. */
  lemma RefillPart(s: State, t: nat, now: Millis)
    requires PcOf(s, t).Idle?
    ensures var n := if IsDue(s.bucket, now) then 5 else 2;
            Moved(s, Run(s, Alone(t, now, n)), t, Reading, Refilled(s.bucket, now), s.grants)
  {
    hide Run;
    if IsDue(s.bucket, now) {
      RefillSteps(s, t, now);
      AloneStep(s, t, now, 4);
    } else {
      RunNothing(s, t, now);
      AloneStep(s, t, now, 0);
      AloneStep(s, t, now, 1);
    }
  }

  lemma TakePart(s: State, t: nat, now: Millis)
    requires PcOf(s, t).Reading?
    ensures Moved(s, Run(s, Alone(t, now, if s.bucket.tokens > 0 then 2 else 1)), t, Idle,
                  if s.bucket.tokens > 0 then s.bucket.(tokens := s.bucket.tokens - 1) else s.bucket,
                  if s.bucket.tokens > 0 then s.grants + 1 else s.grants)
  {
    hide Run;
    RunNothing(s, t, now);
    AloneStep(s, t, now, 0);
    AloneStep(s, t, now, 1);
  }

  /** The number of accesses of a call that nothing interrupts. */
  function CallLength(b: Bucket, now: Millis): nat
  {
    (if IsDue(b, now) then 5 else 2) + if Granted(b, now) then 2 else 1
  }

  /** Uninterrupted, the accesses of a call add up to the sequential call. */
  lemma AloneIsSequential(s: State, t: nat, now: Millis)
    requires PcOf(s, t).Idle?
    ensures Moved(s, Run(s, Alone(t, now, CallLength(s.bucket, now))), t, Idle, Taken(s.bucket, now),
                  s.grants + if Granted(s.bucket, now) then 1 else 0)
  {
    hide Run;
    var m, n := if IsDue(s.bucket, now) then 5 else 2, if Granted(s.bucket, now) then 2 else 1;
    RefillPart(s, t, now);
    TakePart(Run(s, Alone(t, now, m)), t, now);
    RunAppend(s, Alone(t, now, m), Alone(t, now, n));
    assert Alone(t, now, m) + Alone(t, now, n) == Alone(t, now, m + n);
  }

  lemma RunNothing(s: State, t: nat, now: Millis)
    ensures Run(s, Alone(t, now, 0)) == s
  {
  }

  // ----- overlapping calls break the rate -----------------------------------------------------

  /** `n` calls of one thread in a row, all granted. */
  lemma {:induction false} Drain(s: State, t: nat, now: Millis, n: nat) returns (ticks: seq<Tick>)
    requires PcOf(s, t).Idle? && n <= s.bucket.tokens && 0 <= (now as int) - s.bucket.last < INTERVAL
    ensures ticks == Alone(t, now, |ticks|)
    ensures Moved(s, Run(s, ticks), t, Idle, Bucket(s.bucket.tokens - n, s.bucket.last), s.grants + n)
  {
    if n == 0 {
      ticks := [];
    } else {
      hide Run;
      var front := Drain(s, t, now, n - 1);
      var mid := Run(s, front);
      AloneIsSequential(mid, t, now);
      var call := Alone(t, now, CallLength(mid.bucket, now));
      RunAppend(s, front, call);
      ticks := front + call;
    }
  }

  /**
    The sequential rate is not kept by overlapping calls: a refill that read the count before a burst
    stores it back after, and twenty calls pass at one instant where the bound is ten.
   */
  lemma StaleRefillDoublesTheBurst() returns (ticks: seq<Tick>)
    ensures forall k :: 0 <= k < |ticks| ==> ticks[k].1 == 100
    ensures Run(Init(0), ticks).grants == 2 * CAPACITY
  {
    hide Run;
    var start := Init(0);
    var a := Alone(0, 100, 4);
    RefillSteps(start, 0, 100);
    var s1 := Run(start, a);
    var b := Drain(s1, 1, 100, 10);
    var s2 := Run(s1, b);
    var c := Alone(0, 100, 1);
    StaleStore(s2);
    var s3 := Run(s2, c);
    var d := Drain(s3, 1, 100, 10);
    RunAppend(start, a, b);
    RunAppend(start, a + b, c);
    RunAppend(start, a + b + c, d);
    ticks := a + b + c + d;
  }

  lemma StaleStore(s: State)
    requires PcOf(s, 0) == Topping(1, 10)
    ensures Moved(s, Run(s, Alone(0, 100, 1)), 0, Reading, s.bucket.(tokens := CAPACITY), s.grants)
  {
    RunNothing(s, 0, 100);
    AloneStep(s, 0, 100, 0);
  }
}
