/**
  The rate that the token bucket keeps when calls overlap.  What breaks it is a refill that another thread
  steps into; where refills run through, from the load of the last refill time to the store of the new
  count, calls may overlap in any other way.
 */
module NotifWindow {
  import opened Common
  import opened NotifBucket
  import opened NotifRace

  /** The state after the first `k` steps. */
  function StateAt(born: Millis, ticks: seq<Tick>, k: nat): State
    requires k <= |ticks|
  {
    if k == 0 then Init(born) else Step(StateAt(born, ticks, k - 1), ticks[k - 1].0, ticks[k - 1].1)
  }

  /** Between finding a refill due and storing the refilled count. */
  predicate Refilling(pc: Pc) { pc.Due? || pc.Stamped? || pc.Topping? }

  /** Whoever is refilling takes the next step. */
  ghost predicate RefillsRunThrough(born: Millis, ticks: seq<Tick>)
  {
    forall k, u: nat :: 0 <= k < |ticks| && Refilling(PcOf(StateAt(born, ticks, k), u)) ==> ticks[k].0 == u
  }

  predicate ClockRises(born: Millis, ticks: seq<Tick>)
  {
    && (forall k :: 0 <= k < |ticks| ==> born <= ticks[k].1)
    && (forall k, l :: 0 <= k <= l < |ticks| ==> ticks[k].1 <= ticks[l].1)
  }

  // ----- refills are atomic -------------------------------------------------------------------

  /** The bucket as it will be when the refill of `inside`, if there is one, is stored. */
  function Settled(s: State, inside: Option<nat>): Bucket
  {
    if inside.None? then s.bucket
    else
      match PcOf(s, inside.value)
      case Due(n, r) => Bucket(Topped(s.bucket.tokens, r), n)
      case Stamped(r) => Bucket(Topped(s.bucket.tokens, r), s.bucket.last)
      case Topping(r, _) => Bucket(Topped(s.bucket.tokens, r), s.bucket.last)
      case _ => s.bucket
  }

  /** `inside` is the one thread refilling; what it read still holds; clock readings are not ahead of time. */
  ghost predicate Orderly(s: State, inside: Option<nat>, now: Millis)
  {
    && s.bucket.tokens <= CAPACITY && s.bucket.last <= now
    && (forall t: nat :: Refilling(PcOf(s, t)) <==> inside == Some(t))
    && (forall t: nat :: PcOf(s, t).Topping? ==> PcOf(s, t).prev == s.bucket.tokens)
    && (forall t: nat :: PcOf(s, t).Clocked? || PcOf(s, t).Due? ==> PcOf(s, t).now <= now)
    && (forall t: nat :: PcOf(s, t).Swapping? ==> PcOf(s, t).cur >= 1)
  }

  function NextInside(s: State, inside: Option<nat>, t: nat, now: Millis): Option<nat>
  {
    if Refilling(PcOf(Step(s, t, now), t)) then Some(t) else if inside == Some(t) then None else inside
  }

  lemma StepIsOrderly(s: State, inside: Option<nat>, t: nat, earlier: Millis, now: Millis)
    requires Orderly(s, inside, earlier) && earlier <= now && (inside.Some? ==> t == inside.value)
    ensures Orderly(Step(s, t, now), NextInside(s, inside, t, now), now)
  {
    var s' := Step(s, t, now);
    assert forall u: nat :: u != t ==> PcOf(s', u) == PcOf(s, u);
  }

  /** Swaps this step does. */
  predicate Wins(s: State, t: nat) { PcOf(s, t).Swapping? && s.bucket.tokens == PcOf(s, t).cur }

  /**
    Only two kinds of step change the settled bucket: finding a refill due is the whole refill, and a won
    swap is the taking.
   */
  lemma StepSettles(s: State, inside: Option<nat>, t: nat, earlier: Millis, now: Millis)
    requires Orderly(s, inside, earlier) && (inside.Some? ==> t == inside.value)
    ensures var b, b' := Settled(s, inside), Settled(Step(s, t, now), NextInside(s, inside, t, now));
            && (PcOf(s, t).Clocked? ==> b' == Refilled(b, PcOf(s, t).now))
            && (Wins(s, t) ==> b.tokens > 0 && b' == b.(tokens := b.tokens - 1))
            && (!PcOf(s, t).Clocked? && !Wins(s, t) ==> b' == b)
  {
    var s' := Step(s, t, now);
    assert PcOf(s', t) == s'.pcs[t];
    assert inside.None? ==> !Refilling(PcOf(s, t));
  }

  // ----- counting in a window -----------------------------------------------------------------

  /** The state, with the threads whose call began in the window and the grants to such calls. */
  datatype Watch = Watch(state: State, young: set<nat>, grants: nat)

  function StepWatch(w: Watch, t: nat, now: Millis): Watch
  {
    var s' := Step(w.state, t, now);
    Watch(s',
          if PcOf(w.state, t).Idle? then w.young + {t} else if PcOf(s', t).Idle? then w.young - {t} else w.young,
          w.grants + if Wins(w.state, t) && t in w.young then 1 else 0)
  }

  /** After step `k`, of the window that opens with step `i`. */
  function WatchAt(born: Millis, ticks: seq<Tick>, i: nat, k: nat): Watch
    requires i <= k <= |ticks|
    decreases k - i
  {
    if k == i then Watch(StateAt(born, ticks, i), {}, 0)
    else StepWatch(WatchAt(born, ticks, i, k - 1), ticks[k - 1].0, ticks[k - 1].1)
  }

  /** The calls begun and granted in steps `i` to `j`. */
  function Passed(born: Millis, ticks: seq<Tick>, i: nat, j: nat): nat
    requires i <= j <= |ticks|
  {
    WatchAt(born, ticks, i, j).grants
  }

  lemma {:induction false} WatchesTheRun(born: Millis, ticks: seq<Tick>, i: nat, k: nat)
    requires i <= k <= |ticks|
    ensures WatchAt(born, ticks, i, k).state == StateAt(born, ticks, k)
    decreases k - i
  {
    if k > i { WatchesTheRun(born, ticks, i, k - 1); }
  }

  /** Grants, tokens and the time not yet paid out stay within a full bucket and the time since `start`. */
  predicate Paid(grants: nat, b: Bucket, start: int)
  {
    INTERVAL * (grants + b.tokens) <= INTERVAL * CAPACITY + (b.last - start) + (INTERVAL - 1)
  }

  /** No call begun in the window has looked at the bucket yet. */
  ghost predicate Untouched(w: Watch) { w.grants == 0 && forall t: nat :: t in w.young ==> PcOf(w.state, t).Clocked? }

  /** Until the first look nothing is owed; from then on the window's account is in balance. */
  ghost predicate Balanced(w: Watch, inside: Option<nat>, start: Millis)
  {
    && (forall t: nat :: t in w.young && PcOf(w.state, t).Clocked? ==> start <= PcOf(w.state, t).now)
    && (Untouched(w) || Paid(w.grants, Settled(w.state, inside), start))
  }

  /** A refill pays out no more than the time it covers. */
  lemma RefillPays(grants: nat, b: Bucket, start: int, n: Millis)
    requires Paid(grants, b, start)
    ensures Paid(grants, Refilled(b, n), start)
  {
  }

  /** The first look at the bucket leaves it at most full and refilled less than an interval ago. */
  lemma FirstLookPays(b: Bucket, start: Millis, n: Millis)
    requires b.tokens <= CAPACITY && start <= n
    ensures Paid(0, Refilled(b, n), start)
  {
  }

  lemma StepBalances(w: Watch, inside: Option<nat>, t: nat, start: Millis, earlier: Millis, now: Millis)
    requires Orderly(w.state, inside, earlier) && (inside.Some? ==> t == inside.value)
    requires Balanced(w, inside, start) && start <= now
    ensures Balanced(StepWatch(w, t, now), NextInside(w.state, inside, t, now), start)
  {
    var s, w' := w.state, StepWatch(w, t, now);
    var b := Settled(s, inside);
    StepSettles(s, inside, t, earlier, now);
    OthersStay(s, t, now);
    if PcOf(s, t).Clocked? {
      ClockedIsOutside(s, inside, t, earlier);
      RefillOrLook(w, inside, t, start);
    }
    hide Orderly, Settled, Refilled, NextInside, PcOf;
    assert Untouched(w) && !(t in w.young && PcOf(s, t).Clocked?) ==> Untouched(w') by { StaysUntouched(w, t, now); }
    StartsLater(w, t, start, now);
  }

  lemma OthersStay(s: State, t: nat, now: Millis)
    ensures forall u: nat :: u != t ==> PcOf(Step(s, t, now), u) == PcOf(s, u)
  {
  }

  lemma ClockedIsOutside(s: State, inside: Option<nat>, t: nat, earlier: Millis)
    requires Orderly(s, inside, earlier) && (inside.Some? ==> t == inside.value) && PcOf(s, t).Clocked?
    ensures inside.None? && Settled(s, inside).tokens <= CAPACITY
  {
  }

  /** Looking at the bucket, first or not, keeps the account in balance. */
  lemma RefillOrLook(w: Watch, inside: Option<nat>, t: nat, start: Millis)
    requires Balanced(w, inside, start) && PcOf(w.state, t).Clocked? && Settled(w.state, inside).tokens <= CAPACITY
    ensures var b' := Refilled(Settled(w.state, inside), PcOf(w.state, t).now);
            Paid(w.grants, b', start) || (Untouched(w) && t !in w.young)
  {
    var b, n := Settled(w.state, inside), PcOf(w.state, t).now;
    hide Settled, Refilled;
    if Paid(w.grants, b, start) {
      RefillPays(w.grants, b, start, n);
    } else if t in w.young {
      FirstLookPays(b, start, n);
    }
  }

  lemma StaysUntouched(w: Watch, t: nat, now: Millis)
    ensures Untouched(w) && !(t in w.young && PcOf(w.state, t).Clocked?) ==> Untouched(StepWatch(w, t, now))
  {
    OthersStay(w.state, t, now);
  }

  lemma StartsLater(w: Watch, t: nat, start: Millis, now: Millis)
    requires start <= now
    requires forall u: nat :: u in w.young && PcOf(w.state, u).Clocked? ==> start <= PcOf(w.state, u).now
    ensures var w' := StepWatch(w, t, now);
            forall u: nat :: u in w'.young && PcOf(w'.state, u).Clocked? ==> start <= PcOf(w'.state, u).now
  {
    OthersStay(w.state, t, now);
  }

  // ----- the rate -----------------------------------------------------------------------------

  /** The thread that is refilling after the first `k` steps. */
  function InsideAt(born: Millis, ticks: seq<Tick>, k: nat): Option<nat>
    requires k <= |ticks|
  {
    if k == 0 then None
    else NextInside(StateAt(born, ticks, k - 1), InsideAt(born, ticks, k - 1), ticks[k - 1].0, ticks[k - 1].1)
  }

  function TimeAt(born: Millis, ticks: seq<Tick>, k: nat): Millis
    requires k <= |ticks|
  {
    if k == 0 then born else ticks[k - 1].1
  }

  lemma {:induction false} RunIsOrderly(born: Millis, ticks: seq<Tick>, k: nat)
    requires ClockRises(born, ticks) && RefillsRunThrough(born, ticks) && k <= |ticks|
    ensures Orderly(StateAt(born, ticks, k), InsideAt(born, ticks, k), TimeAt(born, ticks, k))
  {
    if k > 0 {
      RunIsOrderly(born, ticks, k - 1);
      InsideSteps(born, ticks, k - 1);
      hide Orderly, NextInside, RefillsRunThrough;
      StepIsOrderly(StateAt(born, ticks, k - 1), InsideAt(born, ticks, k - 1), ticks[k - 1].0,
                    TimeAt(born, ticks, k - 1), ticks[k - 1].1);
    }
  }

  lemma InsideSteps(born: Millis, ticks: seq<Tick>, k: nat)
    requires RefillsRunThrough(born, ticks) && k < |ticks|
    requires Orderly(StateAt(born, ticks, k), InsideAt(born, ticks, k), TimeAt(born, ticks, k))
    ensures InsideAt(born, ticks, k).Some? ==> ticks[k].0 == InsideAt(born, ticks, k).value
  {
    hide StateAt, InsideAt, TimeAt;
    var inside := InsideAt(born, ticks, k);
    if inside.Some? { assert Refilling(PcOf(StateAt(born, ticks, k), inside.value)); }
  }

  lemma {:induction false} WindowIsBalanced(born: Millis, ticks: seq<Tick>, i: nat, k: nat)
    requires ClockRises(born, ticks) && RefillsRunThrough(born, ticks) && i <= k <= |ticks| && i < |ticks|
    ensures Balanced(WatchAt(born, ticks, i, k), InsideAt(born, ticks, k), ticks[i].1)
    decreases k - i
  {
    hide *;
    if k == i {
      OpensBalanced(born, ticks, i);
    } else {
      NotEarlier(born, ticks, i, k - 1);
      WindowIsBalanced(born, ticks, i, k - 1);
      WatchesTheRun(born, ticks, i, k - 1);
      RunIsOrderly(born, ticks, k - 1);
      InsideSteps(born, ticks, k - 1);
      OneStepOn(born, ticks, i, k);
      StepBalances(WatchAt(born, ticks, i, k - 1), InsideAt(born, ticks, k - 1), ticks[k - 1].0, ticks[i].1,
                   TimeAt(born, ticks, k - 1), ticks[k - 1].1);
    }
  }

  lemma NotEarlier(born: Millis, ticks: seq<Tick>, i: nat, k: nat)
    requires ClockRises(born, ticks) && i <= k < |ticks|
    ensures ticks[i].1 <= ticks[k].1
  {
  }

  lemma OpensBalanced(born: Millis, ticks: seq<Tick>, i: nat)
    requires i < |ticks|
    ensures Balanced(WatchAt(born, ticks, i, i), InsideAt(born, ticks, i), ticks[i].1)
  {
    hide InsideAt, StateAt, Settled;
  }

  lemma OneStepOn(born: Millis, ticks: seq<Tick>, i: nat, k: nat)
    requires i < k <= |ticks| && WatchAt(born, ticks, i, k - 1).state == StateAt(born, ticks, k - 1)
    ensures var w, inside := WatchAt(born, ticks, i, k - 1), InsideAt(born, ticks, k - 1);
            && WatchAt(born, ticks, i, k) == StepWatch(w, ticks[k - 1].0, ticks[k - 1].1)
            && InsideAt(born, ticks, k) == NextInside(w.state, inside, ticks[k - 1].0, ticks[k - 1].1)
  {
    hide StepWatch, NextInside, StateAt;
  }

  /**
    The rate under overlap.  In every run with a non-decreasing clock in which refills run through, at most
    ten of the calls begun and granted in a window pass, and one more per started interval, however the
    calls overlap otherwise.
   */
  lemma RateIsKept(born: Millis, ticks: seq<Tick>, i: nat, j: nat)
    requires ClockRises(born, ticks) && RefillsRunThrough(born, ticks) && i < j <= |ticks|
    ensures ticks[i].1 <= ticks[j - 1].1
    ensures Passed(born, ticks, i, j) <= CAPACITY + CeilDiv((ticks[j - 1].1 as int) - ticks[i].1)
  {
    WindowIsBalanced(born, ticks, i, j);
    WatchesTheRun(born, ticks, i, j);
    RunIsOrderly(born, ticks, j);
    var w, inside := WatchAt(born, ticks, i, j), InsideAt(born, ticks, j);
    var b := Settled(w.state, inside);
    SettledIsPast(w.state, inside, ticks[j - 1].1);
    hide WatchAt, InsideAt, StateAt, Settled, RefillsRunThrough, Untouched, Orderly;
    if Paid(w.grants, b, ticks[i].1) {
      BoundFrom(w.grants, b, ticks[i].1, ticks[j - 1].1);
    } else {
      assert Untouched(w);
      NothingPassed(w);
    }
  }

  lemma NothingPassed(w: Watch)
    requires Untouched(w)
    ensures w.grants == 0
  {
  }

  lemma SettledIsPast(s: State, inside: Option<nat>, now: Millis)
    requires Orderly(s, inside, now)
    ensures Settled(s, inside).last <= now
  {
    if inside.Some? { assert Refilling(PcOf(s, inside.value)); }
  }

  /** Every call under way at step `k` began at step `i` or later. */
  ghost predicate AllYoung(born: Millis, ticks: seq<Tick>, i: nat, k: nat)
    requires i <= k <= |ticks|
  {
    forall t: nat :: !PcOf(StateAt(born, ticks, k), t).Idle? ==> t in WatchAt(born, ticks, i, k).young
  }

  /** From where all calls under way are young, every grant is to a young call. */
  lemma {:induction false} AllGrantsCount(born: Millis, ticks: seq<Tick>, i0: nat, i: nat, k: nat)
    requires i0 <= i <= k <= |ticks| && AllYoung(born, ticks, i0, i)
    ensures AllYoung(born, ticks, i0, k)
    ensures StateAt(born, ticks, k).grants - StateAt(born, ticks, i).grants
         == Passed(born, ticks, i0, k) - Passed(born, ticks, i0, i)
    decreases k - i
  {
    if k > i {
      AllGrantsCount(born, ticks, i0, i, k - 1);
      WatchesTheRun(born, ticks, i0, k - 1);
      WatchesTheRun(born, ticks, i0, k);
      CountsOne(WatchAt(born, ticks, i0, k - 1), ticks[k - 1].0, ticks[k - 1].1);
      hide Step, StepWatch, PcOf, StateAt;
      assert WatchAt(born, ticks, i0, k) == StepWatch(WatchAt(born, ticks, i0, k - 1), ticks[k - 1].0, ticks[k - 1].1);
    }
  }

  /**
    All grants of any window: at most ten, and one more per interval started since the earliest step at which
    a call under way when the window opens began.
   */
  lemma WindowKeepsRate(born: Millis, ticks: seq<Tick>, i0: nat, i: nat, j: nat)
    requires ClockRises(born, ticks) && RefillsRunThrough(born, ticks) && i0 <= i < j <= |ticks|
    requires AllYoung(born, ticks, i0, i)
    ensures ticks[i0].1 <= ticks[j - 1].1
    ensures StateAt(born, ticks, j).grants - StateAt(born, ticks, i).grants
         <= CAPACITY + CeilDiv((ticks[j - 1].1 as int) - ticks[i0].1)
  {
    hide StateAt, RefillsRunThrough, ClockRises, Passed, PcOf, AllYoung;
    RateIsKept(born, ticks, i0, j);
    AllGrantsCount(born, ticks, i0, i, j);
  }

  /** In particular of a window that opens with no call under way. */
  lemma QuietWindowKeepsRate(born: Millis, ticks: seq<Tick>, i: nat, j: nat)
    requires ClockRises(born, ticks) && RefillsRunThrough(born, ticks) && i < j <= |ticks|
    requires forall t: nat :: PcOf(StateAt(born, ticks, i), t).Idle?
    ensures ticks[i].1 <= ticks[j - 1].1
    ensures StateAt(born, ticks, j).grants - StateAt(born, ticks, i).grants
         <= CAPACITY + CeilDiv((ticks[j - 1].1 as int) - ticks[i].1)
  {
    hide StateAt, RefillsRunThrough, ClockRises, PcOf;
    WindowKeepsRate(born, ticks, i, i, j);
  }

  lemma CountsOne(w: Watch, t: nat, now: Millis)
    requires forall u: nat :: !PcOf(w.state, u).Idle? ==> u in w.young
    ensures var w' := StepWatch(w, t, now);
            && w'.state == Step(w.state, t, now)
            && w'.state.grants - w.state.grants == w'.grants - w.grants
            && forall u: nat :: !PcOf(w'.state, u).Idle? ==> u in w'.young
  {
    OthersStay(w.state, t, now);
  }

  // ----- why the window counts calls begun in it ----------------------------------------------

  lemma {:induction false} StateIsRun(born: Millis, ticks: seq<Tick>, k: nat)
    requires k <= |ticks|
    ensures StateAt(born, ticks, k) == Run(Init(born), ticks[..k])
  {
    if k > 0 {
      StateIsRun(born, ticks, k - 1);
      assert ticks[..k][..k - 1] == ticks[..k - 1];
    }
  }

  /** Nobody but `t` is refilling. */
  ghost predicate OnlyRefiller(s: State, t: nat) { forall u: nat :: u != t ==> !Refilling(PcOf(s, u)) }

  lemma {:induction false} SameBeginning(born: Millis, ticks: seq<Tick>, more: seq<Tick>, k: nat)
    requires k <= |ticks|
    ensures StateAt(born, ticks + more, k) == StateAt(born, ticks, k)
  {
    if k > 0 { SameBeginning(born, ticks, more, k - 1); }
  }

  /** Steps of one thread alone interrupt no refill. */
  lemma {:induction false} AloneRunsThrough(born: Millis, ticks: seq<Tick>, t: nat, now: Millis, n: nat)
    requires RefillsRunThrough(born, ticks) && OnlyRefiller(StateAt(born, ticks, |ticks|), t)
    ensures var all := ticks + Alone(t, now, n);
            RefillsRunThrough(born, all) && OnlyRefiller(StateAt(born, all, |all|), t)
  {
    if n == 0 {
      assert ticks + Alone(t, now, 0) == ticks;
    } else {
      var front := ticks + Alone(t, now, n - 1);
      AloneRunsThrough(born, ticks, t, now, n - 1);
      assert ticks + Alone(t, now, n) == front + [(t, now)];
      hide Alone;
      OneMoreRunsThrough(born, front, t, now);
    }
  }

  lemma OneMoreRunsThrough(born: Millis, ticks: seq<Tick>, t: nat, now: Millis)
    requires RefillsRunThrough(born, ticks) && OnlyRefiller(StateAt(born, ticks, |ticks|), t)
    ensures var all := ticks + [(t, now)]; RefillsRunThrough(born, all) && OnlyRefiller(StateAt(born, all, |all|), t)
  {
    var all := ticks + [(t, now)];
    SameBeginning(born, ticks, [(t, now)], |ticks|);
    assert StateAt(born, all, |all|) == Step(StateAt(born, ticks, |ticks|), t, now);
    OthersStay(StateAt(born, ticks, |ticks|), t, now);
    hide StateAt, PcOf, Step;
    forall k, u: nat | 0 <= k < |all| && Refilling(PcOf(StateAt(born, all, k), u))
      ensures all[k].0 == u
    {
      SameBeginning(born, ticks, [(t, now)], k);
      if k < |ticks| { assert all[k] == ticks[k]; }
    }
  }

  /** A thread that read the clock at 100 and went on at 200: its refill is due, and it takes one of ten tokens. */
  lemma StaleCall(s: State)
    requires PcOf(s, 1) == Clocked(100) && s.bucket == Bucket(10, 0)
    ensures Moved(s, Run(s, Alone(1, 200, 6)), 1, Idle, Bucket(9, 100), s.grants + 1)
  {
    hide Run;
    RunNothing(s, 1, 200);
    AloneStep(s, 1, 200, 0);
    AloneStep(s, 1, 200, 1);
    AloneStep(s, 1, 200, 2);
    AloneStep(s, 1, 200, 3);
    var r := Run(s, Alone(1, 200, 4));
    assert Moved(s, r, 1, Reading, Bucket(10, 100), s.grants);
    TakePart(r, 1, 200);
    NotifRace.RunAppend(s, Alone(1, 200, 4), Alone(1, 200, 2));
    assert Alone(1, 200, 4) + Alone(1, 200, 2) == Alone(1, 200, 6);
  }

  /**
    Calls under way when a window opens may add to what passes in it: with refills that run through and a
    rising clock, eleven calls are granted at one instant, where ten is the bound, because one of them had
    read the clock 100 ms earlier.
   */
  lemma StaleReadingAddsOne() returns (ticks: seq<Tick>)
    ensures ClockRises(0, ticks) && RefillsRunThrough(0, ticks) && |ticks| > 1
    ensures forall k :: 1 <= k < |ticks| ==> ticks[k].1 == 200
    ensures StateAt(0, ticks, 1).grants == 0 && StateAt(0, ticks, |ticks|).grants == CAPACITY + 1
  {
    hide Run, Alone, RefillsRunThrough, StateAt, OnlyRefiller, PcOf, Step, Init, ClockRises;
    var a, b := StaleHalf();
    var c, d := LastTen(Run(Init(0), a + b));
    ticks := a + b + c + d;
    AloneRunsThrough(0, a + b, 2, 200, |c|);
    AloneRunsThrough(0, a + b + c, 2, 200, |d|);
    NotifRace.RunAppend(Init(0), a + b, c);
    NotifRace.RunAppend(Init(0), a + b + c, d);
    StateIsRun(0, ticks, |ticks|);
    assert ticks[..|ticks|] == ticks;
    SameBeginning(0, a, b + c + d, 1);
    assert a + (b + c + d) == ticks;
    ReadingsOf(a, b, c, d);
  }

  lemma ReadingsOf(a: seq<Tick>, b: seq<Tick>, c: seq<Tick>, d: seq<Tick>)
    requires a == Alone(1, 100, 1) && b == Alone(1, 200, |b|) && c == Alone(2, 200, |c|) && d == Alone(2, 200, |d|)
    ensures var ticks := a + b + c + d; ClockRises(0, ticks) && forall k :: 1 <= k < |ticks| ==> ticks[k].1 == 200
  {
    var ticks := a + b + c + d;
    assert ticks[0].1 == 100 && forall k :: 1 <= k < |ticks| ==> ticks[k].1 == 200;
  }

  /** Thread 1 reads the clock, and much later makes its call. */
  lemma StaleHalf() returns (a: seq<Tick>, b: seq<Tick>)
    ensures a == Alone(1, 100, 1) && b == Alone(1, 200, |b|) && |a| == 1 && |b| > 0
    ensures RefillsRunThrough(0, a + b) && OnlyRefiller(StateAt(0, a + b, |a + b|), 2) && StateAt(0, a, 1).grants == 0
    ensures var s := Run(Init(0), a + b); PcOf(s, 2).Idle? && s.bucket == Bucket(9, 100) && s.grants == 1
  {
    var start := Init(0);
    a, b := Alone(1, 100, 1), Alone(1, 200, 6);
    FirstReading();
    hide Run, RefillsRunThrough, StateAt;
    var s1 := Run(start, a);
    AloneRunsThrough(0, a, 1, 200, 6);
    StaleCall(s1);
    NotifRace.RunAppend(start, a, b);
    StateIsRun(0, a + b, |a + b|);
    assert (a + b)[..|a + b|] == a + b;
  }

  lemma FirstReading()
    ensures var a := Alone(1, 100, 1);
            var s := Run(Init(0), a);
            && RefillsRunThrough(0, a) && OnlyRefiller(StateAt(0, a, |a|), 1) && StateAt(0, a, 1) == s
            && PcOf(s, 1) == Clocked(100) && s.bucket == Bucket(10, 0) && s.grants == 0
            && forall u: nat :: u != 1 ==> PcOf(s, u).Idle?
  {
    var a := Alone(1, 100, 1);
    assert [] + a == a && a[..1] == a && a[..0] == [];
    AloneRunsThrough(0, [], 1, 100, 1);
    StateIsRun(0, a, 1);
  }

  /** Ten more, the first of which refills. */
  lemma LastTen(s: State) returns (c: seq<Tick>, d: seq<Tick>)
    requires PcOf(s, 2).Idle? && s.bucket == Bucket(9, 100)
    ensures c == Alone(2, 200, |c|) && d == Alone(2, 200, |d|)
    ensures Run(Run(s, c), d).grants == s.grants + 10
  {
    hide Run;
    AloneIsSequential(s, 2, 200);
    c := Alone(2, 200, CallLength(s.bucket, 200));
    d := Drain(Run(s, c), 2, 200, 9);
  }
}
