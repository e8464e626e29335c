/**
  The notification token bucket: ten tokens, one more per 100 ms, refilled lazily by each call.  First as
  one call after another, with the rate it enforces; then as threads interleaving single atomic accesses.
 */
module NotifBucket {
  import opened Common

  const CAPACITY: nat := 10
  const INTERVAL: int := 100
  const MAX_U32: int := 0xFFFF_FFFF
  const MIN_I64: int := -0x8000_0000_0000_0000
  const MAX_I64: int := 0x7FFF_FFFF_FFFF_FFFF

  /** A millisecond timestamp as stored: 64 bits, signed. */
  type Millis = t: int | MIN_I64 <= t <= MAX_I64

  datatype Bucket = Bucket(tokens: nat, last: Millis)

  function SaturatingSub(a: Millis, b: Millis): Millis
  {
    if a - b > MAX_I64 then MAX_I64 else if a - b < MIN_I64 then MIN_I64 else a - b
  }

  /** How many tokens a wait is worth, with the narrowing to 32 bits. */
  function Worth(elapsed: Millis): (r: nat)
    requires elapsed >= INTERVAL
    ensures 1 <= r && r * INTERVAL <= elapsed
  {
    Min(elapsed / INTERVAL, MAX_U32)
  }

  /** The token count after adding, saturating at 32 bits and then at the capacity. */
  function Topped(tokens: nat, refill: nat): (r: nat)
    ensures r <= CAPACITY && r <= tokens + refill
    ensures tokens + refill >= CAPACITY ==> r == CAPACITY
    ensures tokens + refill < CAPACITY ==> r == tokens + refill
  {
    Min(Min(tokens + refill, MAX_U32), CAPACITY)
  }

  function Refilled(b: Bucket, now: Millis): Bucket
  {
    var elapsed := SaturatingSub(now, b.last);
    if elapsed >= INTERVAL then Bucket(Topped(b.tokens, Worth(elapsed)), now) else b
  }

  predicate Granted(b: Bucket, now: Millis) { Refilled(b, now).tokens > 0 }

  function Taken(b: Bucket, now: Millis): Bucket
  {
    var r := Refilled(b, now);
    if r.tokens > 0 then r.(tokens := r.tokens - 1) else r
  }

  class TokenBucket {
    var tokens: nat
    var lastRefillMs: Millis

    function Value(): Bucket
      reads this
    {
      Bucket(tokens, lastRefillMs)
    }

    constructor (now: Millis)
      ensures Value() == Bucket(CAPACITY, now)
    {
      tokens, lastRefillMs := CAPACITY, now;
    }

    /** One call that no other overlaps: its compare-and-swap cannot fail. */
    method TryTake(now: Millis) returns (ok: bool)
      modifies this
      ensures Value() == Taken(old(Value()), now) && ok == Granted(old(Value()), now)
    {
      var last := lastRefillMs;
      var elapsed := SaturatingSub(now, last);
      if elapsed >= INTERVAL {
        var refill := Worth(elapsed);
        lastRefillMs := now;
        var prev := tokens;
        tokens := Topped(prev, refill);
      }
      var cur := tokens;
      if cur == 0 {
        return false;
      }
      tokens := cur - 1;
      return true;
    }
  }

  // ----- runs of calls ------------------------------------------------------------------------

  predicate Rising(ts: seq<Millis>) { forall i, j :: 0 <= i <= j < |ts| ==> ts[i] <= ts[j] }

  function After(b: Bucket, ts: seq<Millis>): Bucket
  {
    if ts == [] then b else Taken(After(b, ts[..|ts| - 1]), ts[|ts| - 1])
  }

  /** How many of the calls were granted. */
  function Grants(b: Bucket, ts: seq<Millis>): nat
  {
    if ts == [] then 0
    else Grants(b, ts[..|ts| - 1]) + if Granted(After(b, ts[..|ts| - 1]), ts[|ts| - 1]) then 1 else 0
  }

  /** A run followed by another. */
  lemma {:induction false} RunAppend(b: Bucket, xs: seq<Millis>, ys: seq<Millis>)
    ensures After(b, xs + ys) == After(After(b, xs), ys)
    ensures Grants(b, xs + ys) == Grants(b, xs) + Grants(After(b, xs), ys)
  {
    if ys == [] {
      assert xs + ys == xs;
    } else {
      assert (xs + ys)[..|xs + ys| - 1] == xs + ys[..|ys| - 1];
      RunAppend(b, xs, ys[..|ys| - 1]);
    }
  }

  /** Whatever came before, the bucket holds at most its capacity and was last filled in the past. */
  lemma {:induction false} StaysBounded(b: Bucket, ts: seq<Millis>, now: Millis)
    requires b.tokens <= CAPACITY && Rising(ts + [now]) && b.last <= (ts + [now])[0]
    ensures After(b, ts).tokens <= CAPACITY && b.last <= After(b, ts).last <= now
  {
    if ts != [] {
      var front, t := ts[..|ts| - 1], ts[|ts| - 1];
      assert front + [t] == ts && ts == (ts + [now])[..|ts|];
      assert (ts + [now])[|ts| - 1] == t && (ts + [now])[|ts|] == now && (ts + [now])[0] == (front + [t])[0];
      StaysBounded(b, front, t);
    }
  }

  /** Grants, tokens left and the time not yet paid out never outgrow a full bucket and the time passed. */
  lemma {:induction false} WindowPotential(b: Bucket, ts: seq<Millis>)
    requires b.tokens <= CAPACITY && |ts| > 0 && Rising(ts) && b.last <= ts[0]
    ensures INTERVAL * (Grants(b, ts) + After(b, ts).tokens)
         <= INTERVAL * CAPACITY + (After(b, ts).last - ts[0]) + (INTERVAL - 1)
    ensures After(b, ts).last <= ts[|ts| - 1]
  {
    var front, t := ts[..|ts| - 1], ts[|ts| - 1];
    if front == [] {
      FirstCall(b, t);
    } else {
      WindowPotential(b, front);
      assert front[|front| - 1] == ts[|ts| - 2];
      NextCall(After(b, front), Grants(b, front), ts[0], t);
    }
  }

  lemma FirstCall(b: Bucket, t: Millis)
    requires b.tokens <= CAPACITY && b.last <= t
    ensures var g := if Granted(b, t) then 1 else 0;
            INTERVAL * (g + Taken(b, t).tokens) <= INTERVAL * CAPACITY + (Taken(b, t).last - t) + (INTERVAL - 1)
    ensures Taken(b, t).last <= t
  {
  }

  lemma NextCall(b: Bucket, grants: nat, start: int, t: Millis)
    requires b.last <= t
    requires INTERVAL * (grants + b.tokens) <= INTERVAL * CAPACITY + (b.last - start) + (INTERVAL - 1)
    ensures var g := grants + if Granted(b, t) then 1 else 0;
            INTERVAL * (g + Taken(b, t).tokens) <= INTERVAL * CAPACITY + (Taken(b, t).last - start) + (INTERVAL - 1)
    ensures Taken(b, t).last <= t
  {
    var r := Refilled(b, t);
    assert INTERVAL * (grants + r.tokens) <= INTERVAL * CAPACITY + (r.last - start) + (INTERVAL - 1) by {
      var elapsed := SaturatingSub(t, b.last);
      if elapsed >= INTERVAL {
        assert Refilled(b, t).tokens <= b.tokens + Worth(elapsed);
      }
    }
  }

  function CeilDiv(a: nat): nat { (a + INTERVAL - 1) / INTERVAL }

  lemma RisingSlice(ts: seq<Millis>, i: nat, j: nat)
    requires Rising(ts) && i <= j <= |ts|
    ensures Rising(ts[i..j])
  {
  }

  /**
    The rate: of the calls made in any window of a run with a non-decreasing clock, at most ten are
    granted and one more per started interval.
   */
  lemma RateIsBounded(born: Millis, ts: seq<Millis>, i: nat, j: nat)
    requires Rising([born] + ts) && i < j <= |ts|
    ensures ts[i] <= ts[j - 1]
    ensures Grants(Bucket(CAPACITY, born), ts[..j]) - Grants(Bucket(CAPACITY, born), ts[..i])
         <= CAPACITY + CeilDiv((ts[j - 1] as int) - ts[i])
  {
    var b := Bucket(CAPACITY, born);
    var pre, window := ts[..i], ts[i..j];
    CutWindow(born, ts, i, j);
    hide *;
    StaysBounded(b, pre, ts[i]);
    WindowBound(After(b, pre), window);
    RunAppend(b, pre, window);
  }

  lemma CutWindow(born: Millis, ts: seq<Millis>, i: nat, j: nat)
    requires Rising([born] + ts) && i < j <= |ts|
    ensures Rising(ts[..i] + [ts[i]]) && born <= (ts[..i] + [ts[i]])[0]
    ensures Rising(ts[i..j]) && ts[i..j][0] == ts[i] && ts[i..j][j - i - 1] == ts[j - 1]
    ensures ts[..j] == ts[..i] + ts[i..j]
  {
    var all := [born] + ts;
    assert all[0] <= all[1] && all[0] == born && all[1] == ts[0];
    RisingSlice(all, 1, i + 2);
    assert all[1..i + 2] == ts[..i] + [ts[i]] && (ts[..i] + [ts[i]])[0] == ts[0];
    RisingSlice(all, i + 1, j + 1);
    assert all[1..] == ts && all[i + 1..j + 1] == all[1..][i..j];
  }

  lemma WindowBound(b: Bucket, ts: seq<Millis>)
    requires b.tokens <= CAPACITY && |ts| > 0 && Rising(ts) && b.last <= ts[0]
    ensures ts[0] <= ts[|ts| - 1] && Grants(b, ts) <= CAPACITY + CeilDiv((ts[|ts| - 1] as int) - ts[0])
  {
    hide After, Grants;
    WindowPotential(b, ts);
    BoundFrom(Grants(b, ts), After(b, ts), ts[0], ts[|ts| - 1]);
  }

  lemma BoundFrom(grants: nat, b: Bucket, start: int, end: int)
    requires start <= end && b.last <= end
    requires INTERVAL * (grants + b.tokens) <= INTERVAL * CAPACITY + (b.last - start) + (INTERVAL - 1)
    ensures grants <= CAPACITY + CeilDiv(end - start)
  {
  }

  // ----- the bound is met ---------------------------------------------------------------------

  /** `n` calls at the same instant. */
  function Burst(now: Millis, n: nat): seq<Millis> { seq(n, _ => now) }

  lemma {:induction false} BurstEmpties(b: Bucket, now: Millis, n: nat)
    requires n <= b.tokens && 0 <= now - b.last < INTERVAL
    ensures Grants(b, Burst(now, n)) == n && After(b, Burst(now, n)) == Bucket(b.tokens - n, b.last)
  {
    if n > 0 {
      assert Burst(now, n)[..n - 1] == Burst(now, n - 1);
      BurstEmpties(b, now, n - 1);
    }
  }

  /** Calls an interval apart, the first at `now`. */
  function Ticks(now: Millis, n: nat): seq<Millis>
    requires now + n * INTERVAL <= MAX_I64
  {
    seq(n, k requires 0 <= k < n => (assert k * INTERVAL <= n * INTERVAL; now + k * INTERVAL))
  }

  lemma {:induction false} TicksAllGranted(b: Bucket, now: Millis, n: nat)
    requires b.tokens == 0 && now - b.last == INTERVAL && now + n * INTERVAL <= MAX_I64
    ensures Grants(b, Ticks(now, n)) == n && After(b, Ticks(now, n)) == Bucket(0, now + (n - 1) * INTERVAL)
  {
    if n > 0 {
      assert Ticks(now, n)[..n - 1] == Ticks(now, n - 1);
      TicksAllGranted(b, now, n - 1);
    }
  }

  /** The bound cannot be lowered: for every width some window of that width meets it. */
  lemma RateIsMet(span: nat) returns (born: Millis, ts: seq<Millis>)
    requires span <= MAX_I64 - 1000
    ensures |ts| > 0 && Rising([born] + ts) && ts[|ts| - 1] - ts[0] <= span
    ensures Grants(Bucket(CAPACITY, born), ts) == CAPACITY + CeilDiv(span)
  {
    born := 0;
    var n := CeilDiv(span);
    var full := Bucket(CAPACITY, born);
    var burst, ticks := Burst(99, CAPACITY), Ticks(100, n);
    ts := burst + ticks;
    BurstEmpties(full, 99, CAPACITY);
    TicksAllGranted(Bucket(0, 0), 100, n);
    RunAppend(full, burst, ticks);
    SpanOfTicks(span, n);
  }

  lemma SpanOfTicks(span: nat, n: nat)
    requires n == CeilDiv(span) && span <= MAX_I64 - 1000
    ensures 100 + n * INTERVAL <= MAX_I64
    ensures var ts := Burst(99, CAPACITY) + Ticks(100, n); |ts| > 0 && Rising([0] + ts) && ts[|ts| - 1] - ts[0] <= span
  {
  }

  // ----- what waiting is worth ------------------------------------------------------------------

  /** The calls a bucket can grant at one instant: its tokens and one per full interval waited, up to ten. */
  function Available(b: Bucket, now: Millis): nat
  {
    Min(CAPACITY, b.tokens + if now >= b.last then (now - b.last) / INTERVAL else 0)
  }

  lemma FirstOfBurst(b: Bucket, now: Millis)
    requires b.tokens <= CAPACITY
    ensures Refilled(b, now).tokens == Available(b, now) && Available(Taken(b, now), now) == Taken(b, now).tokens
  {
    var elapsed := SaturatingSub(now, b.last);
    if elapsed >= INTERVAL {
      assert elapsed == now - b.last || elapsed == MAX_I64;
      assert elapsed / INTERVAL >= CAPACITY || elapsed == now - b.last;
    }
  }

  lemma LaterInBurst(b: Bucket, now: Millis)
    requires b.tokens <= CAPACITY && Available(b, now) == b.tokens
    ensures Granted(b, now) <==> b.tokens > 0
    ensures Taken(b, now).tokens == if b.tokens > 0 then b.tokens - 1 else 0
    ensures Available(Taken(b, now), now) == Taken(b, now).tokens
  {
    FirstOfBurst(b, now);
  }

  /** Of any number of calls at one instant exactly as many are granted as the bucket then has. */
  lemma {:induction false} BurstIsExact(b: Bucket, now: Millis, n: nat)
    requires b.tokens <= CAPACITY
    ensures Grants(b, Burst(now, n)) == Min(n, Available(b, now))
    ensures n > 0 ==> After(b, Burst(now, n)).tokens == Available(b, now) - Min(n, Available(b, now))
    ensures n > 0 ==> Available(After(b, Burst(now, n)), now) == After(b, Burst(now, n)).tokens
  {
    if n > 0 {
      assert Burst(now, n)[..n - 1] == Burst(now, n - 1);
      BurstIsExact(b, now, n - 1);
      var s := After(b, Burst(now, n - 1));
      hide Refilled, Available;
      if n == 1 {
        assert Burst(now, 0) == [];
        FirstOfBurst(b, now);
      } else {
        LaterInBurst(s, now);
      }
    }
  }

  // ----- no starvation ------------------------------------------------------------------------

  /** Some call in `ts` at or after `since` was granted. */
  ghost predicate GrantedSince(b: Bucket, ts: seq<Millis>, since: int)
  {
    exists k :: 0 <= k < |ts| && ts[k] >= since && Granted(After(b, ts[..k]), ts[k])
  }

  lemma {:induction false} EmptiedSinceRefill(b: Bucket, ts: seq<Millis>)
    requires b.tokens > 0 && Rising(ts) && (|ts| > 0 ==> b.last <= ts[0])
    ensures After(b, ts).last <= if ts == [] then b.last else ts[|ts| - 1]
    ensures After(b, ts).tokens == 0 ==> GrantedSince(b, ts, After(b, ts).last)
  {
    if ts != [] {
      var front, t := ts[..|ts| - 1], ts[|ts| - 1];
      var s := After(b, front);
      assert After(b, ts) == Taken(s, t);
      assert front != [] ==> front[|front| - 1] <= t && front[0] == ts[0];
      RisingSlice(ts, 0, |ts| - 1);
      assert ts[0..|ts| - 1] == front && ts == front + [t];
      hide *;
      EmptiedSinceRefill(b, front);
      CallEmpties(s, t);
      GrantsGrow(b, front, t, s.last);
      GrantsGrow(b, front, t, Taken(s, t).last);
    }
  }

  lemma CallEmpties(b: Bucket, t: Millis)
    requires b.last <= t
    ensures Taken(b, t).last <= t
    ensures !Granted(b, t) ==> Taken(b, t) == b && b.tokens == 0
  {
  }

  lemma GrantsGrow(b: Bucket, ts: seq<Millis>, t: Millis, since: int)
    ensures GrantedSince(b, ts, since) ==> GrantedSince(b, ts + [t], since)
    ensures Granted(After(b, ts), t) && t >= since ==> GrantedSince(b, ts + [t], since)
  {
    hide Granted, After;
    var all := ts + [t];
    assert all[|ts|] == t && all[..|ts|] == ts;
    if GrantedSince(b, ts, since) {
      var k :| 0 <= k < |ts| && ts[k] >= since && Granted(After(b, ts[..k]), ts[k]);
      assert all[k] == ts[k] && all[..k] == ts[..k];
    }
  }

  /** A refused call has a granted one less than an interval before it: nobody is refused for long. */
  lemma RefusalFollowsGrant(born: Millis, ts: seq<Millis>, now: Millis)
    requires Rising([born] + ts + [now]) && !Granted(After(Bucket(CAPACITY, born), ts), now)
    ensures GrantedSince(Bucket(CAPACITY, born), ts, now - INTERVAL + 1)
  {
    var b := Bucket(CAPACITY, born);
    var all := [born] + ts + [now];
    assert Rising(ts) && (|ts| > 0 ==> born <= ts[0]) by {
      assert ts == all[1..|ts| + 1];
      assert |ts| > 0 ==> all[0] <= all[1];
    }
    assert all[0] == born && all[|ts| + 1] == now && (|ts| > 0 ==> all[|ts|] == ts[|ts| - 1]);
    EmptiedSinceRefill(b, ts);
    var s := After(b, ts);
    var k :| 0 <= k < |ts| && ts[k] >= s.last && Granted(After(b, ts[..k]), ts[k]);
    assert ts[k] >= now - INTERVAL + 1;
  }
}
