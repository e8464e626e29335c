/**
  The durable event bus: id allocation, durable append and broadcast under one lock, with a cached
  counter that is re-seeded from the table after failures and restarts.

  The lock makes publishes sequential, but not atomic for readers of the table: a row is visible from
  the moment it commits, before its event is broadcast.  The step relation keeps the two apart.
 */
module EventBus {
  import opened Common

  datatype Row<V> = Row(id: int, event: V)

  /** Who holds the publish lock: nobody, or a publisher whose row is committed and not yet broadcast. */
  datatype Holder = Free | Committed(id: int)

  /** `sent` is the history of durable broadcasts, over every life of the process. */
  datatype Bus<V> = Bus(rows: seq<Row<V>>, cached: Option<int>, holder: Holder, sent: seq<int>)

  const EMPTY_MAX := 0

  /** `SELECT COALESCE(MAX(id), 0)`. */
  function MaxId<V>(rows: seq<Row<V>>): (r: int)
    ensures forall i :: 0 <= i < |rows| ==> rows[i].id <= r
    ensures r == EMPTY_MAX || exists i :: 0 <= i < |rows| && rows[i].id == r
  {
    if rows == [] then EMPTY_MAX
    else
      var front := MaxId(rows[..|rows| - 1]);
      var last := rows[|rows| - 1].id;
      if last > front then last else front
  }

  predicate HasId<V>(rows: seq<Row<V>>, id: int) { exists i :: 0 <= i < |rows| && rows[i].id == id }

  function Seed<V>(b: Bus<V>): int { if b.cached.Some? then b.cached.value else MaxId(b.rows) }

  /** The next publish would insert an id the table already has. */
  predicate Colliding<V>(b: Bus<V>) { HasId(b.rows, Seed(b) + 1) }

  datatype Step<V> =
    | Commit(event: V)   // the append's row becomes durable
    | Broadcast          // ... and publish goes on to send it and return Ok
    | ErrAfterCommit     // ... but publish observes an error
    | DropAfterCommit    // ... but the publish future is dropped
    | ErrBeforeCommit    // the append fails without a row: I/O error, or the UNIQUE constraint
    | DropBeforeCommit   // the future is dropped, or reading MAX(id) fails, before any row
    | Restart            // the process dies, possibly inside a publish, and boots again

  predicate Enabled<V>(b: Bus<V>, step: Step<V>)
  {
    match step
    case Commit(_) => b.holder.Free? && !Colliding(b)
    case Broadcast => b.holder.Committed?
    case ErrAfterCommit => b.holder.Committed?
    case DropAfterCommit => b.holder.Committed?
    case ErrBeforeCommit => b.holder.Free?
    case DropBeforeCommit => b.holder.Free?
    case Restart => true
  }

  function Next<V>(b: Bus<V>, step: Step<V>): Bus<V>
    requires Enabled(b, step)
  {
    match step
    case Commit(ev) => b.(rows := b.rows + [Row(Seed(b) + 1, ev)], holder := Committed(Seed(b) + 1))
    case Broadcast => b.(cached := Some(b.holder.id), holder := Free, sent := b.sent + [b.holder.id])
    case ErrAfterCommit => b.(cached := None, holder := Free)
    case DropAfterCommit => b.(holder := Free)
    case ErrBeforeCommit => b.(cached := None)
    case DropBeforeCommit => b
    case Restart => b.(cached := None, holder := Free)
  }

  // ----- what every step keeps ----------------------------------------------------------------

  /** Committed ids are 1, 2, ... without a gap. */
  predicate Contiguous<V>(rows: seq<Row<V>>) { forall i :: 0 <= i < |rows| ==> rows[i].id == i + 1 }

  predicate StrictlyIncreasing(ids: seq<int>) { forall i, j :: 0 <= i < j < |ids| ==> ids[i] < ids[j] }

  predicate Inv<V>(b: Bus<V>)
  {
    var n := |b.rows|;
    && Contiguous(b.rows)
    && StrictlyIncreasing(b.sent)
    && (forall i :: 0 <= i < |b.sent| ==> 1 <= b.sent[i] <= n)
    && (b.cached.Some? ==> 0 <= b.cached.value && n - 1 <= b.cached.value <= n)
    && (b.holder.Committed? ==>
          && b.holder.id == n >= 1
          && (b.cached.Some? ==> b.cached.value == n - 1)
          && forall i :: 0 <= i < |b.sent| ==> b.sent[i] < n)
  }

  lemma MaxOfContiguous<V>(rows: seq<Row<V>>)
    requires Contiguous(rows)
    ensures MaxId(rows) == |rows|
    ensures forall id :: HasId(rows, id) <==> 1 <= id <= |rows|
  {
    forall id | 1 <= id <= |rows|
      ensures HasId(rows, id)
    {
      assert rows[id - 1].id == id;
    }
    if rows != [] { assert rows[|rows| - 1].id == |rows|; }
  }

  lemma StepKeepsInv<V>(b: Bus<V>, step: Step<V>)
    requires Inv(b) && Enabled(b, step)
    ensures Inv(Next(b, step))
  {
    hide MaxId, HasId;
    MaxOfContiguous(b.rows);
  }

  /** In an invariant state the counter is stale exactly when it is one behind the table. */
  lemma CollidingMeansStale<V>(b: Bus<V>)
    requires Inv(b)
    ensures Colliding(b) <==> b.cached == Some(|b.rows| - 1) && |b.rows| >= 1
  {
    hide MaxId, HasId;
    MaxOfContiguous(b.rows);
  }

  // ----- runs ---------------------------------------------------------------------------------

  /** A boot of the process on the table an earlier life left behind. */
  predicate Boots<V>(b: Bus<V>)
  {
    Contiguous(b.rows) && b.cached.None? && b.holder.Free? && b.sent == []
  }

  /** `states` is a run: `states[0]` boots and each state follows from the one before by `steps`. */
  ghost predicate IsRun<V>(states: seq<Bus<V>>, steps: seq<Step<V>>)
  {
    && |states| == |steps| + 1
    && Boots(states[0])
    && forall i :: 0 <= i < |steps| ==> Follows(states[i], steps[i], states[i + 1])
  }

  ghost predicate Follows<V>(b: Bus<V>, step: Step<V>, b': Bus<V>) { Enabled(b, step) && b' == Next(b, step) }

  lemma {:induction false} RunKeepsInv<V>(states: seq<Bus<V>>, steps: seq<Step<V>>, k: nat)
    requires IsRun(states, steps) && k < |states|
    ensures Inv(states[k])
  {
    if k > 0 {
      RunKeepsInv(states, steps, k - 1);
      assert Follows(states[k - 1], steps[k - 1], states[k]);
      StepKeepsInv(states[k - 1], steps[k - 1]);
    }
  }

  /**
    In every run of publishes, failures, dropped futures and restarts, and at every point of it:
    broadcast ids strictly increase, each has its row, committed ids have no gap, and the cached counter
    is the table's maximum or one less.
   */
  lemma BusIsOrdered<V>(states: seq<Bus<V>>, steps: seq<Step<V>>, k: nat)
    requires IsRun(states, steps) && k < |states|
    ensures var b := states[k];
            && StrictlyIncreasing(b.sent)
            && (forall i :: 0 <= i < |b.sent| ==> HasId(b.rows, b.sent[i]))
            && (forall id :: HasId(b.rows, id) <==> 1 <= id <= MaxId(b.rows))
            && (b.cached.Some? ==> MaxId(b.rows) - 1 <= b.cached.value <= MaxId(b.rows))
  {
    hide MaxId, HasId;
    RunKeepsInv(states, steps, k);
    MaxOfContiguous(states[k].rows);
  }

  // ----- told from the steps alone --------------------------------------------------------------

  /** The events committed, in order. */
  function Events<V>(steps: seq<Step<V>>): seq<V>
  {
    if steps == [] then []
    else
      var last := steps[|steps| - 1];
      Events(steps[..|steps| - 1]) + if last.Commit? then [last.event] else []
  }

  /** The ids broadcast: each that of the last event committed before it, on top of a table of `base` rows. */
  function Broadcasts<V>(steps: seq<Step<V>>, base: nat): seq<int>
  {
    if steps == [] then []
    else
      var front := steps[..|steps| - 1];
      Broadcasts(front, base) + if steps[|steps| - 1].Broadcast? then [base + |Events(front)|] else []
  }

  /** The table holds `old'` and below it `events`, numbered on. */
  ghost predicate Extends<V>(old': seq<Row<V>>, events: seq<V>, rows: seq<Row<V>>)
  {
    && |rows| == |old'| + |events| && old' <= rows
    && forall i :: 0 <= i < |events| ==> rows[|old'| + i] == Row(|old'| + i + 1, events[i])
  }

  /**
    In every run the table is what it was at boot and then the committed events, and what is broadcast are the
    publishes that went through.
   */
  lemma {:induction false} BusTellsTheSteps<V>(states: seq<Bus<V>>, steps: seq<Step<V>>, k: nat)
    requires IsRun(states, steps) && k < |states|
    ensures Extends(states[0].rows, Events(steps[..k]), states[k].rows)
    ensures states[k].sent == Broadcasts(steps[..k], |states[0].rows|)
  {
    if k == 0 {
      assert steps[..0] == [];
    } else {
      var b, step := states[k - 1], steps[k - 1];
      assert Follows(b, step, states[k]);
      RunKeepsInv(states, steps, k - 1);
      assert steps[..k] == steps[..k - 1] + [step];
      hide Extends, Inv, Next, Enabled, Events, Broadcasts;
      BusTellsTheSteps(states, steps, k - 1);
      StepTells(states[0].rows, steps[..k - 1], b, step);
    }
  }

  lemma StepTells<V>(old': seq<Row<V>>, steps: seq<Step<V>>, b: Bus<V>, step: Step<V>)
    requires Extends(old', Events(steps), b.rows) && b.sent == Broadcasts(steps, |old'|) && Inv(b) && Enabled(b, step)
    ensures Extends(old', Events(steps + [step]), Next(b, step).rows)
    ensures Next(b, step).sent == Broadcasts(steps + [step], |old'|)
  {
    StepsSnoc(steps, step, |old'|);
    StepExtends(old', Events(steps), b, step);
    hide Extends, Inv, Seed, Colliding, Events, Broadcasts;
    assert b.sent + [] == b.sent;
  }

  lemma StepsSnoc<V>(steps: seq<Step<V>>, step: Step<V>, base: nat)
    ensures Events(steps + [step]) == Events(steps) + if step.Commit? then [step.event] else []
    ensures Broadcasts(steps + [step], base)
         == Broadcasts(steps, base) + if step.Broadcast? then [base + |Events(steps)|] else []
  {
    assert (steps + [step])[..|steps|] == steps;
  }

  /** A commit that does not collide takes the next id. */
  lemma SeedIs<V>(b: Bus<V>)
    requires Inv(b) && b.holder.Free? && !Colliding(b)
    ensures Seed(b) == |b.rows|
  {
    CollidingMeansStale(b);
    MaxOfContiguous(b.rows);
  }

  lemma StepExtends<V>(old': seq<Row<V>>, events: seq<V>, b: Bus<V>, step: Step<V>)
    requires Extends(old', events, b.rows) && Inv(b) && Enabled(b, step)
    ensures Extends(old', events + if step.Commit? then [step.event] else [], Next(b, step).rows)
    ensures b.holder.Committed? ==> b.holder.id == |old'| + |events|
  {
    hide MaxId, HasId, Colliding, Seed;
    if step.Commit? { SeedIs(b); }
    assert events + [] == events;
  }

  /** How many dropped futures left a committed row behind, up to step `k`. */
  function Drops<V>(steps: seq<Step<V>>, k: nat): nat
    requires k <= |steps|
  {
    if k == 0 then 0 else Drops(steps, k - 1) + if steps[k - 1].DropAfterCommit? then 1 else 0
  }

  /** How many publishes failed on an id the table already had, up to step `k`. */
  function Collisions<V>(states: seq<Bus<V>>, steps: seq<Step<V>>, k: nat): nat
    requires k <= |steps| < |states|
  {
    if k == 0 then 0
    else Collisions(states, steps, k - 1) + if steps[k - 1].ErrBeforeCommit? && Colliding(states[k - 1]) then 1 else 0
  }

  /** Each dropped future costs at most one colliding publish before the counter heals. */
  lemma {:induction false} DropsBoundCollisions<V>(states: seq<Bus<V>>, steps: seq<Step<V>>, k: nat)
    requires IsRun(states, steps) && k <= |steps|
    ensures Collisions(states, steps, k) + (if Colliding(states[k]) && states[k].holder.Free? then 1 else 0)
         <= Drops(steps, k)
  {
    hide Colliding, Inv;
    if k == 0 {
      RunKeepsInv(states, steps, 0);
      CollidingMeansStale(states[0]);
    } else {
      DropsBoundCollisions(states, steps, k - 1);
      RunKeepsInv(states, steps, k - 1);
      RunKeepsInv(states, steps, k);
      assert Follows(states[k - 1], steps[k - 1], states[k]);
      CollidingMeansStale(states[k - 1]);
      CollidingMeansStale(states[k]);
      OnlyDropsMakeStale(states[k - 1], steps[k - 1]);
    }
  }

  lemma OnlyDropsMakeStale<V>(b: Bus<V>, step: Step<V>)
    requires Inv(b) && Enabled(b, step)
    ensures var b' := Next(b, step);
            (b'.holder.Free? && b'.cached == Some(|b'.rows| - 1) && |b'.rows| >= 1)
            ==> (step.DropAfterCommit? || (step.DropBeforeCommit? && b' == b))
  {
  }

  /** Self-healing: a publish that collides leaves the next one free to commit the next id. */
  lemma CollisionHeals<V>(b: Bus<V>, ev: V)
    requires Inv(b) && b.holder.Free? && Colliding(b)
    ensures var b' := Next(b, ErrBeforeCommit);
            && Enabled(b', Commit(ev))
            && Next(b', Commit(ev)).rows == b.rows + [Row(|b.rows| + 1, ev)]
  {
    hide MaxId, HasId;
    MaxOfContiguous(b.rows);
  }

  // ----- the bus object -----------------------------------------------------------------------

  /** What the environment does to the append of one publish. */
  datatype Fate = Lands | FailsClean | FailsCommitted

  /** The steps that a durable publish with that fate amounts to. */
  ghost predicate Completed<V>(b: Bus<V>, ev: V, fate: Fate, b': Bus<V>)
    requires b.holder.Free?
  {
    if Colliding(b) || fate.FailsClean? then b' == Next(b, ErrBeforeCommit)
    else if fate.FailsCommitted? then b' == Next(Next(b, Commit(ev)), ErrAfterCommit)
    else b' == Next(Next(b, Commit(ev)), Broadcast)
  }

  class BroadcastBus<V> {
    const hasRepo: bool
    var rows: seq<Row<V>>
    var nextEventId: Option<int>
    var sent: seq<int>
    var transient: seq<V>

    ghost function Value(): Bus<V>
      reads this
    {
      Bus(rows, nextEventId, Free, sent)
    }

    constructor (hasRepo: bool, rows: seq<Row<V>>)
      requires Contiguous(rows)
      ensures Boots(Value()) && this.rows == rows && this.hasRepo == hasRepo && transient == []
    {
      this.hasRepo, this.rows, this.nextEventId, this.sent, this.transient := hasRepo, rows, None, [], [];
    }

    /**
      A publish awaited to completion; it reaches exactly the state its steps reach.  `readable` says whether
      the highest id can be read when it has to be.
     */
    method Publish(ev: V, durable: bool, readable: bool, fate: Fate) returns (ok: bool)
      requires Inv(Value())
      modifies this
      ensures Inv(Value())
      ensures !(durable && hasRepo) ==> ok && Value() == old(Value()) && transient == old(transient) + [ev]
      ensures durable && hasRepo ==> transient == old(transient)
      ensures var unread := old(nextEventId).None? && !readable;
              durable && hasRepo ==>
                && (ok <==> !unread && fate.Lands? && !Colliding(old(Value())))
                && (unread ==> Value() == Next(old(Value()), DropBeforeCommit))
                && (!unread ==> Completed(old(Value()), ev, fate, Value()))
    {
      hide MaxId, HasId;
      if durable && hasRepo {
        if nextEventId.None? && !readable { return false; }
        MaxOfContiguous(rows);
        var seed := if nextEventId.Some? then nextEventId.value else MaxId(rows);
        var eventId := seed + 1;
        var appended := Append(eventId, ev, fate);
        if !appended {
          nextEventId := None;
          return false;
        }
        nextEventId := Some(eventId);
        sent := sent + [eventId];
        return true;
      }
      transient := transient + [ev];
      return true;
    }

    /** `append_with_id`: the UNIQUE key refuses a second row with the id. */
    method Append(id: int, ev: V, fate: Fate) returns (ok: bool)
      modifies this`rows
      ensures ok <==> fate.Lands? && !HasId(old(rows), id)
      ensures rows == if fate.FailsClean? || HasId(old(rows), id) then old(rows) else old(rows) + [Row(id, ev)]
    {
      if fate.FailsClean? || HasId(rows, id) {
        return false;
      }
      rows := rows + [Row(id, ev)];
      return fate.Lands?;
    }
  }
}
