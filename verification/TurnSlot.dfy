/**
  The per-session turn slot and the FIFO queue of injected turns behind it.

  `Cell` is one session's entry of the two shared maps, and its functions are the critical sections that
  run under the `active_turns` entry lock.  `State` adds the tasks around the cell, so that every
  interleaving of claims, submissions, exits and cancels is a run of `Step`s.
 */
module TurnSlot {
  import opened Common

  type Handle = nat

  /** One session's slot and queue. */
  datatype Cell<T> = Cell(slot: Option<Handle>, queue: seq<T>)

  // ----- critical sections --------------------------------------------------------------------

  /** `try_claim_turn_slot` inserts only into a vacant entry. */
  function ClaimCell<T>(c: Cell<T>, unused: Handle): Cell<T> { if c.slot.None? then c.(slot := Some(unused)) else c }

  /** `SlotGuard::drop` of an uncommitted guard removes the entry, whoever holds it. */
  function DropCell<T>(c: Cell<T>): Cell<T> { c.(slot := None) }

  /** `enqueue_or_start_turn` claims a vacant slot for the turn, or queues behind an occupied one. */
  function SubmitCell<T>(c: Cell<T>, turn: T, unused: Handle): Cell<T>
  {
    if c.slot.None? then c.(slot := Some(unused)) else c.(queue := c.queue + [turn])
  }

  /** `drain_next_turn` by the task of `own`: hand the slot to the next queued turn, or release it. */
  function DrainCell<T>(c: Cell<T>, own: Handle, unused: Handle): Cell<T>
  {
    if c.slot != Some(own) then c
    else if c.queue != [] then Cell(Some(unused), c.queue[1..])
    else c.(slot := None)
  }

  function Drained<T>(c: Cell<T>, own: Handle): Option<T>
  {
    if c.slot == Some(own) && c.queue != [] then Some(c.queue[0]) else None
  }

  // ----- the tasks around the cell ------------------------------------------------------------

  /** Where the owner of a handle is: still guarded, holding a turn to start, driving, or gone. */
  datatype Phase = Guarded | Reserved | Driving | Ended

  /** A turn whose slot is claimed and whose task is about to be spawned. */
  datatype Ticket<T> = Ticket(handle: Handle, turn: T)

  datatype State<T> = State(
    cell: Cell<T>,
    next: Handle,
    phases: map<Handle, Phase>,
    reserved: seq<Ticket<T>>,
    submitted: seq<T>,
    started: seq<T>,
    loaded: map<nat, Handle>,
    fired: set<Handle>,
    emitted: seq<Handle>)

  datatype Step<T> =
    | Claim                     // a user prompt or a compaction asks for the slot
    | CommitGuard(h: Handle)    // its guard is committed and its task spawned
    | AbandonGuard(h: Handle)   // an error drops the guard first
    | Submit(turn: T)           // an injected turn arrives
    | Start(i: nat)             // a task holding a claimed slot spawns the turn it was claimed for
    | Exit(h: Handle)           // a driving task ends, by success, error or panic, and drains
    | LoadHandle(canceller: nat)  // a canceller looks the handle up
    | TripHandle(canceller: nat)  // ... and runs the compare-and-swap on what it found
    | Interfere(slot: Option<Handle>)  // something outside the protocol removes or replaces the slot

  predicate InPhase<T>(s: State<T>, h: Handle, p: Phase) { h in s.phases && s.phases[h] == p }

  predicate Enabled<T>(s: State<T>, step: Step<T>)
  {
    match step
    case Claim => true
    case CommitGuard(h) => InPhase(s, h, Guarded)
    case AbandonGuard(h) => InPhase(s, h, Guarded)
    case Submit(_) => true
    case Start(i) => i < |s.reserved|
    case Exit(h) => InPhase(s, h, Driving)
    case LoadHandle(_) => true
    case TripHandle(c) => c in s.loaded
    case Interfere(_) => true
  }

  function Reserve<T>(s: State<T>, cell: Cell<T>, turn: T): State<T>
  {
    s.(cell := cell, next := s.next + 1, phases := s.phases[s.next := Reserved],
       reserved := s.reserved + [Ticket(s.next, turn)])
  }

  function Next<T>(s: State<T>, step: Step<T>): State<T>
    requires Enabled(s, step)
  {
    match step
    case Claim =>
      if s.cell.slot.Some? then s
      else s.(cell := ClaimCell(s.cell, s.next), next := s.next + 1, phases := s.phases[s.next := Guarded])
    case CommitGuard(h) => s.(phases := s.phases[h := Driving])
    case AbandonGuard(h) => s.(cell := DropCell(s.cell), phases := s.phases[h := Ended])
    case Submit(t) =>
      var s' := s.(submitted := s.submitted + [t]);
      if s.cell.slot.None? then Reserve(s', SubmitCell(s.cell, t, s.next), t)
      else s'.(cell := SubmitCell(s.cell, t, s.next))
    case Start(i) =>
      s.(phases := s.phases[s.reserved[i].handle := Driving],
         reserved := s.reserved[..i] + s.reserved[i + 1..],
         started := s.started + [s.reserved[i].turn])
    case Exit(h) =>
      var s' := s.(phases := s.phases[h := Ended]);
      var cell := DrainCell(s.cell, h, s.next);
      var taken := Drained(s.cell, h);
      if taken.Some? then Reserve(s', cell, taken.value) else s'.(cell := cell)
    case LoadHandle(c) =>
      if s.cell.slot.Some? then s.(loaded := s.loaded[c := s.cell.slot.value]) else s
    case TripHandle(c) =>
      var h := s.loaded[c];
      var s' := s.(loaded := s.loaded - {c});
      if h in s.fired then s' else s'.(fired := s.fired + {h}, emitted := s.emitted + [h])
    case Interfere(slot) => s.(cell := s.cell.(slot := slot))
  }

  function Turns<T>(tickets: seq<Ticket<T>>): (r: seq<T>)
    ensures |r| == |tickets| && forall i :: 0 <= i < |r| ==> r[i] == tickets[i].turn
  {
    seq(|tickets|, i requires 0 <= i < |tickets| => tickets[i].turn)
  }

  // ----- conservation and cancellation: every run, whatever the environment does ----------------

  /** Each submitted turn is queued, reserved or started, exactly as often as it was submitted. */
  ghost predicate Conserved<T>(s: State<T>)
  {
    multiset(s.submitted) == multiset(s.started) + multiset(Turns(s.reserved)) + multiset(s.cell.queue)
  }

  /** A `Cancelling` emission is made for exactly the handles whose gate was flipped, and once for each. */
  ghost predicate GatesAgree<T>(s: State<T>)
  {
    && (forall i :: 0 <= i < |s.emitted| ==> s.emitted[i] in s.fired)
    && (forall h: Handle :: h in s.fired ==> h in s.emitted)
    && (forall i, j :: 0 <= i < j < |s.emitted| ==> s.emitted[i] != s.emitted[j])
  }

  lemma ReserveConserves<T>(s: State<T>, cell: Cell<T>, t: T)
    requires multiset(s.submitted)
         == multiset(s.started) + multiset(Turns(s.reserved)) + multiset(cell.queue) + multiset{t}
    ensures Conserved(Reserve(s, cell, t))
  {
    assert Turns(s.reserved + [Ticket(s.next, t)]) == Turns(s.reserved) + [t];
  }

  lemma StartConserves<T>(s: State<T>, i: nat)
    requires Conserved(s) && i < |s.reserved|
    ensures Conserved(Next(s, Start(i)))
  {
    var before := Turns(s.reserved);
    assert Turns(s.reserved[..i] + s.reserved[i + 1..]) == before[..i] + before[i + 1..];
    assert before == before[..i] + [before[i]] + before[i + 1..];
  }

  lemma SubmitConserves<T>(s: State<T>, t: T)
    requires Conserved(s)
    ensures Conserved(Next(s, Submit(t)))
  {
    hide Turns;
    if s.cell.slot.None? { ReserveConserves(s.(submitted := s.submitted + [t]), SubmitCell(s.cell, t, s.next), t); }
  }

  lemma ExitConserves<T>(s: State<T>, h: Handle)
    requires Conserved(s) && Enabled(s, Exit(h))
    ensures Conserved(Next(s, Exit(h)))
  {
    hide Turns;
    if Drained(s.cell, h).Some? {
      assert s.cell.queue == [s.cell.queue[0]] + s.cell.queue[1..];
      ReserveConserves(s.(phases := s.phases[h := Ended]), DrainCell(s.cell, h, s.next), s.cell.queue[0]);
    }
  }

  lemma StepConserves<T>(s: State<T>, step: Step<T>)
    requires Conserved(s) && Enabled(s, step)
    ensures Conserved(Next(s, step))
  {
    match step
    case Submit(t) => SubmitConserves(s, t);
    case Start(i) => StartConserves(s, i);
    case Exit(h) => ExitConserves(s, h);
    case _ =>
  }

  lemma StepKeepsGates<T>(s: State<T>, step: Step<T>)
    requires GatesAgree(s) && Enabled(s, step)
    ensures GatesAgree(Next(s, step))
  {
  }

  /** Of the cancellers that found a handle, the first to try its gate emits and no later one does. */
  lemma FirstCancellerEmits<T>(s: State<T>, c: nat)
    requires GatesAgree(s) && Enabled(s, TripHandle(c))
    ensures var now := Next(s, TripHandle(c)).emitted;
            now == if s.loaded[c] in s.emitted then s.emitted else s.emitted + [s.loaded[c]]
  {
  }

  predicate Concerns<T>(step: Step<T>, c: nat) { step == LoadHandle(c) || step == TripHandle(c) }

  /** Only a canceller's own steps change what it has found, and no emission is withdrawn. */
  lemma FoundStays<T>(s: State<T>, step: Step<T>, c: nat)
    requires Enabled(s, step)
    ensures !Concerns(step, c) ==> (c in Next(s, step).loaded <==> c in s.loaded)
    ensures !Concerns(step, c) && c in s.loaded ==> Next(s, step).loaded[c] == s.loaded[c]
    ensures s.emitted <= Next(s, step).emitted
  {
  }

  /** Only the owner of the slot releases it or takes from the queue on exit. */
  lemma ExitTouchesOnlyItsOwn<T>(s: State<T>, h: Handle)
    requires Enabled(s, Exit(h))
    ensures var s' := Next(s, Exit(h));
            s.cell.slot != Some(h) ==> s'.cell == s.cell && s'.reserved == s.reserved && s'.started == s.started
  {
  }

  /**
    Of all steps, whatever interferes with the slot: only the exit of its owner takes from the queue, and then
    its head; and only that exit, a dropped guard or interference vacates or hands on an occupied slot.
   */
  lemma OnlyTheOwnerDrains<T>(s: State<T>, step: Step<T>)
    requires Enabled(s, step)
    ensures var s' := Next(s, step);
            var ownExit := step.Exit? && s.cell.slot == Some(step.h);
            && (!(s.cell.queue <= s'.cell.queue) ==>
                  ownExit && s.cell.queue != [] && s'.cell.queue == s.cell.queue[1..])
            && (s.cell.slot.Some? && s'.cell.slot != s.cell.slot ==> ownExit || step.AbandonGuard? || step.Interfere?)
  {
  }

  // ----- one driver: runs without interference -------------------------------------------------

  predicate Live<T>(s: State<T>, h: Handle) { h in s.phases && s.phases[h] != Ended }

  ghost predicate OneDriver<T>(s: State<T>)
  {
    && (forall h: Handle :: h in s.phases ==> h < s.next)
    && (forall h: Handle :: Live(s, h) <==> s.cell.slot == Some(h))
    && |s.reserved| <= 1
    && (forall i :: 0 <= i < |s.reserved| ==> InPhase(s, s.reserved[i].handle, Reserved))
    && (forall h: Handle :: InPhase(s, h, Reserved) ==> |s.reserved| == 1)
  }

  /** The same, one handle at a time. */
  ghost predicate DrivesAt<T>(s: State<T>, h: Handle)
  {
    && (h in s.phases ==> h < s.next)
    && (Live(s, h) <==> s.cell.slot == Some(h))
    && (InPhase(s, h, Reserved) ==> |s.reserved| == 1)
  }

  lemma DriverAt<T>(s: State<T>, h: Handle)
    requires OneDriver(s)
    ensures DrivesAt(s, h)
  {
  }

  lemma DriverFrom<T>(s: State<T>)
    requires forall h: Handle :: DrivesAt(s, h)
    requires |s.reserved| <= 1 && forall i :: 0 <= i < |s.reserved| ==> InPhase(s, s.reserved[i].handle, Reserved)
    ensures OneDriver(s)
  {
    forall h: Handle
      ensures (h in s.phases ==> h < s.next) && (Live(s, h) <==> s.cell.slot == Some(h))
      ensures (InPhase(s, h, Reserved) ==> |s.reserved| == 1)
    {
      assert DrivesAt(s, h);
    }
  }

  /** Reserving a vacant slot, or one whose owner just ended, for a turn. */
  lemma ReserveKeepsOneDriver<T>(s: State<T>, cell: Cell<T>, t: T)
    requires forall h: Handle :: (h in s.phases ==> h < s.next) && !Live(s, h)
    requires s.reserved == [] && cell.slot == Some(s.next)
    ensures OneDriver(Reserve(s, cell, t))
  {
    hide OneDriver;
    var s' := Reserve(s, cell, t);
    forall h: Handle
      ensures DrivesAt(s', h)
    {
      assert !Live(s, h);
    }
    DriverFrom(s');
  }

  lemma GuardKeepsOneDriver<T>(s: State<T>, h: Handle, step: Step<T>)
    requires OneDriver(s) && InPhase(s, h, Guarded) && (step == CommitGuard(h) || step == AbandonGuard(h))
    ensures OneDriver(Next(s, step))
  {
    DriverAt(s, h);
    NothingReserved(s);
    hide OneDriver;
    forall x: Handle
      ensures DrivesAt(Next(s, step), x)
    {
      DriverAt(s, x);
    }
    DriverFrom(Next(s, step));
  }

  lemma ClaimKeepsOneDriver<T>(s: State<T>)
    requires OneDriver(s)
    ensures OneDriver(Next(s, Claim))
  {
    hide OneDriver;
    if s.cell.slot.None? {
      NothingReserved(s);
      forall x: Handle
        ensures DrivesAt(Next(s, Claim), x)
      {
        DriverAt(s, x);
      }
      DriverFrom(Next(s, Claim));
    }
  }

  lemma SubmitKeepsOneDriver<T>(s: State<T>, t: T)
    requires OneDriver(s)
    ensures OneDriver(Next(s, Submit(t)))
  {
    var s' := s.(submitted := s.submitted + [t]);
    if s.cell.slot.None? {
      NothingReserved(s);
      forall x: Handle
        ensures (x in s'.phases ==> x < s'.next) && !Live(s', x)
      {
        DriverAt(s, x);
      }
      ReserveKeepsOneDriver(s', SubmitCell(s.cell, t, s.next), t);
    } else {
      SameSlotKeepsOneDriver(s, Next(s, Submit(t)));
    }
  }

  /** Nothing that matters to driving has changed. */
  lemma SameSlotKeepsOneDriver<T>(s: State<T>, s': State<T>)
    requires OneDriver(s) && s'.cell.slot == s.cell.slot && s'.phases == s.phases && s'.reserved == s.reserved
    requires s'.next == s.next
    ensures OneDriver(s')
  {
    assert forall i :: 0 <= i < |s.reserved| ==> InPhase(s, s.reserved[i].handle, Reserved);
    assert |s.reserved| <= 1;
    hide OneDriver;
    forall x: Handle
      ensures DrivesAt(s', x)
    {
      DriverAt(s, x);
    }
    DriverFrom(s');
  }

  lemma StartKeepsOneDriver<T>(s: State<T>, i: nat)
    requires OneDriver(s) && i < |s.reserved|
    ensures OneDriver(Next(s, Start(i)))
  {
    var h := s.reserved[0].handle;
    assert i == 0 && InPhase(s, h, Reserved);
    DriverAt(s, h);
    hide OneDriver;
    forall x: Handle
      ensures DrivesAt(Next(s, Start(i)), x)
    {
      DriverAt(s, x);
    }
    DriverFrom(Next(s, Start(i)));
  }

  lemma ExitKeepsOneDriver<T>(s: State<T>, h: Handle)
    requires OneDriver(s) && InPhase(s, h, Driving)
    ensures OneDriver(Next(s, Exit(h)))
  {
    DriverAt(s, h);
    NothingReserved(s);
    hide OneDriver;
    var s' := s.(phases := s.phases[h := Ended]);
    forall x: Handle
      ensures (x in s'.phases ==> x < s'.next) && !Live(s', x)
    {
      DriverAt(s, x);
    }
    if Drained(s.cell, h).Some? {
      ReserveKeepsOneDriver(s', DrainCell(s.cell, h, s.next), Drained(s.cell, h).value);
    } else {
      forall x: Handle
        ensures DrivesAt(Next(s, Exit(h)), x)
      {
        assert !Live(s', x);
      }
      DriverFrom(Next(s, Exit(h)));
    }
  }

  lemma StepKeepsOneDriver<T>(s: State<T>, step: Step<T>)
    requires OneDriver(s) && Enabled(s, step) && !step.Interfere?
    ensures OneDriver(Next(s, step))
  {
    hide OneDriver, Live, InPhase;
    match step
    case Claim => ClaimKeepsOneDriver(s);
    case CommitGuard(h) => GuardKeepsOneDriver(s, h, step);
    case AbandonGuard(h) => GuardKeepsOneDriver(s, h, step);
    case Submit(t) => SubmitKeepsOneDriver(s, t);
    case Start(i) => StartKeepsOneDriver(s, i);
    case Exit(h) => ExitKeepsOneDriver(s, h);
    case LoadHandle(c) => SameSlotKeepsOneDriver(s, Next(s, step));
    case TripHandle(c) => SameSlotKeepsOneDriver(s, Next(s, step));
  }

  /** First come, first started. */
  ghost predicate InOrder<T>(s: State<T>) { s.submitted == s.started + Turns(s.reserved) + s.cell.queue }

  /** In order, and nothing waits behind a vacant slot. */
  ghost predicate Fifo<T>(s: State<T>) { InOrder(s) && (s.cell.slot.None? ==> s.cell.queue == []) }

  /** A guard dropped with turns queued behind its slot: the one step that strands the queue. */
  predicate Strands<T>(s: State<T>, step: Step<T>) { step.AbandonGuard? && s.cell.queue != [] }

  /** A turn submitted to a vacant slot while others wait: the one step that breaks the order. */
  predicate Overtakes<T>(s: State<T>, step: Step<T>) { step.Submit? && s.cell.slot.None? && s.cell.queue != [] }

  lemma SubmitKeepsOrder<T>(s: State<T>, t: T)
    requires OneDriver(s) && InOrder(s) && !Overtakes(s, Submit(t))
    ensures InOrder(Next(s, Submit(t)))
  {
    var s' := Next(s, Submit(t));
    if s.cell.slot.None? {
      NothingReserved(s);
      assert Turns(s'.reserved) == [t];
      assert s.started + [] + [] + [t] == s.started + [t] + [];
    } else {
      assert s.started + Turns(s.reserved) + (s.cell.queue + [t]) == s.started + Turns(s.reserved) + s.cell.queue + [t];
    }
  }

  lemma StartKeepsOrder<T>(s: State<T>, i: nat)
    requires OneDriver(s) && InOrder(s) && i < |s.reserved|
    ensures InOrder(Next(s, Start(i)))
  {
    var s' := Next(s, Start(i));
    hide InPhase, Live;
    assert i == 0 && s'.reserved == [];
    assert Turns(s.reserved) == [s.reserved[0].turn] && Turns(s'.reserved) == [];
    assert s.started + [s.reserved[0].turn] + [] + s.cell.queue == s.started + [s.reserved[0].turn] + s.cell.queue;
  }

  lemma ExitKeepsOrder<T>(s: State<T>, h: Handle)
    requires OneDriver(s) && InOrder(s) && InPhase(s, h, Driving)
    ensures InOrder(Next(s, Exit(h)))
  {
    assert Live(s, h);
    NothingReserved(s);
    hide OneDriver;
    var s' := Next(s, Exit(h));
    if s.cell.queue != [] {
      assert Turns(s'.reserved) == [s.cell.queue[0]];
      assert s.started + [] + s.cell.queue == s.started + [s.cell.queue[0]] + s.cell.queue[1..];
    }
  }

  lemma StepKeepsOrder<T>(s: State<T>, step: Step<T>)
    requires OneDriver(s) && InOrder(s) && Enabled(s, step) && !step.Interfere?
    requires !Overtakes(s, step)
    ensures InOrder(Next(s, step))
  {
    hide OneDriver;
    match step
    case Submit(t) => SubmitKeepsOrder(s, t);
    case Start(i) => StartKeepsOrder(s, i);
    case Exit(h) => ExitKeepsOrder(s, h);
    case _ =>
  }

  lemma StepKeepsFifo<T>(s: State<T>, step: Step<T>)
    requires OneDriver(s) && Fifo(s) && Enabled(s, step) && !step.Interfere?
    requires !Strands(s, step)
    ensures Fifo(Next(s, step))
  {
    hide OneDriver, InOrder;
    StepKeepsOrder(s, step);
  }

  /** A turn that is nobody's twin and overtakes the queue is out of order. */
  lemma OvertakingBreaksOrder<T>(s: State<T>, t: T)
    requires OneDriver(s) && InOrder(s) && Overtakes(s, Submit(t)) && t !in s.submitted
    ensures !InOrder(Next(s, Submit(t)))
  {
    NothingReserved(s);
    hide OneDriver;
    var s' := Next(s, Submit(t));
    assert Turns(s'.reserved) == [t];
    assert s.submitted == s.started + s.cell.queue;
    var n := |s.started|;
    assert s.submitted[n] in s.submitted;
    assert s'.submitted[n] == s.submitted[n];
    assert (s'.started + [t] + s'.cell.queue)[n] == t;
  }

  /** A reserved ticket belongs to the slot's handle, so a vacant slot or another owner leaves none. */
  lemma NothingReserved<T>(s: State<T>)
    requires OneDriver(s)
    requires s.cell.slot.None? || !InPhase(s, s.cell.slot.value, Reserved)
    ensures s.reserved == []
  {
    if s.reserved != [] {
      assert InPhase(s, s.reserved[0].handle, Reserved) && Live(s, s.reserved[0].handle);
    }
  }

  // ----- runs ---------------------------------------------------------------------------------

  ghost predicate Initial<T>(s: State<T>)
  {
    s == State(Cell(None, []), s.next, map[], [], [], [], map[], {}, [])
  }

  ghost predicate Follows<T>(s: State<T>, step: Step<T>, s': State<T>) { Enabled(s, step) && s' == Next(s, step) }

  ghost predicate IsRun<T>(states: seq<State<T>>, steps: seq<Step<T>>)
  {
    && |states| == |steps| + 1
    && Initial(states[0])
    && forall i :: 0 <= i < |steps| ==> Follows(states[i], steps[i], states[i + 1])
  }

  ghost predicate Undisturbed<T>(steps: seq<Step<T>>) { forall i :: 0 <= i < |steps| ==> !steps[i].Interfere? }

  /** No guard of the first `k` steps is dropped ahead of queued turns. */
  ghost predicate NoneStranded<T>(states: seq<State<T>>, steps: seq<Step<T>>, k: nat)
    requires k <= |steps| < |states|
  {
    forall i :: 0 <= i < k ==> !Strands(states[i], steps[i])
  }

  /**
    In every run, whatever interferes with the slot: a submitted turn is queued, reserved for a claimed
    slot, or started, and exactly once; and no handle sees two `Cancelling` emissions, over both cancel
    paths.
   */
  lemma {:induction false} NothingLostNothingTwice<T>(states: seq<State<T>>, steps: seq<Step<T>>, k: nat)
    requires IsRun(states, steps) && k < |states|
    ensures Conserved(states[k]) && GatesAgree(states[k])
  {
    hide Next, Enabled, Conserved, GatesAgree;
    if k == 0 {
      InitialIsGood(states[0]);
    } else {
      NothingLostNothingTwice(states, steps, k - 1);
      assert Follows(states[k - 1], steps[k - 1], states[k]);
      StepConserves(states[k - 1], steps[k - 1]);
      StepKeepsGates(states[k - 1], steps[k - 1]);
    }
  }

  lemma InitialIsGood<T>(s: State<T>)
    requires Initial(s)
    ensures Conserved(s) && GatesAgree(s) && OneDriver(s) && Fifo(s)
  {
  }

  lemma {:induction false} FoundThroughout<T>(states: seq<State<T>>, steps: seq<Step<T>>, c: nat, i: nat, j: nat)
    requires IsRun(states, steps) && i <= j < |states| && c in states[i].loaded
    requires forall n :: i <= n < j ==> !Concerns(steps[n], c)
    ensures c in states[j].loaded && states[j].loaded[c] == states[i].loaded[c]
    decreases j
  {
    hide Next, Enabled, Concerns;
    if i < j {
      FoundThroughout(states, steps, c, i, j - 1);
      assert Follows(states[j - 1], steps[j - 1], states[j]);
      FoundStays(states[j - 1], steps[j - 1], c);
    }
  }

  /** A canceller that finds a turn in the slot and goes on to try its gate leaves that turn's handle emitted. */
  lemma CancelIsEmitted<T>(states: seq<State<T>>, steps: seq<Step<T>>, c: nat, i: nat, j: nat)
    requires IsRun(states, steps) && i < j < |steps| && steps[i] == LoadHandle(c) && steps[j] == TripHandle(c)
    requires states[i].cell.slot.Some? && forall n :: i < n < j ==> !Concerns(steps[n], c)
    ensures var h := states[i].cell.slot.value;
            && h in states[j + 1].emitted
            && states[j + 1].emitted == if h in states[j].emitted then states[j].emitted else states[j].emitted + [h]
  {
    assert Follows(states[i], steps[i], states[i + 1]);
    assert Follows(states[j], steps[j], states[j + 1]);
    FoundThroughout(states, steps, c, i + 1, j);
    NothingLostNothingTwice(states, steps, j);
    FirstCancellerEmits(states[j], c);
  }

  lemma {:induction false} RunKeepsOneDriver<T>(states: seq<State<T>>, steps: seq<Step<T>>, k: nat)
    requires IsRun(states, steps) && Undisturbed(steps) && k < |states|
    ensures OneDriver(states[k])
  {
    hide Next, Enabled, OneDriver;
    if k == 0 {
      InitialIsGood(states[0]);
    } else {
      RunKeepsOneDriver(states, steps, k - 1);
      assert Follows(states[k - 1], steps[k - 1], states[k]);
      StepKeepsOneDriver(states[k - 1], steps[k - 1]);
    }
  }

  /** At most one task is live per session, and the slot holds exactly its handle. */
  lemma SlotHoldsTheOnlyDriver<T>(states: seq<State<T>>, steps: seq<Step<T>>, k: nat, h: Handle, h': Handle)
    requires IsRun(states, steps) && Undisturbed(steps) && k < |states|
    ensures Live(states[k], h) <==> states[k].cell.slot == Some(h)
    ensures Live(states[k], h) && Live(states[k], h') ==> h == h'
  {
    RunKeepsOneDriver(states, steps, k);
  }

  /** So a dropped guard only ever removes its own slot. */
  lemma GuardDropsItsOwnSlot<T>(states: seq<State<T>>, steps: seq<Step<T>>, k: nat)
    requires IsRun(states, steps) && Undisturbed(steps) && k < |steps| && steps[k].AbandonGuard?
    ensures states[k].cell.slot == Some(steps[k].h)
  {
    RunKeepsOneDriver(states, steps, k);
    assert Follows(states[k], steps[k], states[k + 1]);
    assert Live(states[k], steps[k].h);
  }

  lemma {:induction false} RunKeepsFifo<T>(states: seq<State<T>>, steps: seq<Step<T>>, k: nat)
    requires IsRun(states, steps) && Undisturbed(steps) && k <= |steps|
    requires NoneStranded(states, steps, k)
    ensures Fifo(states[k])
  {
    hide Next, Enabled, Fifo;
    if k == 0 {
      InitialIsGood(states[0]);
    } else {
      RunKeepsFifo(states, steps, k - 1);
      RunKeepsOneDriver(states, steps, k - 1);
      assert Follows(states[k - 1], steps[k - 1], states[k]);
      StepKeepsFifo(states[k - 1], steps[k - 1]);
    }
  }

  /**
    Start order is submission order, and a vacant slot has an empty queue, throughout a run if and only
    if no guard of the run is dropped ahead of queued turns.
   */
  lemma FifoIffNoneStranded<T>(states: seq<State<T>>, steps: seq<Step<T>>)
    requires IsRun(states, steps) && Undisturbed(steps)
    ensures (forall k :: 0 <= k < |states| ==> Fifo(states[k])) <==> NoneStranded(states, steps, |steps|)
  {
    hide Fifo, OneDriver, Next, Enabled, Conserved;
    if NoneStranded(states, steps, |steps|) {
      forall k | 0 <= k < |states|
        ensures Fifo(states[k])
      {
        RunKeepsFifo(states, steps, k);
      }
    } else {
      var k :| 0 <= k < |steps| && Strands(states[k], steps[k]);
      assert Follows(states[k], steps[k], states[k + 1]);
      StrandingBreaksFifo(states[k], steps[k]);
      assert !Fifo(states[k + 1]);
    }
  }

  ghost predicate NoneOvertaken<T>(states: seq<State<T>>, steps: seq<Step<T>>, k: nat)
    requires k <= |steps| < |states|
  {
    forall i :: 0 <= i < k ==> !Overtakes(states[i], steps[i])
  }

  lemma {:induction false} RunKeepsOrder<T>(states: seq<State<T>>, steps: seq<Step<T>>, k: nat)
    requires IsRun(states, steps) && Undisturbed(steps) && k <= |steps|
    requires NoneOvertaken(states, steps, k)
    ensures InOrder(states[k])
  {
    hide Next, Enabled, InOrder;
    if k == 0 {
      InitialIsGood(states[0]);
    } else {
      RunKeepsOrder(states, steps, k - 1);
      RunKeepsOneDriver(states, steps, k - 1);
      assert Follows(states[k - 1], steps[k - 1], states[k]);
      StepKeepsOrder(states[k - 1], steps[k - 1]);
    }
  }

  lemma {:induction false} SubmittedGrows<T>(states: seq<State<T>>, steps: seq<Step<T>>, k: nat)
    requires IsRun(states, steps) && k <= |steps|
    ensures states[k].submitted <= states[|steps|].submitted
    decreases |steps| - k
  {
    hide Enabled, Initial;
    if k < |steps| {
      assert Follows(states[k], steps[k], states[k + 1]);
      SubmittedGrows(states, steps, k + 1);
    }
  }

  lemma NewTurn<T>(states: seq<State<T>>, steps: seq<Step<T>>, k: nat)
    requires IsRun(states, steps) && k < |steps| && steps[k].Submit? && Distinct(states[|steps|].submitted)
    ensures steps[k].turn !in states[k].submitted
  {
    SubmittedGrows(states, steps, k + 1);
    assert Follows(states[k], steps[k], states[k + 1]);
    hide IsRun;
    var now, all := states[k].submitted, states[|steps|].submitted;
    assert states[k + 1].submitted == now + [steps[k].turn];
    assert all[|now|] == steps[k].turn;
    forall i | 0 <= i < |now|
      ensures now[i] != steps[k].turn
    {
      assert all[i] == now[i];
    }
  }

  /**
    The order's own condition.  With distinct turns, start order is submission order throughout a run if and
    only if no turn is submitted to a vacant slot while others wait.
   */
  lemma InOrderIffNoneOvertaken<T>(states: seq<State<T>>, steps: seq<Step<T>>)
    requires IsRun(states, steps) && Undisturbed(steps) && Distinct(states[|steps|].submitted)
    ensures (forall k :: 0 <= k < |states| ==> InOrder(states[k])) <==> NoneOvertaken(states, steps, |steps|)
  {
    hide InOrder, OneDriver, Next, Enabled, Conserved, Distinct;
    if NoneOvertaken(states, steps, |steps|) {
      forall k | 0 <= k < |states|
        ensures InOrder(states[k])
      {
        RunKeepsOrder(states, steps, k);
      }
    } else {
      var k :| 0 <= k < |steps| && Overtakes(states[k], steps[k]);
      assert Follows(states[k], steps[k], states[k + 1]);
      RunKeepsOneDriver(states, steps, k);
      NewTurn(states, steps, k);
      if InOrder(states[k]) {
        OvertakingBreaksOrder(states[k], steps[k].turn);
        assert !InOrder(states[k + 1]);
      }
    }
  }

  lemma StrandingBreaksFifo<T>(s: State<T>, step: Step<T>)
    requires Enabled(s, step) && Strands(s, step)
    ensures !Fifo(Next(s, step))
  {
  }

  /** What stranding costs: the next submission is started ahead of the turns left in the queue. */
  lemma StrandedTurnsAreOvertaken<T>(s: State<T>, t: T)
    requires OneDriver(s) && s.cell.slot.None? && s.cell.queue != []
    ensures var s' := Next(s, Submit(t));
            var s'' := Next(s', Start(0));
            && Enabled(s', Start(0))
            && s''.started == s.started + [t]
            && s''.cell.queue == s.cell.queue
  {
    NothingReserved(s);
  }

  lemma Begin<T>() returns (states: seq<State<T>>, steps: seq<Step<T>>)
    ensures IsRun(states, steps) && Undisturbed(steps) && steps == []
    ensures |states| == 1 && states[0] == State(Cell(None, []), 0, map[], [], [], [], map[], {}, [])
  {
    states, steps := [State(Cell(None, []), 0, map[], [], [], [], map[], {}, [])], [];
  }

  lemma Extend<T>(states: seq<State<T>>, steps: seq<Step<T>>, step: Step<T>)
      returns (states': seq<State<T>>, steps': seq<Step<T>>)
    requires IsRun(states, steps) && Undisturbed(steps) && |states| == |steps| + 1
    requires Enabled(states[|steps|], step) && !step.Interfere?
    ensures IsRun(states', steps') && Undisturbed(steps') && steps' == steps + [step]
    ensures |states'| == |steps'| + 1 && states'[|steps'|] == Next(states[|steps|], step)
  {
    hide Next, Enabled, Initial;
    states', steps' := states + [Next(states[|steps|], step)], steps + [step];
    forall i | 0 <= i < |steps'|
      ensures Follows(states'[i], steps'[i], states'[i + 1])
    {
      assert states'[i] == states[i];
      if i < |steps| { assert Follows(states[i], steps[i], states[i + 1]) && states'[i + 1] == states[i + 1]; }
    }
  }

  /** A run into it: a claim is abandoned with `a` queued behind it, and `b`, submitted later, starts first. */
  lemma OvertakingIsReachable<T>(a: T, b: T) returns (states: seq<State<T>>, steps: seq<Step<T>>)
    ensures IsRun(states, steps) && Undisturbed(steps)
    ensures steps == [Claim, Submit(a), AbandonGuard(0), Submit(b), Start(0)]
    ensures var s := states[|steps|]; s.submitted == [a, b] && s.started == [b] && s.cell.queue == [a]
  {
    hide IsRun, Undisturbed;
    states, steps := StrandingIsReachable(a);
    states, steps := Extend(states, steps, Submit(b));
    assert states[|steps|].reserved == [Ticket(1, b)] && states[|steps|].submitted == [a, b];
    states, steps := Extend(states, steps, Start(0));
  }

  lemma StrandingIsReachable<T>(a: T) returns (states: seq<State<T>>, steps: seq<Step<T>>)
    ensures IsRun(states, steps) && Undisturbed(steps) && steps == [Claim, Submit(a), AbandonGuard(0)]
    ensures |states| == 4
    ensures var s := states[3];
            s.cell == Cell(None, [a]) && s.next == 1 && s.reserved == [] && s.submitted == [a] && s.started == []
  {
    hide IsRun, Undisturbed;
    states, steps := Begin();
    states, steps := Extend(states, steps, Claim);
    assert states[|steps|].cell == Cell(Some(0), []) && InPhase(states[|steps|], 0, Guarded);
    states, steps := Extend(states, steps, Submit(a));
    assert states[|steps|].cell == Cell(Some(0), [a]) && states[|steps|].submitted == [a];
    states, steps := Extend(states, steps, AbandonGuard(0));
  }

  // ----- the queue is worked off --------------------------------------------------------------

  ghost predicate Reaches<T>(s: State<T>, steps: seq<Step<T>>, r: State<T>)
    decreases |steps|
  {
    if steps == [] then r == s else Enabled(s, steps[0]) && Reaches(Next(s, steps[0]), steps[1..], r)
  }

  /** The driver exits, the head of the queue gets its slot and starts. */
  lemma HandsOn<T>(s: State<T>, h: Handle)
    requires OneDriver(s) && InPhase(s, h, Driving) && s.cell.queue != []
    ensures var s' := Next(s, Exit(h));
            && Enabled(s', Start(0))
            && var r := Next(s', Start(0));
            && OneDriver(r) && InPhase(r, s.next, Driving)
            && r.started == s.started + [s.cell.queue[0]] && r.cell.queue == s.cell.queue[1..]
  {
    DriverAt(s, h);
    NothingReserved(s);
    ExitKeepsOneDriver(s, h);
    var s' := Next(s, Exit(h));
    assert s'.reserved == [Ticket(s.next, s.cell.queue[0])];
    StartKeepsOneDriver(s', 0);
    hide OneDriver, Live;
  }

  /** From any driven session, exits and starts alone start the whole queue, in order, two steps a turn. */
  lemma {:induction false} QueueIsWorkedOff<T>(s: State<T>, h: Handle) returns (steps: seq<Step<T>>, r: State<T>)
    requires OneDriver(s) && InPhase(s, h, Driving)
    ensures Reaches(s, steps, r) && |steps| == 2 * |s.cell.queue|
    ensures forall i :: 0 <= i < |steps| ==> steps[i].Exit? || steps[i].Start?
    ensures r.started == s.started + s.cell.queue && r.cell.queue == []
    decreases |s.cell.queue|
  {
    hide OneDriver, InPhase, Next, Enabled;
    CanExit(s, h);
    if s.cell.queue == [] {
      steps, r := [], s;
      assert s.started + [] == s.started;
    } else {
      HandsOn(s, h);
      var s' := Next(s, Exit(h));
      var on := Next(s', Start(0));
      var later;
      later, r := QueueIsWorkedOff(on, s.next);
      steps := [Exit(h), Start(0)] + later;
      assert steps[1..] == [Start(0)] + later && steps[1..][1..] == later;
      assert s.started + [s.cell.queue[0]] + s.cell.queue[1..] == s.started + s.cell.queue;
    }
  }

  lemma CanExit<T>(s: State<T>, h: Handle)
    requires InPhase(s, h, Driving)
    ensures Enabled(s, Exit(h))
  {
  }

  // ----- the shared maps ----------------------------------------------------------------------

  /** The two maps of the application state, for every session at once. */
  class TurnTable<Sid(==,!new), T> {
    var active: map<Sid, Handle>
    var pending: map<Sid, seq<T>>
    var next: Handle

    function CellOf(sid: Sid): Cell<T>
      reads this
    {
      Cell(if sid in active then Some(active[sid]) else None, if sid in pending then pending[sid] else [])
    }

    /** Handles are handed out once: no two sessions hold the same one, and the next is nobody's. */
    ghost predicate Fresh()
      reads this
    {
      && (forall sid :: sid in active ==> active[sid] < next)
      && (forall a, b :: a in active && b in active && a != b ==> active[a] != active[b])
    }

    constructor ()
      ensures Fresh() && forall sid :: CellOf(sid) == Cell(None, [])
    {
      active, pending, next := map[], map[], 0;
    }

    method TryClaim(sid: Sid) returns (r: Option<Handle>)
      requires Fresh()
      modifies this
      ensures Fresh()
      ensures r == (if old(CellOf(sid)).slot.None? then Some(old(next)) else None)
      ensures r.Some? ==> forall other :: old(CellOf(other)).slot != r
      ensures CellOf(sid) == ClaimCell(old(CellOf(sid)), old(next))
      ensures forall other :: other != sid ==> CellOf(other) == old(CellOf(other))
    {
      var handle := next;
      if sid in active {
        return None;
      }
      next := next + 1;
      active := active[sid := handle];
      return Some(handle);
    }

    method DropGuard(sid: Sid, committed: bool)
      requires Fresh()
      modifies this`active
      ensures Fresh()
      ensures CellOf(sid) == if committed then old(CellOf(sid)) else DropCell(old(CellOf(sid)))
      ensures forall other :: other != sid ==> CellOf(other) == old(CellOf(other))
    {
      if !committed {
        active := active - {sid};
      }
    }

    /** Returns the handle of a turn to start now, or `None` when the turn was queued or refused. */
    method EnqueueOrStart(sid: Sid, turn: T, isUser: bool) returns (r: Option<Handle>)
      requires Fresh()
      modifies this
      ensures Fresh()
      ensures isUser ==> r.None? && CellOf(sid) == old(CellOf(sid))
      ensures !isUser ==> CellOf(sid) == SubmitCell(old(CellOf(sid)), turn, old(next))
      ensures !isUser ==> r == (if old(CellOf(sid)).slot.None? then Some(old(next)) else None)
      ensures r.Some? ==> forall other :: old(CellOf(other)).slot != r
      ensures forall other :: other != sid ==> CellOf(other) == old(CellOf(other))
    {
      if isUser {
        return None;
      }
      if sid in active {
        pending := pending[sid := (if sid in pending then pending[sid] else []) + [turn]];
        return None;
      }
      var handle := next;
      next := next + 1;
      active := active[sid := handle];
      return Some(handle);
    }

    /** The finalizer of the task that holds `own`. */
    method DrainNext(sid: Sid, own: Handle) returns (r: Option<Ticket<T>>)
      requires Fresh()
      modifies this
      ensures Fresh()
      ensures CellOf(sid) == DrainCell(old(CellOf(sid)), own, old(next))
      ensures r == (match Drained(old(CellOf(sid)), own) case Some(t) => Some(Ticket(old(next), t)) case None => None)
      ensures r.Some? ==> forall other :: old(CellOf(other)).slot != Some(r.value.handle)
      ensures forall other :: other != sid ==> CellOf(other) == old(CellOf(other))
    {
      if sid !in active || active[sid] != own {
        return None;
      }
      if sid in pending && pending[sid] != [] {
        var turn := pending[sid][0];
        pending := pending[sid := pending[sid][1..]];
        var handle := next;
        next := next + 1;
        active := active[sid := handle];
        return Some(Ticket(handle, turn));
      }
      active := active - {sid};
      return None;
    }
  }
}
