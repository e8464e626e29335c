/**
  The client's side of the event stream: one `EventSource` at a time, a backoff timer between two of them,
  and the cursor sent as Last-Event-ID.
 */
module SseClient {
  import opened Common

  const BACKOFF_MS: seq<nat> := [250, 500, 1000, 2000, 5000]

  /** What the browser API and the owner call back with. */
  datatype Signal =
    | Opened
    | Failed                                        // an error, or the server's `lagged` frame
    | Frame(id: Option<int>, wellFormed: bool)      // `id`: the frame's id where it has a numeric one
    | TimerFires
    | Close

  /** `asked`: the Last-Event-ID of each connection; `handled`: the frames given to `onEvent`; `delays`: the waits. */
  datatype Client = Client(closed: bool, live: bool, timer: bool, attempt: nat, cursor: Option<int>,
                           asked: seq<Option<int>>, handled: seq<Option<int>>, delays: seq<nat>)

  const START := Client(false, true, false, 0, None, [None], [], [])

  /** Callbacks come from the source or the timer that is there. */
  predicate Possible(c: Client, s: Signal)
  {
    match s
    case Opened => c.live
    case Failed => c.live
    case Frame(_, _) => c.live
    case TimerFires => c.timer
    case Close => true
  }

  function Delay(attempt: nat): nat { BACKOFF_MS[if attempt < |BACKOFF_MS| then attempt else |BACKOFF_MS| - 1] }

  function Next(c: Client, s: Signal): Client
    requires Possible(c, s)
  {
    match s
    case Opened => c.(attempt := 0)
    case Failed =>
      if c.closed then c
      else if c.timer then c.(live := false)
      else c.(live := false, timer := true, attempt := c.attempt + 1, delays := c.delays + [Delay(c.attempt)])
    case Frame(id, ok) =>
      if !ok then c
      else c.(cursor := if id.Some? then id else c.cursor, handled := c.handled + [id])
    case TimerFires =>
      if c.closed then c.(timer := false)
      else c.(timer := false, live := true, asked := c.asked + [c.cursor])
    case Close => c.(closed := true, timer := false, live := false)
  }

  class SseConnection {
    var attempt: nat
    var lastEventId: Option<int>
    var source: bool
    var closed: bool
    var backoffTimer: bool
    ghost var asked: seq<Option<int>>
    ghost var handled: seq<Option<int>>
    ghost var delays: seq<nat>

    ghost function Value(): Client
      reads this
    {
      Client(closed, source, backoffTimer, attempt, lastEventId, asked, handled, delays)
    }

    constructor ()
      ensures Value() == START
    {
      attempt, lastEventId, source, closed, backoffTimer := 0, None, true, false, false;
      asked, handled, delays := [None], [], [];
    }

    method OnOpen()
      requires source
      modifies this
      ensures Value() == Next(old(Value()), Opened)
    {
      attempt := 0;
    }

    method Reconnect() returns (delay: Option<nat>)
      requires source
      modifies this
      ensures Value() == Next(old(Value()), Failed)
      ensures delay.Some? ==> delays == old(delays) + [delay.value]
    {
      if closed { return None; }
      source := false;
      if backoffTimer { return None; }
      delay := Some(Delay(attempt));
      attempt := attempt + 1;
      backoffTimer := true;
      delays := delays + [delay.value];
    }

    method OnFrame(id: Option<int>, wellFormed: bool)
      requires source
      modifies this
      ensures Value() == Next(old(Value()), Frame(id, wellFormed))
    {
      if wellFormed {
        if id.Some? { lastEventId := id; }
        handled := handled + [id];
      }
    }

    method OnTimer()
      requires backoffTimer
      modifies this
      ensures Value() == Next(old(Value()), TimerFires)
    {
      backoffTimer := false;
      if !closed {
        source := true;
        asked := asked + [lastEventId];
      }
    }

    method Shut()
      modifies this
      ensures Value() == Next(old(Value()), Close)
    {
      closed, backoffTimer, source := true, false, false;
    }
  }

  // ----- every run ----------------------------------------------------------------------------

  function LastId(ids: seq<Option<int>>): Option<int>
  {
    if ids == [] then None
    else if ids[|ids| - 1].Some? then ids[|ids| - 1]
    else LastId(ids[..|ids| - 1])
  }

  /** Until closed there is a source or a timer, never both and never neither; the cursor is the last id handled. */
  ghost predicate Inv(c: Client)
  {
    && (c.closed ==> !c.live && !c.timer)
    && (!c.closed ==> c.live != c.timer)
    && c.cursor == LastId(c.handled)
    && |c.asked| + (if c.timer then 1 else 0) <= |c.delays| + 1
    && (!c.closed ==> |c.asked| + (if c.timer then 1 else 0) == |c.delays| + 1)
    && (c.timer ==> c.attempt > 0)
  }

  lemma StepKeepsInv(c: Client, s: Signal)
    requires Inv(c) && Possible(c, s)
    ensures Inv(Next(c, s))
  {
    if s.Frame? { assert (c.handled + [s.id])[..|c.handled|] == c.handled; }
  }

  ghost predicate Reaches(c: Client, signals: seq<Signal>, d: Client)
    decreases |signals|
  {
    if signals == [] then d == c else Possible(c, signals[0]) && Reaches(Next(c, signals[0]), signals[1..], d)
  }

  lemma {:induction false} RunKeepsInv(c: Client, signals: seq<Signal>, d: Client)
    requires Inv(c) && Reaches(c, signals, d)
    ensures Inv(d)
    decreases |signals|
  {
    hide Inv;
    if signals != [] {
      StepKeepsInv(c, signals[0]);
      RunKeepsInv(Next(c, signals[0]), signals[1..], d);
    }
  }

  /**
    In every run of callbacks: one lifeline until closed, a cursor that is the last numeric id handled, and
    one connection per wait.
   */
  lemma OneLifeline(signals: seq<Signal>, c: Client)
    requires Reaches(START, signals, c)
    ensures !c.closed ==> c.live != c.timer
    ensures c.cursor == LastId(c.handled)
    ensures !c.closed ==> |c.asked| == |c.delays| + (if c.live then 1 else 0)
  {
    RunKeepsInv(START, signals, c);
  }

  /** A reconnect asks for what follows the last numeric id that was handled. */
  lemma ReconnectAsksFromCursor(signals: seq<Signal>, c: Client)
    requires Reaches(START, signals, c) && c.timer
    ensures var d := Next(c, TimerFires); d.live && d.asked == c.asked + [LastId(c.handled)]
  {
    RunKeepsInv(START, signals, c);
  }

  /** After `close` nothing is handled and nothing is asked for again. */
  lemma {:induction false} ClosedIsFinal(c: Client, signals: seq<Signal>, d: Client)
    requires Inv(c) && c.closed && Reaches(c, signals, d)
    ensures d == c
    decreases |signals|
  {
    if signals != [] {
      assert signals[0].Close?;
      ClosedIsFinal(Next(c, signals[0]), signals[1..], d);
    }
  }

  // ----- told from the callbacks alone ----------------------------------------------------------

  /** How often the stream has failed since it last opened. */
  function FailuresSince(signals: seq<Signal>): nat
  {
    if signals == [] then 0
    else
      var front, last := signals[..|signals| - 1], signals[|signals| - 1];
      if last.Opened? then 0 else FailuresSince(front) + if last.Failed? then 1 else 0
  }

  /** The wait after a failure that follows `k` others. */
  function WaitMs(k: nat): nat
  {
    if k == 0 then 250 else if k == 1 then 500 else if k == 2 then 1000 else if k == 3 then 2000 else 5000
  }

  function Waits(signals: seq<Signal>): seq<nat>
  {
    if signals == [] then []
    else
      var front, last := signals[..|signals| - 1], signals[|signals| - 1];
      Waits(front) + if last.Failed? then [WaitMs(FailuresSince(front))] else []
  }

  /** The ids of the well-formed frames, in order. */
  function FramesIn(signals: seq<Signal>): seq<Option<int>>
  {
    if signals == [] then []
    else
      var front, last := signals[..|signals| - 1], signals[|signals| - 1];
      FramesIn(front) + if last.Frame? && last.wellFormed then [last.id] else []
  }

  lemma {:induction false} ReachesThrough(c: Client, front: seq<Signal>, s: Signal, d: Client) returns (mid: Client)
    requires Reaches(c, front + [s], d)
    ensures Reaches(c, front, mid) && Possible(mid, s) && d == Next(mid, s)
    decreases |front|
  {
    hide Next, Possible;
    if front == [] {
      assert front + [s] == [s] && [s][1..] == [];
      mid := c;
    } else {
      assert (front + [s])[1..] == front[1..] + [s] && (front + [s])[0] == front[0];
      mid := ReachesThrough(Next(c, front[0]), front[1..], s, d);
    }
  }

  lemma DelayIs(k: nat)
    ensures Delay(k) == WaitMs(k)
  {
  }

  /**
    In every run the waits grow with the failures since the stream last opened, which starts them over, and
    the frames handled are the well-formed ones.
   */
  lemma {:induction false} WaitsFollowFailures(signals: seq<Signal>, c: Client)
    requires Reaches(START, signals, c)
    ensures c.delays == Waits(signals) && c.attempt == FailuresSince(signals) && c.handled == FramesIn(signals)
  {
    hide Reaches, Delay, WaitMs;
    if signals == [] {
      StartStays(c);
    } else {
      var front, last := signals[..|signals| - 1], signals[|signals| - 1];
      assert signals == front + [last];
      var mid := ReachesThrough(START, front, last, c);
      WaitsFollowFailures(front, mid);
      RunKeepsInv(START, front, mid);
      DelayIs(mid.attempt);
    }
  }

  lemma StartStays(c: Client)
    requires Reaches(START, [], c)
    ensures c == START
  {
  }
}
