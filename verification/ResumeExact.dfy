/**
  When a resuming client is given an event twice, exactly; and how it catches up.
 */
module ResumeExact {
  import opened Common
  import opened EventBus
  import opened ResumeClient

  // ----- the one step that repeats ------------------------------------------------------------

  /** The route is about to forward, after an empty replay, the very frame the client said it had. */
  predicate Repeats<V>(s: System<V>, m: Move<V>)
  {
    m.TakeLive? && Can(s, m) && s.conn.highWater.None? && s.conn.asked == Some(s.bus.sent[s.conn.pos])
  }

  ghost predicate NoneRepeated<V>(states: seq<System<V>>, moves: seq<Move<V>>, k: nat)
    requires k <= |moves| < |states|
  {
    forall i :: 0 <= i < k ==> !Repeats(states[i], moves[i])
  }

  /** Nothing has moved the cursor since an empty replay. */
  predicate Exposed<V>(s: System<V>)
  {
    s.conn.Streaming? && s.conn.highWater.None? && s.cursor.Some? && s.cursor == s.conn.asked
  }

  /** Except where exposed, live frames are past everything before them; and the client has what it said it had. */
  predicate Guarded<V>(s: System<V>)
  {
    && (s.conn.Streaming? && !Exposed(s) ==> LiveFits(true, s))
    && (s.conn.Streaming? && s.conn.asked.Some? ==> s.conn.asked.value in s.delivered)
  }

  lemma GrowthKeepsStrict<V>(wants: V -> bool, s: System<V>, b': Bus<V>)
    requires StreamInv(wants, false, s) && LiveFits(true, s) && Grows(s.bus, b')
    ensures LiveFits(true, s.(bus := b'))
  {
    hide Complete, NothingMissed, Wanted;
    assert s.cursor.Some? ==> s.cursor.value <= |s.bus.rows|;
    assert Top(s.conn, s.cursor).Some? ==> Top(s.conn, s.cursor).value <= |s.bus.rows|;
    hide Inv, ReplayFits, Ordered;
    assert forall k :: 0 <= k < |s.bus.sent| ==> b'.sent[k] == s.bus.sent[k];
  }

  lemma BusMoveKeepsGuard<V>(wants: V -> bool, s: System<V>, step: Step<V>)
    requires StreamInv(wants, false, s) && Guarded(s) && Enabled(s.bus, step)
    ensures Guarded(Do(wants, s, BusMove(step)))
  {
    BusGrows(s.bus, step);
    hide Next, StreamInv, LiveFits;
    if s.conn.Streaming? && !Exposed(s) { GrowthKeepsStrict(wants, s, Next(s.bus, step)); }
  }

  /** A replay that is not empty sets a mark; all that is live is behind the mark or past it. */
  lemma ReplayGuards<V>(wants: V -> bool, s: System<V>)
    requires StreamInv(wants, false, s) && s.conn.Subscribed?
    ensures Guarded(Do(wants, s, Replay))
  {
    var r := ReplayRows(wants, s);
    assert s.cursor == LastOf(s.delivered) && LiveFits(false, s);
    hide Complete, NothingMissed, ReplayFits, Wanted, Ordered, Inv, Do, StreamInv;
    var s' := s.(conn := Streaming(r, LastOf(r), s.conn.pos, s.cursor));
    assert s.cursor.Some? ==> s.cursor.value in s.delivered;
    if r != [] { assert LiveFits(true, s'); }
  }

  lemma TakeReplayedKeepsGuard<V>(wants: V -> bool, s: System<V>)
    requires StreamInv(wants, false, s) && Guarded(s) && Can(s, TakeReplayed)
    ensures Guarded(Do(wants, s, TakeReplayed))
  {
    var rest := s.conn.replay[1..];
    assert s.conn.highWater.Some?;
    assert LastOf(s.conn.replay) == if rest != [] then LastOf(rest) else Some(s.conn.replay[0]);
    hide Complete, Ordered, NothingMissed, Inv, Wanted, ReplayFits, StreamInv;
    assert LiveFits(true, s);
  }

  lemma TakeLiveKeepsGuard<V>(wants: V -> bool, s: System<V>)
    requires StreamInv(wants, false, s) && Guarded(s) && Can(s, TakeLive)
    ensures Guarded(Do(wants, s, TakeLive))
  {
    var id := s.bus.sent[s.conn.pos];
    assert forall k :: s.conn.pos < k < |s.bus.sent| ==> s.bus.sent[k] > id;
    assert s.bus.holder.Committed? ==> s.bus.holder.id > id;
    hide Complete, Ordered, NothingMissed, Inv, Wanted, ReplayFits, StreamInv;
    if Skips(s.conn.highWater, id) || !Wanted(wants, s.bus.rows, id) {
      assert !Exposed(s) ==> LiveFits(true, Do(wants, s, TakeLive));
    } else {
      assert LiveFits(true, Do(wants, s, TakeLive));
    }
  }

  lemma MoveKeepsGuard<V>(wants: V -> bool, s: System<V>, m: Move<V>)
    requires StreamInv(wants, false, s) && Guarded(s) && Can(s, m)
    ensures Guarded(Do(wants, s, m))
  {
    match m
    case BusMove(step) => BusMoveKeepsGuard(wants, s, step);
    case Replay => ReplayGuards(wants, s);
    case TakeReplayed => TakeReplayedKeepsGuard(wants, s);
    case TakeLive => TakeLiveKeepsGuard(wants, s);
    case _ =>
  }

  lemma {:induction false} SessionIsGuarded<V>(wants: V -> bool, states: seq<System<V>>, moves: seq<Move<V>>, k: nat)
    requires IsSession(wants, states, moves) && k < |states|
    ensures StreamInv(wants, false, states[k]) && Guarded(states[k])
  {
    SessionKeepsInv(wants, false, states, moves, k);
    if k > 0 {
      SessionIsGuarded(wants, states, moves, k - 1);
      assert Moves(wants, states[k - 1], moves[k - 1], states[k]);
      hide StreamInv, OnlyWanted, Guarded, Do, Can;
      MoveKeepsGuard(wants, states[k - 1], moves[k - 1]);
    }
  }

  // ----- at most once, exactly ----------------------------------------------------------------

  lemma AppendStrict(ids: seq<int>, id: int)
    requires StrictlyIncreasing(ids) && (ids != [] ==> ids[|ids| - 1] < id)
    ensures StrictlyIncreasing(ids + [id])
  {
  }

  /** A live frame that is not the one the client asked from is past the cursor. */
  lemma LiveIsPast<V>(wants: V -> bool, s: System<V>)
    requires StreamInv(wants, false, s) && Guarded(s) && Can(s, TakeLive) && !Repeats(s, TakeLive)
    requires !Skips(s.conn.highWater, s.bus.sent[s.conn.pos])
    ensures s.cursor.Some? ==> s.cursor.value < s.bus.sent[s.conn.pos]
  {
    hide Complete, Ordered, NothingMissed, Inv, Wanted, ReplayFits;
    assert FrameFits(false, s.conn, s.cursor, s.bus.sent[s.conn.pos]);
    if !Exposed(s) { assert FrameFits(true, s.conn, s.cursor, s.bus.sent[s.conn.pos]); }
  }

  /** A step that does not repeat keeps the ids increasing. */
  lemma StaysIncreasing<V>(wants: V -> bool, s: System<V>, m: Move<V>)
    requires StreamInv(wants, false, s) && Guarded(s) && Can(s, m) && !Repeats(s, m) && StrictlyIncreasing(s.delivered)
    ensures StrictlyIncreasing(Do(wants, s, m).delivered)
  {
    assert s.cursor == LastOf(s.delivered);
    if m.TakeReplayed? {
      assert s.cursor.Some? && s.cursor.value < s.conn.replay[0];
      hide StreamInv, Guarded, StrictlyIncreasing;
      AppendStrict(s.delivered, s.conn.replay[0]);
    } else if m.TakeLive? && !Skips(s.conn.highWater, s.bus.sent[s.conn.pos]) {
      LiveIsPast(wants, s);
      hide StreamInv, Guarded, StrictlyIncreasing, Wanted;
      AppendStrict(s.delivered, s.bus.sent[s.conn.pos]);
    }
  }

  /** A step that repeats does hand out an id the client has. */
  lemma RepeatingRepeats<V>(wants: V -> bool, s: System<V>, m: Move<V>)
    requires ClientInv(wants, false, s) && Guarded(s) && Repeats(s, m)
    ensures !StrictlyIncreasing(Do(wants, s, m).delivered)
  {
    var id := s.bus.sent[s.conn.pos];
    var i :| 0 <= i < |s.delivered| && s.delivered[i] == id;
    assert Wanted(wants, s.bus.rows, s.delivered[i]);
    hide StreamInv, OnlyWanted, Guarded;
    var d := Do(wants, s, m).delivered;
    assert d == s.delivered + [id] && d[i] == d[|s.delivered|];
  }

  lemma {:induction false} DeliveredGrows<V>(wants: V -> bool, states: seq<System<V>>, moves: seq<Move<V>>, i: nat,
                                             k: nat)
    requires IsSession(wants, states, moves) && i <= k < |states|
    ensures states[i].delivered <= states[k].delivered
    decreases k - i
  {
    if i < k {
      DeliveredGrows(wants, states, moves, i, k - 1);
      assert Moves(wants, states[k - 1], moves[k - 1], states[k]);
      hide Next, Wanted, RowsSince;
    }
  }

  lemma {:induction false} NoneRepeatedIncreases<V>(wants: V -> bool, states: seq<System<V>>, moves: seq<Move<V>>,
                                                    k: nat)
    requires IsSession(wants, states, moves) && k <= |moves| && NoneRepeated(states, moves, k)
    ensures StrictlyIncreasing(states[k].delivered)
  {
    if k > 0 {
      NoneRepeatedIncreases(wants, states, moves, k - 1);
      SessionIsGuarded(wants, states, moves, k - 1);
      assert Moves(wants, states[k - 1], moves[k - 1], states[k]);
      hide StreamInv, Guarded, Do, Can, StrictlyIncreasing, Repeats;
      StaysIncreasing(wants, states[k - 1], moves[k - 1]);
    }
  }

  /**
    In every run, race or not, ids are delivered in strictly increasing order, none twice, if and only if
    the route never forwards, after an empty replay, a live frame with the id the connection asked from.
   */
  lemma AtMostOnceIff<V>(wants: V -> bool, states: seq<System<V>>, moves: seq<Move<V>>, k: nat)
    requires IsSession(wants, states, moves) && k <= |moves|
    ensures StrictlyIncreasing(states[k].delivered) <==> NoneRepeated(states, moves, k)
  {
    if NoneRepeated(states, moves, k) {
      NoneRepeatedIncreases(wants, states, moves, k);
    } else {
      var i :| 0 <= i < k && Repeats(states[i], moves[i]);
      SessionIsGuarded(wants, states, moves, i);
      SessionKeepsInv(wants, false, states, moves, i);
      assert Moves(wants, states[i], moves[i], states[i + 1]);
      hide ClientInv, Guarded, Do, Can, Repeats;
      RepeatingRepeats(wants, states[i], moves[i]);
      DeliveredGrows(wants, states, moves, i + 1, k);
      PrefixIncreases(states[i + 1].delivered, states[k].delivered);
    }
  }

  lemma PrefixIncreases(xs: seq<int>, ys: seq<int>)
    requires xs <= ys
    ensures StrictlyIncreasing(ys) ==> StrictlyIncreasing(xs)
  {
  }

  /** A run that does not race its cursor never repeats. */
  lemma RaceFreeNeverRepeats<V>(wants: V -> bool, states: seq<System<V>>, moves: seq<Move<V>>)
    requires IsSession(wants, states, moves) && RaceFree(states, moves)
    ensures NoneRepeated(states, moves, |moves|)
  {
    hide Moves, RaceFree, NoneRepeated, StrictlyIncreasing;
    AtMostOnce(wants, states, moves, |moves|);
    AtMostOnceIff(wants, states, moves, |moves|);
  }

  // ----- exactly once -------------------------------------------------------------------------

  lemma {:induction false} CountOnce(ids: seq<int>, x: int)
    requires StrictlyIncreasing(ids)
    ensures multiset(ids)[x] == if x in ids then 1 else 0
  {
    if ids != [] {
      var front, last := ids[..|ids| - 1], ids[|ids| - 1];
      CountOnce(front, x);
      assert ids == front + [last];
    }
  }

  /**
    Exactly once.  In every run in which nothing was repeated, a caught-up client has every wanted broadcast
    exactly once if it came after the connection the client's history begins with, and not at all if before.
   */
  lemma ExactlyOnce<V>(wants: V -> bool, states: seq<System<V>>, moves: seq<Move<V>>, k: nat, j: nat)
    requires IsSession(wants, states, moves) && k <= |moves| && NoneRepeated(states, moves, k) && CaughtUp(states[k])
    requires j < |states[k].bus.sent| && Wanted(wants, states[k].bus.rows, states[k].bus.sent[j])
    ensures multiset(states[k].delivered)[states[k].bus.sent[j]] == if j >= Anchor(states, moves, k) then 1 else 0
  {
    hide Moves, NoneRepeated, Wanted, Anchor, StrictlyIncreasing;
    HasAllFromAnchor(wants, states, moves, k, j);
    AtMostOnceIff(wants, states, moves, k);
    CountOnce(states[k].delivered, states[k].bus.sent[j]);
  }

  // ----- catching up --------------------------------------------------------------------------

  /** What the connection still has to offer. */
  function Backlog<V>(s: System<V>): int
    requires s.conn.Streaming?
  {
    |s.conn.replay| + |s.bus.sent| - s.conn.pos
  }

  /** The receiver has not lagged. */
  predicate InReach<V>(s: System<V>)
  {
    s.conn.Streaming? && s.conn.pos <= |s.bus.sent| <= s.conn.pos + BROADCAST_CAPACITY
  }

  ghost predicate Takes<V>(wants: V -> bool, s: System<V>, moves: seq<Move<V>>, r: System<V>)
    decreases |moves|
  {
    if moves == [] then r == s
    else
      && (moves[0].TakeReplayed? || moves[0].TakeLive?)
      && Can(s, moves[0]) && Takes(wants, Do(wants, s, moves[0]), moves[1..], r)
  }

  lemma OneTake<V>(wants: V -> bool, s: System<V>, m: Move<V>)
    requires InReach(s) && (m.TakeReplayed? || m.TakeLive?) && Can(s, m)
    ensures var r := Do(wants, s, m); InReach(r) && r.bus == s.bus && Backlog(r) == Backlog(s) - 1
  {
  }

  /** Each frame taken is one less, so that no order of taking them takes longer. */
  lemma {:induction false} TakesCount<V>(wants: V -> bool, s: System<V>, moves: seq<Move<V>>, r: System<V>)
    requires InReach(s) && Takes(wants, s, moves, r)
    ensures InReach(r) && Backlog(r) + |moves| == Backlog(s) && (CaughtUp(r) <==> |moves| == Backlog(s))
    decreases |moves|
  {
    if moves != [] {
      OneTake(wants, s, moves[0]);
      hide Do, Can;
      TakesCount(wants, Do(wants, s, moves[0]), moves[1..], r);
    }
  }

  /**
    From any connection that has not lagged, taking frames leads to a caught-up client, in exactly as many
    steps as there are frames.
   */
  lemma {:induction false} CatchesUp<V>(wants: V -> bool, s: System<V>) returns (moves: seq<Move<V>>, r: System<V>)
    requires InReach(s)
    ensures Takes(wants, s, moves, r) && CaughtUp(r) && |moves| == Backlog(s)
    decreases Backlog(s)
  {
    if Backlog(s) == 0 {
      moves, r := [], s;
    } else {
      var m := if s.conn.replay != [] then TakeReplayed else TakeLive;
      OneTake(wants, s, m);
      var later, end := CatchesUp(wants, Do(wants, s, m));
      moves, r := [m] + later, end;
      assert moves[1..] == later;
    }
  }
}
