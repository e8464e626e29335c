/**
  The resume protocol between the event route and the terminal client: subscribe, replay the rows above
  the client's cursor, then forward live frames above the replay's high-water mark; on an error, a lag
  signal or a server restart, reconnect with the last id seen.
 */
module ResumeClient {
  import opened Common
  import opened EventBus

  /** Capacity of the broadcast channel; a receiver that falls further behind is told it lagged. */
  const BROADCAST_CAPACITY := 1024

  /** One connection: `pos` is the receiver's place in the broadcast history, `asked` its Last-Event-ID. */
  datatype Conn =
    | Down
    | Subscribed(pos: nat)
    | Streaming(replay: seq<int>, highWater: Option<int>, pos: nat, asked: Option<int>)

  /** `delivered` lists the ids handed to `onEvent`; `cursor` is the client's `lastEventId`. */
  datatype System<V> = System(bus: Bus<V>, conn: Conn, cursor: Option<int>, delivered: seq<int>)

  datatype Move<V> =
    | BusMove(step: Step<V>)
    | Connect        // the server subscribes a fresh receiver for the client
    | Replay         // ... and then reads the rows above Last-Event-ID
    | TakeReplayed   // the client handles the next replayed frame
    | TakeLive       // the server forwards, or drops as already replayed, the next live frame
    | Lagged         // the server's receiver lost frames and says so; the client reconnects
    | Disconnect     // the network fails, the replay query is refused, ...

  // ----- replay -------------------------------------------------------------------------------

  /** `list_since`: the ids above `after` of rows the session filter wants, in id order. */
  function RowsSince<V>(wants: V -> bool, rows: seq<Row<V>>, after: int): seq<int>
  {
    if rows == [] then []
    else
      var front := RowsSince(wants, rows[..|rows| - 1], after);
      var last := rows[|rows| - 1];
      if last.id > after && wants(last.event) then front + [last.id] else front
  }

  predicate Wanted<V>(wants: V -> bool, rows: seq<Row<V>>, id: int)
  {
    1 <= id <= |rows| && wants(rows[id - 1].event)
  }

  lemma {:induction false} RowsSinceIs<V>(wants: V -> bool, rows: seq<Row<V>>, after: int)
    requires Contiguous(rows)
    ensures var r := RowsSince(wants, rows, after);
            && StrictlyIncreasing(r)
            && forall id :: id in r <==> id > after && Wanted(wants, rows, id)
  {
    if rows != [] {
      var front := rows[..|rows| - 1];
      RowsSinceIs(wants, front, after);
      var f := RowsSince(wants, front, after);
      forall i | 0 <= i < |f|
        ensures f[i] < |rows|
      {
        assert f[i] in f;
      }
      forall id
        ensures id in RowsSince(wants, rows, after) <==> id > after && Wanted(wants, rows, id)
      {
        assert id < |rows| ==> (Wanted(wants, front, id) <==> Wanted(wants, rows, id));
      }
    }
  }

  function LastOf(ids: seq<int>): Option<int> { if ids == [] then None else Some(ids[|ids| - 1]) }

  // ----- moves --------------------------------------------------------------------------------

  predicate Can<V>(s: System<V>, m: Move<V>)
  {
    match m
    case BusMove(step) => Enabled(s.bus, step)
    case Connect => s.conn.Down?
    case Replay => s.conn.Subscribed?
    case TakeReplayed => s.conn.Streaming? && s.conn.replay != []
    case TakeLive =>
      s.conn.Streaming? && s.conn.replay == [] && s.conn.pos < |s.bus.sent| <= s.conn.pos + BROADCAST_CAPACITY
    case Lagged => s.conn.Streaming? && s.conn.replay == [] && |s.bus.sent| > s.conn.pos + BROADCAST_CAPACITY
    case Disconnect => !s.conn.Down?
  }

  function Deliver<V>(s: System<V>, id: int): System<V>
  {
    s.(cursor := Some(id), delivered := s.delivered + [id])
  }

  predicate Skips(highWater: Option<int>, id: int) { highWater.Some? && id <= highWater.value }

  function Do<V>(wants: V -> bool, s: System<V>, m: Move<V>): System<V>
    requires Can(s, m)
  {
    match m
    case BusMove(step) =>
      s.(bus := Next(s.bus, step), conn := if step.Restart? then Down else s.conn)
    case Connect => s.(conn := Subscribed(|s.bus.sent|))
    case Replay =>
      var rows := if s.cursor.Some? then RowsSince(wants, s.bus.rows, s.cursor.value) else [];
      s.(conn := Streaming(rows, LastOf(rows), s.conn.pos, s.cursor))
    case TakeReplayed =>
      Deliver(s, s.conn.replay[0]).(conn := s.conn.(replay := s.conn.replay[1..]))
    case TakeLive =>
      var id := s.bus.sent[s.conn.pos];
      var next := s.(conn := s.conn.(pos := s.conn.pos + 1));
      if Skips(s.conn.highWater, id) || !Wanted(wants, s.bus.rows, id) then next else Deliver(next, id)
    case Lagged => s.(conn := Down)
    case Disconnect => s.(conn := Down)
  }

  /** A connection opened while the client's own cursor row still waits to be broadcast. */
  predicate RacesItsCursor<V>(s: System<V>, m: Move<V>)
  {
    m.Connect? && s.cursor.Some? && s.bus.holder == Committed(s.cursor.value)
  }

  // ----- what every move keeps ----------------------------------------------------------------

  /** `b` is past `a`: strictly, or in the relaxed reading no earlier than it. */
  predicate Past(strict: bool, a: Option<int>, b: int) { a.Some? ==> if strict then a.value < b else a.value <= b }

  predicate Ordered(strict: bool, ids: seq<int>)
  {
    forall i, j :: 0 <= i < j < |ids| ==> Past(strict, Some(ids[i]), ids[j])
  }

  /** The last id the client will have once the replay in hand is delivered. */
  function Top(conn: Conn, cursor: Option<int>): Option<int>
  {
    if conn.Streaming? && conn.replay != [] then LastOf(conn.replay) else cursor
  }

  /** A live frame is either one the route will drop or one past everything before it. */
  predicate FrameFits(strict: bool, conn: Conn, cursor: Option<int>, id: int)
  {
    (conn.Streaming? && Skips(conn.highWater, id)) || Past(strict, Top(conn, cursor), id)
  }

  predicate LiveFits<V>(strict: bool, s: System<V>)
  {
    !s.conn.Down? ==>
      && s.conn.pos <= |s.bus.sent|
      && (forall k :: s.conn.pos <= k < |s.bus.sent| ==> FrameFits(strict, s.conn, s.cursor, s.bus.sent[k]))
      && (s.bus.holder.Committed? ==> FrameFits(strict, s.conn, s.cursor, s.bus.holder.id))
  }

  predicate ReplayFits<V>(wants: V -> bool, s: System<V>)
  {
    s.conn.Streaming? ==>
      && StrictlyIncreasing(s.conn.replay)
      && (s.conn.replay != [] ==> s.cursor.Some? && s.conn.highWater == LastOf(s.conn.replay))
      && (forall i :: 0 <= i < |s.conn.replay| ==> s.cursor.Some? && s.cursor.value < s.conn.replay[i] <= |s.bus.rows|)
      && (s.conn.highWater.Some? ==> s.cursor.Some? && s.conn.highWater.value <= |s.bus.rows|)
      && (s.conn.highWater.Some? && s.conn.replay == [] ==> s.conn.highWater.value <= s.cursor.value)
      && (s.conn.highWater.Some? ==>
            forall id | s.cursor.value < id <= s.conn.highWater.value && Wanted(wants, s.bus.rows, id) ::
              id in s.conn.replay)
  }

  /** Whatever was broadcast above the cursor before the receiver's place is in the replay still to come. */
  predicate NothingMissed<V>(wants: V -> bool, s: System<V>)
  {
    s.conn.Streaming? && s.cursor.Some? ==>
      forall k | 0 <= k < s.conn.pos && k < |s.bus.sent| ::
        s.bus.sent[k] > s.cursor.value && Wanted(wants, s.bus.rows, s.bus.sent[k]) ==> s.bus.sent[k] in s.conn.replay
  }

  /** No wanted broadcast between the first and the last delivered id is missing. */
  predicate Complete<V>(wants: V -> bool, s: System<V>)
  {
    s.delivered != [] ==>
      forall k | 0 <= k < |s.bus.sent| && Wanted(wants, s.bus.rows, s.bus.sent[k]) ::
        s.delivered[0] <= s.bus.sent[k] <= s.delivered[|s.delivered| - 1] ==> s.bus.sent[k] in s.delivered
  }

  predicate StreamInv<V>(wants: V -> bool, strict: bool, s: System<V>)
  {
    && Inv(s.bus)
    && s.cursor == LastOf(s.delivered)
    && Ordered(strict, s.delivered)
    && (forall i :: 0 <= i < |s.delivered| ==> 1 <= s.delivered[i] <= |s.bus.rows|)
    && LiveFits(strict, s)
    && ReplayFits(wants, s)
    && NothingMissed(wants, s)
    && Complete(wants, s)
  }

  /** How a bus step can look to a client: rows and broadcasts are only added, each above the table it found. */
  ghost predicate Grows<V>(b: Bus<V>, b': Bus<V>)
  {
    && Inv(b')
    && b.rows <= b'.rows
    && b.sent <= b'.sent
    && (forall k :: |b.sent| <= k < |b'.sent| ==> b.holder == Committed(b'.sent[k]))
    && (b'.holder.Committed? ==> b'.holder == b.holder || b'.holder.id > |b.rows|)
  }

  lemma BusGrows<V>(b: Bus<V>, step: Step<V>)
    requires Inv(b) && Enabled(b, step)
    ensures Grows(b, Next(b, step))
  {
    hide MaxId, HasId;
    MaxOfContiguous(b.rows);
    StepKeepsInv(b, step);
  }

  lemma GrowthKeepsLive<V>(wants: V -> bool, strict: bool, s: System<V>, b': Bus<V>)
    requires StreamInv(wants, strict, s) && Grows(s.bus, b')
    ensures LiveFits(strict, s.(bus := b'))
  {
    hide Complete, NothingMissed, Wanted;
    assert s.cursor.Some? ==> s.cursor.value <= |s.bus.rows|;
    assert Top(s.conn, s.cursor).Some? ==> Top(s.conn, s.cursor).value <= |s.bus.rows|;
    hide Inv, ReplayFits, Ordered;
    assert forall k :: 0 <= k < |s.bus.sent| ==> b'.sent[k] == s.bus.sent[k];
  }

  lemma GrowthKeepsReplay<V>(wants: V -> bool, strict: bool, s: System<V>, b': Bus<V>)
    requires StreamInv(wants, strict, s) && Grows(s.bus, b')
    ensures ReplayFits(wants, s.(bus := b')) && NothingMissed(wants, s.(bus := b'))
  {
    assert forall k :: 0 <= k < |s.bus.sent| ==> b'.sent[k] == s.bus.sent[k];
    assert forall id :: 1 <= id <= |s.bus.rows| ==> (Wanted(wants, b'.rows, id) <==> Wanted(wants, s.bus.rows, id));
    hide Wanted, Complete, Ordered, FrameFits;
    assert !s.conn.Down? ==> s.conn.pos <= |s.bus.sent|;
  }

  lemma GrowthKeepsComplete<V>(wants: V -> bool, strict: bool, s: System<V>, b': Bus<V>)
    requires StreamInv(wants, strict, s) && Grows(s.bus, b')
    ensures Complete(wants, s.(bus := b'))
  {
    hide LiveFits, ReplayFits, NothingMissed, Ordered;
    if s.delivered != [] {
      forall k | 0 <= k < |b'.sent| && Wanted(wants, b'.rows, b'.sent[k])
                 && s.delivered[0] <= b'.sent[k] <= s.delivered[|s.delivered| - 1]
        ensures b'.sent[k] in s.delivered
      {
        if k < |s.bus.sent| {
          assert b'.sent[k] == s.bus.sent[k] && Wanted(wants, s.bus.rows, s.bus.sent[k]);
        } else {
          assert s.bus.holder == Committed(b'.sent[k]);
          assert s.delivered[|s.delivered| - 1] in s.delivered;
        }
      }
    }
  }

  lemma BusMoveKeeps<V>(wants: V -> bool, strict: bool, s: System<V>, step: Step<V>)
    requires StreamInv(wants, strict, s) && Enabled(s.bus, step)
    ensures StreamInv(wants, strict, Do(wants, s, BusMove(step)))
  {
    BusGrows(s.bus, step);
    var b' := Next(s.bus, step);
    hide Next;
    GrowthKeepsLive(wants, strict, s, b');
    GrowthKeepsReplay(wants, strict, s, b');
    GrowthKeepsComplete(wants, strict, s, b');
    CompleteIgnoresConn(wants, s.(bus := b'), Do(wants, s, BusMove(step)));
    hide Complete, Ordered;
  }

  lemma ConnectKeeps<V>(wants: V -> bool, strict: bool, s: System<V>)
    requires StreamInv(wants, strict, s) && s.conn.Down?
    requires strict ==> !RacesItsCursor(s, Connect)
    ensures StreamInv(wants, strict, Do(wants, s, Connect))
  {
  }

  /** What the replay query returns, as far as the invariant cares. */
  lemma ReplayRows<V>(wants: V -> bool, s: System<V>) returns (r: seq<int>)
    requires Inv(s.bus) && s.conn.Subscribed?
    ensures Do(wants, s, Replay) == s.(conn := Streaming(r, LastOf(r), s.conn.pos, s.cursor))
    ensures StrictlyIncreasing(r) && (s.cursor.None? ==> r == [])
    ensures s.cursor.Some? ==> forall id :: id in r <==> id > s.cursor.value && Wanted(wants, s.bus.rows, id)
    ensures forall i :: 0 <= i < |r| ==> s.cursor.Some? && s.cursor.value < r[i] <= |s.bus.rows|
  {
    r := if s.cursor.Some? then RowsSince(wants, s.bus.rows, s.cursor.value) else [];
    if s.cursor.Some? {
      RowsSinceIs(wants, s.bus.rows, s.cursor.value);
      hide RowsSince;
      forall i | 0 <= i < |r|
        ensures s.cursor.value < r[i] <= |s.bus.rows|
      {
        assert r[i] in r;
      }
    }
  }

  lemma ReplayKeepsLive<V>(wants: V -> bool, strict: bool, s: System<V>, r: seq<int>)
    requires StreamInv(wants, strict, s) && s.conn.Subscribed?
    requires forall i :: 0 <= i < |r| ==> s.cursor.Some? && s.cursor.value < r[i] <= |s.bus.rows|
    ensures LiveFits(strict, s.(conn := Streaming(r, LastOf(r), s.conn.pos, s.cursor)))
  {
    hide Complete, NothingMissed, ReplayFits, Wanted, Ordered, Inv;
    assert LiveFits(strict, s);
  }

  lemma ReplayKeeps<V>(wants: V -> bool, strict: bool, s: System<V>)
    requires StreamInv(wants, strict, s) && s.conn.Subscribed?
    ensures StreamInv(wants, strict, Do(wants, s, Replay))
  {
    var r := ReplayRows(wants, s);
    var s' := s.(conn := Streaming(r, LastOf(r), s.conn.pos, s.cursor));
    ReplayKeepsLive(wants, strict, s, r);
    CompleteIgnoresConn(wants, s, s');
    hide Complete, Ordered, LiveFits, Inv, Wanted, Do;
    assert ReplayFits(wants, s') && NothingMissed(wants, s');
  }

  lemma DeliverKeepsComplete<V>(wants: V -> bool, strict: bool, s: System<V>, id: int)
    requires StreamInv(wants, strict, s)
    requires 1 <= id <= |s.bus.rows| && Past(strict, s.cursor, id)
    requires s.cursor.Some? ==>
               forall k | 0 <= k < |s.bus.sent| && s.cursor.value < s.bus.sent[k] < id ::
                 !Wanted(wants, s.bus.rows, s.bus.sent[k])
    ensures Complete(wants, Deliver(s, id))
    ensures Ordered(strict, Deliver(s, id).delivered)
    ensures forall i :: 0 <= i < |s.delivered + [id]| ==> 1 <= (s.delivered + [id])[i] <= |s.bus.rows|
  {
    var d := s.delivered + [id];
    forall i | 0 <= i < |s.delivered|
      ensures Past(strict, Some(s.delivered[i]), id)
    {
      assert i < |s.delivered| - 1 ==> Past(strict, Some(s.delivered[i]), s.delivered[|s.delivered| - 1]);
    }
    forall k | 0 <= k < |s.bus.sent| && Wanted(wants, s.bus.rows, s.bus.sent[k]) && d[0] <= s.bus.sent[k] <= id
      ensures s.bus.sent[k] in d
    {
      assert d[|s.delivered|] == id;
      if s.delivered != [] && s.bus.sent[k] <= s.cursor.value {
        assert s.bus.sent[k] in s.delivered;
      }
    }
  }

  lemma TailKeepsReplay<V>(wants: V -> bool, strict: bool, s: System<V>)
    requires StreamInv(wants, strict, s) && Can(s, TakeReplayed)
    ensures ReplayFits(wants, Do(wants, s, TakeReplayed)) && NothingMissed(wants, Do(wants, s, TakeReplayed))
  {
    hide Complete, Ordered, LiveFits, Inv, Wanted;
    var id, rest := s.conn.replay[0], s.conn.replay[1..];
    assert forall x :: x in s.conn.replay && x != id ==> x in rest;
    assert rest != [] ==> LastOf(rest) == LastOf(s.conn.replay);
  }

  lemma TailKeepsLive<V>(wants: V -> bool, strict: bool, s: System<V>)
    requires StreamInv(wants, strict, s) && Can(s, TakeReplayed)
    ensures LiveFits(strict, Do(wants, s, TakeReplayed))
  {
    hide Complete, Ordered, NothingMissed, Inv, Wanted;
    var rest := s.conn.replay[1..];
    assert LastOf(s.conn.replay) == if rest != [] then LastOf(rest) else Some(s.conn.replay[0]);
    assert LiveFits(strict, s);
  }

  lemma TakeReplayedKeeps<V>(wants: V -> bool, strict: bool, s: System<V>)
    requires StreamInv(wants, strict, s) && Can(s, TakeReplayed)
    ensures StreamInv(wants, strict, Do(wants, s, TakeReplayed))
  {
    var id := s.conn.replay[0];
    forall k | 0 <= k < |s.bus.sent| && s.cursor.value < s.bus.sent[k] < id
      ensures !Wanted(wants, s.bus.rows, s.bus.sent[k])
    {
      ReplayStartsAtGap(wants, strict, s, k);
    }
    DeliverKeepsComplete(wants, strict, s, id);
    TailKeepsReplay(wants, strict, s);
    TailKeepsLive(wants, strict, s);
    hide Complete, Ordered, NothingMissed, ReplayFits, LiveFits, Inv;
    CompleteIgnoresConn(wants, Deliver(s, id), Do(wants, s, TakeReplayed));
  }

  /** A row between the cursor and the next replayed one is not wanted: the replay would hold it. */
  lemma ReplayStartsAtGap<V>(wants: V -> bool, strict: bool, s: System<V>, k: nat)
    requires StreamInv(wants, strict, s) && Can(s, TakeReplayed)
    requires k < |s.bus.sent| && s.cursor.value < s.bus.sent[k] < s.conn.replay[0]
    ensures !Wanted(wants, s.bus.rows, s.bus.sent[k])
  {
    assert s.bus.sent[k] !in s.conn.replay;
  }

  lemma CompleteIgnoresConn<V>(wants: V -> bool, s: System<V>, s': System<V>)
    requires Complete(wants, s) && s' == s.(conn := s'.conn)
    ensures Complete(wants, s')
  {
  }

  lemma PassLiveKeeps<V>(wants: V -> bool, strict: bool, s: System<V>)
    requires StreamInv(wants, strict, s) && Can(s, TakeLive)
    requires Skips(s.conn.highWater, s.bus.sent[s.conn.pos]) || !Wanted(wants, s.bus.rows, s.bus.sent[s.conn.pos])
    ensures StreamInv(wants, strict, Do(wants, s, TakeLive))
  {
    CompleteIgnoresConn(wants, s, Do(wants, s, TakeLive));
    hide Complete, Ordered, Inv, Wanted;
  }

  lemma DeliverLiveKeeps<V>(wants: V -> bool, strict: bool, s: System<V>)
    requires StreamInv(wants, strict, s) && Can(s, TakeLive)
    requires !Skips(s.conn.highWater, s.bus.sent[s.conn.pos]) && Wanted(wants, s.bus.rows, s.bus.sent[s.conn.pos])
    ensures StreamInv(wants, strict, Do(wants, s, TakeLive))
  {
    var id := s.bus.sent[s.conn.pos];
    assert FrameFits(strict, s.conn, s.cursor, id);
    LiveFillsTheGap(wants, strict, s);
    DeliverKeepsComplete(wants, strict, s, id);
    var s' := Do(wants, s, TakeLive);
    CompleteIgnoresConn(wants, Deliver(s, id), s');
    hide Complete, Ordered;
    assert forall k :: s.conn.pos < k < |s.bus.sent| ==> s.bus.sent[k] > id;
    assert s.bus.holder.Committed? ==> s.bus.holder.id > id;
    hide Inv, Wanted;
    LiveTail(wants, strict, s, id);
    assert LiveFits(strict, s');
  }

  lemma LiveTail<V>(wants: V -> bool, strict: bool, s: System<V>, id: int)
    requires StreamInv(wants, strict, s) && Can(s, TakeLive) && id == s.bus.sent[s.conn.pos]
    requires !Skips(s.conn.highWater, id)
    requires Past(strict, s.cursor, id)
    ensures var s' := Deliver(s, id).(conn := s.conn.(pos := s.conn.pos + 1));
            ReplayFits(wants, s') && NothingMissed(wants, s')
  {
    hide Complete, Ordered, LiveFits, Wanted;
  }

  /** With the replay delivered, no wanted broadcast lies between the cursor and the next live frame. */
  lemma LiveFillsTheGap<V>(wants: V -> bool, strict: bool, s: System<V>)
    requires StreamInv(wants, strict, s) && Can(s, TakeLive)
    ensures s.cursor.Some? ==>
              forall k :: 0 <= k < |s.bus.sent| && s.cursor.value < s.bus.sent[k] < s.bus.sent[s.conn.pos] ==>
                            !Wanted(wants, s.bus.rows, s.bus.sent[k])
  {
    hide Complete, Ordered, LiveFits, ReplayFits, Wanted;
  }

  lemma TakeLiveKeeps<V>(wants: V -> bool, strict: bool, s: System<V>)
    requires StreamInv(wants, strict, s) && Can(s, TakeLive)
    ensures StreamInv(wants, strict, Do(wants, s, TakeLive))
  {
    hide StreamInv, Do;
    if Skips(s.conn.highWater, s.bus.sent[s.conn.pos]) || !Wanted(wants, s.bus.rows, s.bus.sent[s.conn.pos]) {
      PassLiveKeeps(wants, strict, s);
    } else {
      DeliverLiveKeeps(wants, strict, s);
    }
  }

  lemma MoveKeepsStream<V>(wants: V -> bool, strict: bool, s: System<V>, m: Move<V>)
    requires StreamInv(wants, strict, s) && Can(s, m)
    requires strict ==> !RacesItsCursor(s, m)
    ensures StreamInv(wants, strict, Do(wants, s, m))
  {
    match m
    case BusMove(step) => BusMoveKeeps(wants, strict, s, step);
    case Connect => ConnectKeeps(wants, strict, s);
    case Replay => ReplayKeeps(wants, strict, s);
    case TakeReplayed => TakeReplayedKeeps(wants, strict, s);
    case TakeLive => TakeLiveKeeps(wants, strict, s);
    case Lagged =>
    case Disconnect =>
  }

  /** The client is given, and has still to be replayed, only what its filter wants. */
  predicate OnlyWanted<V>(wants: V -> bool, s: System<V>)
  {
    && (forall i :: 0 <= i < |s.delivered| ==> Wanted(wants, s.bus.rows, s.delivered[i]))
    && (s.conn.Streaming? ==> forall i :: 0 <= i < |s.conn.replay| ==> Wanted(wants, s.bus.rows, s.conn.replay[i]))
  }

  lemma ReplayIsWanted<V>(wants: V -> bool, s: System<V>)
    requires Inv(s.bus) && OnlyWanted(wants, s) && s.conn.Subscribed?
    ensures OnlyWanted(wants, Do(wants, s, Replay))
  {
    var r := ReplayRows(wants, s);
    hide Wanted, Do;
    forall i | 0 <= i < |r|
      ensures Wanted(wants, s.bus.rows, r[i])
    {
      assert r[i] in r;
    }
  }

  lemma BusMoveKeepsWanted<V>(wants: V -> bool, s: System<V>, step: Step<V>)
    requires Inv(s.bus) && OnlyWanted(wants, s) && Enabled(s.bus, step)
    ensures OnlyWanted(wants, Do(wants, s, BusMove(step)))
  {
    BusGrows(s.bus, step);
    hide Next, Inv;
    var rows, rows' := s.bus.rows, Next(s.bus, step).rows;
    assert forall id :: Wanted(wants, rows, id) ==> Wanted(wants, rows', id);
  }

  lemma MoveKeepsWanted<V>(wants: V -> bool, s: System<V>, m: Move<V>)
    requires Inv(s.bus) && OnlyWanted(wants, s) && Can(s, m)
    ensures OnlyWanted(wants, Do(wants, s, m))
  {
    hide Inv, Wanted;
    match m
    case BusMove(step) => BusMoveKeepsWanted(wants, s, step);
    case Replay => ReplayIsWanted(wants, s);
    case _ =>
  }

  predicate ClientInv<V>(wants: V -> bool, strict: bool, s: System<V>)
  {
    StreamInv(wants, strict, s) && OnlyWanted(wants, s)
  }

  lemma MoveKeepsInv<V>(wants: V -> bool, strict: bool, s: System<V>, m: Move<V>)
    requires ClientInv(wants, strict, s) && Can(s, m)
    requires strict ==> !RacesItsCursor(s, m)
    ensures ClientInv(wants, strict, Do(wants, s, m))
  {
    MoveKeepsStream(wants, strict, s, m);
    hide Do, Inv, OnlyWanted, Can;
    MoveKeepsWanted(wants, s, m);
  }

  // ----- runs ---------------------------------------------------------------------------------

  ghost predicate Moves<V>(wants: V -> bool, s: System<V>, m: Move<V>, s': System<V>)
  {
    Can(s, m) && s' == Do(wants, s, m)
  }

  /** A run from a freshly booted server and a client that has never connected. */
  ghost predicate IsSession<V>(wants: V -> bool, states: seq<System<V>>, moves: seq<Move<V>>)
  {
    && |states| == |moves| + 1
    && Boots(states[0].bus) && states[0] == System(states[0].bus, Down, None, [])
    && forall i :: 0 <= i < |moves| ==> Moves(wants, states[i], moves[i], states[i + 1])
  }

  /** No connection of the run is opened while its own cursor row waits to be broadcast. */
  ghost predicate RaceFree<V>(states: seq<System<V>>, moves: seq<Move<V>>)
    requires |states| == |moves| + 1
  {
    forall i :: 0 <= i < |moves| ==> !RacesItsCursor(states[i], moves[i])
  }

  lemma {:induction false} SessionKeepsInv<V>(wants: V -> bool, strict: bool, states: seq<System<V>>,
                                              moves: seq<Move<V>>, k: nat)
    requires IsSession(wants, states, moves) && k < |states|
    requires strict ==> RaceFree(states, moves)
    ensures ClientInv(wants, strict, states[k])
  {
    hide ClientInv, Do, Can;
    if k == 0 {
      FreshClient(wants, strict, states[0]);
    } else {
      SessionKeepsInv(wants, strict, states, moves, k - 1);
      assert Moves(wants, states[k - 1], moves[k - 1], states[k]);
      MoveKeepsInv(wants, strict, states[k - 1], moves[k - 1]);
    }
  }

  lemma FreshClient<V>(wants: V -> bool, strict: bool, s: System<V>)
    requires Boots(s.bus) && s == System(s.bus, Down, None, [])
    ensures ClientInv(wants, strict, s)
  {
  }

  /** The client has handled everything its connection can offer right now. */
  predicate CaughtUp<V>(s: System<V>)
  {
    s.conn.Streaming? && s.conn.replay == [] && s.conn.pos == |s.bus.sent|
  }

  /**
    No gap, in every run: across disconnects, lag-forced reconnects, server restarts and lost publishes,
    the client has every wanted broadcast between the first and the last id it was given, and once caught
    up every wanted broadcast from the first id on.
   */
  lemma NoGap<V>(wants: V -> bool, states: seq<System<V>>, moves: seq<Move<V>>, k: nat, x: int)
    requires IsSession(wants, states, moves) && k < |states|
    requires x in states[k].bus.sent && Wanted(wants, states[k].bus.rows, x)
    requires states[k].delivered != [] && states[k].delivered[0] <= x
    requires x <= states[k].delivered[|states[k].delivered| - 1] || CaughtUp(states[k])
    ensures x in states[k].delivered
  {
    var s := states[k];
    SessionKeepsInv(wants, false, states, moves, k);
    var j :| 0 <= j < |s.bus.sent| && s.bus.sent[j] == x;
    assert x <= s.cursor.value;
  }

  /** In increasing id order, so none twice, in every run that does not race its cursor. */
  lemma AtMostOnce<V>(wants: V -> bool, states: seq<System<V>>, moves: seq<Move<V>>, k: nat)
    requires IsSession(wants, states, moves) && k < |states|
    requires RaceFree(states, moves)
    ensures StrictlyIncreasing(states[k].delivered)
  {
    SessionKeepsInv(wants, true, states, moves, k);
    var d := states[k].delivered;
    forall i, j | 0 <= i < j < |d|
      ensures d[i] < d[j]
    {
      assert Past(true, Some(d[i]), d[j]);
    }
  }

  /** In every run the client is given only rows that its filter wants. */
  lemma DeliversOnlyWanted<V>(wants: V -> bool, states: seq<System<V>>, moves: seq<Move<V>>, k: nat, i: nat)
    requires IsSession(wants, states, moves) && k < |states| && i < |states[k].delivered|
    ensures Wanted(wants, states[k].bus.rows, states[k].delivered[i])
  {
    SessionKeepsInv(wants, false, states, moves, k);
  }

  // ----- where a client's history begins ------------------------------------------------------

  /**
    How much had been broadcast when the connection was opened under which the client's history begins:
    the last one that was opened without a cursor.
   */
  function Anchor<V>(states: seq<System<V>>, moves: seq<Move<V>>, k: nat): nat
    requires k <= |moves| < |states|
  {
    if k == 0 then 0
    else if moves[k - 1].Connect? && states[k - 1].cursor.None? then |states[k - 1].bus.sent|
    else Anchor(states, moves, k - 1)
  }

  /** Nothing wanted was broadcast from `a` up to `p`. */
  predicate Quiet<V>(wants: V -> bool, s: System<V>, a: nat, p: nat)
  {
    p <= |s.bus.sent| && forall j :: a <= j < p ==> !Wanted(wants, s.bus.rows, s.bus.sent[j])
  }

  /** The first delivery, if there was one, is the first wanted broadcast from the anchor on. */
  ghost predicate Anchored<V>(wants: V -> bool, s: System<V>, a: nat)
  {
    && (s.delivered == [] <==> s.cursor.None?)
    && (s.delivered == [] && !s.conn.Down? ==> a <= s.conn.pos && Quiet(wants, s, a, s.conn.pos))
    && (s.delivered != [] ==>
          exists p :: a <= p < |s.bus.sent| && s.bus.sent[p] == s.delivered[0] && Quiet(wants, s, a, p))
  }

  lemma QuietGrows<V>(wants: V -> bool, s: System<V>, b': Bus<V>, a: nat, p: nat)
    requires Inv(s.bus) && Grows(s.bus, b') && Quiet(wants, s, a, p)
    ensures Quiet(wants, s.(bus := b'), a, p)
  {
    assert forall j :: 0 <= j < p ==> b'.sent[j] == s.bus.sent[j] && s.bus.sent[j] <= |s.bus.rows|;
  }

  lemma BusMoveKeepsAnchor<V>(wants: V -> bool, s: System<V>, step: Step<V>, a: nat)
    requires Inv(s.bus) && Anchored(wants, s, a) && Enabled(s.bus, step)
    ensures Anchored(wants, Do(wants, s, BusMove(step)), a)
  {
    BusGrows(s.bus, step);
    var b' := Next(s.bus, step);
    hide Next, Inv, Wanted;
    if s.delivered != [] {
      var p :| a <= p < |s.bus.sent| && s.bus.sent[p] == s.delivered[0] && Quiet(wants, s, a, p);
      QuietGrows(wants, s, b', a, p);
      assert b'.sent[p] == s.bus.sent[p];
      assert Quiet(wants, Do(wants, s, BusMove(step)), a, p);
    } else if !s.conn.Down? {
      QuietGrows(wants, s, b', a, s.conn.pos);
    }
  }

  lemma TakeLiveKeepsAnchor<V>(wants: V -> bool, strict: bool, s: System<V>, a: nat)
    requires StreamInv(wants, strict, s) && Anchored(wants, s, a) && Can(s, TakeLive)
    ensures Anchored(wants, Do(wants, s, TakeLive), a)
  {
    var s' := Do(wants, s, TakeLive);
    assert s.cursor.None? ==> s.conn.highWater.None?;
    hide Inv, Wanted, Complete, LiveFits, NothingMissed, ReplayFits, Ordered;
    if s.delivered == [] {
      assert s'.delivered != [] ==> s'.delivered[0] == s.bus.sent[s.conn.pos] && Quiet(wants, s', a, s.conn.pos);
    } else {
      var p :| a <= p < |s.bus.sent| && s.bus.sent[p] == s.delivered[0] && Quiet(wants, s, a, p);
      assert Quiet(wants, s', a, p) && s'.delivered[0] == s.delivered[0];
    }
  }

  /** Moves that leave the broadcasts alone and take nothing from the live stream. */
  lemma OtherMovesKeepAnchor<V>(wants: V -> bool, strict: bool, s: System<V>, m: Move<V>, a: nat)
    requires StreamInv(wants, strict, s) && Anchored(wants, s, a) && Can(s, m) && !m.BusMove? && !m.TakeLive?
    ensures Anchored(wants, Do(wants, s, m), if m.Connect? && s.cursor.None? then |s.bus.sent| else a)
  {
    var s' := Do(wants, s, m);
    assert m.TakeReplayed? ==> s.cursor.Some?;
    hide Inv, Wanted, Complete, LiveFits, NothingMissed, ReplayFits, Ordered, RowsSince;
    if s.delivered != [] {
      var p :| a <= p < |s.bus.sent| && s.bus.sent[p] == s.delivered[0] && Quiet(wants, s, a, p);
      assert Quiet(wants, s', a, p) && s'.delivered[0] == s.delivered[0];
    }
  }

  lemma {:induction false} SessionIsAnchored<V>(wants: V -> bool, states: seq<System<V>>, moves: seq<Move<V>>, k: nat)
    requires IsSession(wants, states, moves) && k < |states|
    ensures Anchored(wants, states[k], Anchor(states, moves, k))
  {
    if k > 0 {
      SessionIsAnchored(wants, states, moves, k - 1);
      SessionKeepsInv(wants, false, states, moves, k - 1);
      hide Anchored, StreamInv, OnlyWanted, Do;
      var s, m, a := states[k - 1], moves[k - 1], Anchor(states, moves, k - 1);
      assert Moves(wants, s, m, states[k]);
      assert Inv(s.bus) by { InvOfBus(wants, false, s); }
      match m
      case BusMove(step) => BusMoveKeepsAnchor(wants, s, step, a);
      case TakeLive => TakeLiveKeepsAnchor(wants, false, s, a);
      case _ => OtherMovesKeepAnchor(wants, false, s, m, a);
    }
  }

  lemma InvOfBus<V>(wants: V -> bool, strict: bool, s: System<V>)
    requires StreamInv(wants, strict, s)
    ensures Inv(s.bus)
  {
  }

  /** A caught-up client has exactly the wanted broadcasts from its anchor on, in every run. */
  lemma HasAllFromAnchor<V>(wants: V -> bool, states: seq<System<V>>, moves: seq<Move<V>>, k: nat, j: nat)
    requires IsSession(wants, states, moves) && k < |states| && CaughtUp(states[k])
    requires j < |states[k].bus.sent| && Wanted(wants, states[k].bus.rows, states[k].bus.sent[j])
    ensures states[k].bus.sent[j] in states[k].delivered <==> j >= Anchor(states, moves, k)
  {
    var s, a := states[k], Anchor(states, moves, k);
    SessionIsAnchored(wants, states, moves, k);
    SessionKeepsInv(wants, false, states, moves, k);
    assert StrictlyIncreasing(s.bus.sent) && Ordered(false, s.delivered);
    hide IsSession, StreamInv, OnlyWanted, Anchor, Wanted, Ordered;
    if s.delivered != [] {
      AnchorDecides(wants, s, a, j);
      hide Anchored, StrictlyIncreasing;
      if j >= a {
        NoGap(wants, states, moves, k, s.bus.sent[j]);
      } else {
        NotBefore(s.delivered, s.bus.sent[j]);
      }
    }
  }

  lemma AnchorDecides<V>(wants: V -> bool, s: System<V>, a: nat, j: nat)
    requires Anchored(wants, s, a) && StrictlyIncreasing(s.bus.sent) && s.delivered != []
    requires j < |s.bus.sent| && Wanted(wants, s.bus.rows, s.bus.sent[j])
    ensures j >= a <==> s.bus.sent[j] >= s.delivered[0]
  {
    hide Wanted;
    var p :| a <= p < |s.bus.sent| && s.bus.sent[p] == s.delivered[0] && Quiet(wants, s, a, p);
  }

  lemma NotBefore(ids: seq<int>, x: int)
    requires Ordered(false, ids) && ids != [] && x < ids[0]
    ensures x !in ids
  {
    forall i | 0 <= i < |ids|
      ensures x < ids[i]
    {
      assert i > 0 ==> Past(false, Some(ids[0]), ids[i]);
    }
  }

  /**
    What the anchor costs.  A client that has been given nothing yet has no cursor, so a reconnect asks for
    nothing: here an event is broadcast while it is streaming, the connection fails before the frame
    arrives, and the event is never replayed, with no race anywhere in the run.
   */
  lemma FirstEventIsLost<V>(wants: V -> bool, e: V) returns (states: seq<System<V>>, moves: seq<Move<V>>)
    requires wants(e)
    ensures IsSession(wants, states, moves) && RaceFree(states, moves)
    ensures var s := states[|moves|];
            CaughtUp(s) && s.bus.sent == [1] && Wanted(wants, s.bus.rows, 1) && s.delivered == []
  {
    var b0: Bus<V> := Bus([], None, Free, []);
    var b1 := Bus([Row(1, e)], None, Committed(1), []);
    var b2 := Bus([Row(1, e)], Some(1), Free, [1]);
    FirstPublishes(e);
    hide RowsSince, Next, Enabled, IsSession, RaceFree;
    var live := Streaming([], None, 0, None);
    states, moves := Start(wants, b0);
    assert RaceFree(states, moves) by { NoMovesNoRace(states, moves); }
    states, moves := ExtendSafely(wants, states, moves, Connect, System(b0, Subscribed(0), None, []));
    states, moves := ExtendSafely(wants, states, moves, Replay, System(b0, live, None, []));
    states, moves := ExtendSafely(wants, states, moves, BusMove(Commit(e)), System(b1, live, None, []));
    states, moves := ExtendSafely(wants, states, moves, BusMove(Broadcast), System(b2, live, None, []));
    states, moves := ExtendSafely(wants, states, moves, Disconnect, System(b2, Down, None, []));
    states, moves := ExtendSafely(wants, states, moves, Connect, System(b2, Subscribed(1), None, []));
    states, moves := ExtendSafely(wants, states, moves, Replay, System(b2, Streaming([], None, 1, None), None, []));
  }

  lemma NoMovesNoRace<V>(states: seq<System<V>>, moves: seq<Move<V>>)
    requires |states| == |moves| + 1 && moves == []
    ensures RaceFree(states, moves)
  {
  }

  lemma ExtendSafely<V>(wants: V -> bool, states: seq<System<V>>, moves: seq<Move<V>>, m: Move<V>, s': System<V>)
      returns (states': seq<System<V>>, moves': seq<Move<V>>)
    requires IsSession(wants, states, moves) && |states| == |moves| + 1 && RaceFree(states, moves)
    requires Moves(wants, states[|moves|], m, s') && !RacesItsCursor(states[|moves|], m)
    ensures IsSession(wants, states', moves') && |states'| == |moves'| + 1 && states'[|moves'|] == s'
    ensures RaceFree(states', moves')
  {
    hide Moves, IsSession;
    states', moves' := Extend(wants, states, moves, m, s');
    forall i | 0 <= i < |moves'|
      ensures !RacesItsCursor(states'[i], moves'[i])
    {
      assert states'[i] == states[i];
      if i < |moves| { assert moves'[i] == moves[i]; }
    }
  }

  /** In every run at all, ids are never handed out of order; only the cursor itself can repeat. */
  lemma NeverBackwards<V>(wants: V -> bool, states: seq<System<V>>, moves: seq<Move<V>>, k: nat, i: nat, j: nat)
    requires IsSession(wants, states, moves) && k < |states|
    requires i < j < |states[k].delivered|
    ensures states[k].delivered[i] <= states[k].delivered[j]
  {
    SessionKeepsInv(wants, false, states, moves, k);
    assert Past(false, Some(states[k].delivered[i]), states[k].delivered[j]);
  }

  /**
    What a race can lead to.  A connection is opened while the cursor row waits to be broadcast; if the
    broadcast comes next, the replay above the cursor is empty, so there is no high-water mark, and the
    cursor row is delivered a second time.
   */
  lemma RaceDuplicates<V>(wants: V -> bool, strict: bool, s: System<V>)
    requires ClientInv(wants, strict, s)
    requires s.conn.Down? && RacesItsCursor(s, Connect)
    ensures var s1 := Do(wants, s, Connect);
            && Can(s1, BusMove(Broadcast))
            && var s2 := Do(wants, s1, BusMove(Broadcast));
            && Can(s2, Replay)
            && var s3 := Do(wants, s2, Replay);
            && Can(s3, TakeLive)
            && Do(wants, s3, TakeLive).delivered == s.delivered + [s.cursor.value]
            && s.cursor.value in s.delivered
  {
    assert s.cursor == LastOf(s.delivered) && s.delivered[|s.delivered| - 1] == s.cursor.value;
    assert Wanted(wants, s.bus.rows, s.cursor.value);
    hide RowsSince, OnlyWanted;
    RowsSinceIs(wants, s.bus.rows, s.cursor.value);
    var r := RowsSince(wants, s.bus.rows, s.cursor.value);
    if r != [] {
      var _ := HasMember(r);
      assert false;
    }
  }

  lemma HasMember(r: seq<int>) returns (id: int)
    requires r != []
    ensures id in r
  {
    id := r[0];
  }

  /**
    The race is reachable: a client that is given a row by replay before its broadcast, drops the
    connection and is back before the broadcast.
   */
  lemma RaceIsReachable<V>(wants: V -> bool, e: V) returns (states: seq<System<V>>, moves: seq<Move<V>>)
    requires wants(e)
    ensures IsSession(wants, states, moves)
    ensures var s := states[|moves|];
            s.conn.Down? && RacesItsCursor(s, Connect)
  {
    var b2: Bus<V> := Bus([Row(1, e)], Some(1), Free, [1]);
    var b3: Bus<V> := Bus([Row(1, e)] + [Row(2, e)], Some(1), Committed(2), [1]);
    SecondMoves(wants, e, b2, b3);
    hide Moves, IsSession;
    states, moves := OneDelivered(wants, e);
    states, moves := Extend(wants, states, moves, BusMove(Commit(e)), System(b3, Down, Some(1), [1]));
    states, moves := Extend(wants, states, moves, Connect, System(b3, Subscribed(1), Some(1), [1]));
    states, moves := Extend(wants, states, moves, Replay,
                            System(b3, Streaming([2], Some(2), 1, Some(1)), Some(1), [1]));
    states, moves := Extend(wants, states, moves, TakeReplayed,
                            System(b3, Streaming([], Some(2), 1, Some(1)), Some(2), [1, 2]));
    states, moves := Extend(wants, states, moves, Disconnect, System(b3, Down, Some(2), [1, 2]));
  }

  lemma SecondMoves<V>(wants: V -> bool, e: V, b2: Bus<V>, b3: Bus<V>)
    requires wants(e) && b2 == Bus([Row(1, e)], Some(1), Free, [1])
    requires b3 == Bus([Row(1, e)] + [Row(2, e)], Some(1), Committed(2), [1])
    ensures Moves(wants, System(b2, Down, Some(1), [1]), BusMove(Commit(e)), System(b3, Down, Some(1), [1]))
    ensures Moves(wants, System(b3, Down, Some(1), [1]), Connect, System(b3, Subscribed(1), Some(1), [1]))
    ensures Moves(wants, System(b3, Subscribed(1), Some(1), [1]), Replay,
                  System(b3, Streaming([2], Some(2), 1, Some(1)), Some(1), [1]))
    ensures Moves(wants, System(b3, Streaming([2], Some(2), 1, Some(1)), Some(1), [1]), TakeReplayed,
                  System(b3, Streaming([], Some(2), 1, Some(1)), Some(2), [1, 2]))
    ensures Moves(wants, System(b3, Streaming([], Some(2), 1, Some(1)), Some(2), [1, 2]), Disconnect,
                  System(b3, Down, Some(2), [1, 2]))
  {
    FirstPublishes(e);
    SecondRow(wants, e);
    hide RowsSince, Next, Enabled;
    assert [1] + [2] == [1, 2] && [2][1..] == [];
  }

  lemma SecondRow<V>(wants: V -> bool, e: V)
    requires wants(e)
    ensures RowsSince(wants, [Row(1, e)] + [Row(2, e)], 1) == [2]
  {
    var one: seq<Row<V>> := [Row(1, e)];
    assert (one + [Row(2, e)])[..1] == one && one[..0] == [];
    assert RowsSince(wants, one, 1) == [];
  }

  /** A session in which one event is published and received live, and the connection then fails. */
  lemma OneDelivered<V>(wants: V -> bool, e: V) returns (states: seq<System<V>>, moves: seq<Move<V>>)
    requires wants(e)
    ensures IsSession(wants, states, moves) && |states| == |moves| + 1
    ensures states[|moves|] == System(Bus([Row(1, e)], Some(1), Free, [1]), Down, Some(1), [1])
  {
    var b0: Bus<V> := Bus([], None, Free, []);
    var b1 := Bus([Row(1, e)], None, Committed(1), []);
    var b2 := Bus([Row(1, e)], Some(1), Free, [1]);
    FirstPublishes(e);
    assert [] + [1] == [1];
    hide RowsSince, Next, Enabled, IsSession;
    var live := Streaming([], None, 0, None);
    states, moves := Start(wants, b0);
    states, moves := Extend(wants, states, moves, Connect, System(b0, Subscribed(0), None, []));
    states, moves := Extend(wants, states, moves, Replay, System(b0, live, None, []));
    states, moves := Extend(wants, states, moves, BusMove(Commit(e)), System(b1, live, None, []));
    states, moves := Extend(wants, states, moves, BusMove(Broadcast), System(b2, live, None, []));
    states, moves := Extend(wants, states, moves, TakeLive, System(b2, live.(pos := 1), Some(1), [1]));
    states, moves := Extend(wants, states, moves, Disconnect, System(b2, Down, Some(1), [1]));
  }

  lemma Start<V>(wants: V -> bool, b: Bus<V>) returns (states: seq<System<V>>, moves: seq<Move<V>>)
    requires Boots(b)
    ensures IsSession(wants, states, moves) && |states| == |moves| + 1 && states[|moves|] == System(b, Down, None, [])
    ensures moves == []
  {
    states, moves := [System(b, Down, None, [])], [];
  }

  lemma Extend<V>(wants: V -> bool, states: seq<System<V>>, moves: seq<Move<V>>, m: Move<V>, s': System<V>)
      returns (states': seq<System<V>>, moves': seq<Move<V>>)
    requires IsSession(wants, states, moves) && |states| == |moves| + 1
    requires Moves(wants, states[|moves|], m, s')
    ensures IsSession(wants, states', moves') && |states'| == |moves'| + 1 && states'[|moves'|] == s'
    ensures states' == states + [s'] && moves' == moves + [m]
  {
    hide Moves;
    states', moves' := states + [s'], moves + [m];
    forall i | 0 <= i < |moves'|
      ensures Moves(wants, states'[i], moves'[i], states'[i + 1])
    {
      if i < |moves| {
        assert states'[i] == states[i] && states'[i + 1] == states[i + 1] && moves'[i] == moves[i];
      } else {
        assert states'[i] == states[i];
      }
    }
  }

  lemma FirstPublishes<V>(e: V)
    ensures var b0: Bus<V> := Bus([], None, Free, []);
            var b1 := Bus([Row(1, e)], None, Committed(1), []);
            var b2 := Bus([Row(1, e)], Some(1), Free, [1]);
            && Enabled(b0, Commit(e)) && Next(b0, Commit(e)) == b1
            && Enabled(b1, Broadcast) && Next(b1, Broadcast) == b2
            && Enabled(b2, Commit(e))
            && Next(b2, Commit(e)) == Bus([Row(1, e)] + [Row(2, e)], Some(1), Committed(2), [1])
  {
    assert [] + [Row(1, e)] == [Row(1, e)];
    assert [] + [1] == [1];
  }
}
