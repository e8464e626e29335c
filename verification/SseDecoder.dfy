/**
  The decoder task: parse the byte stream, turn each payload into deltas, forward them until the
  terminator, the first decode error or the end of the stream.  JSON decoding is a parameter.
 */
module SseDecoder {
  import opened Common
  import opened Utf8
  import opened SseParser
  import opened SsePrinter

  const DONE := "[DONE]"
  const PING := "ping"

  predicate IsDone(f: SseFrame) { f.data == DONE }

  /** Heartbeats and empty payloads carry nothing to decode. */
  predicate IsSilent(f: SseFrame) { f.event == Some(PING) || f.data == "" }

  /** How the byte stream ended: closed by the upstream, or broken by an error, a timeout or a cancel. */
  datatype End<E> = Closed | Broken(error: E)

  datatype Processed<D, E> = Processed(out: seq<Result<D, E>>, stopped: bool)

  function OkAll<D, E>(ds: seq<D>): (r: seq<Result<D, E>>)
    ensures |r| == |ds| && forall i :: 0 <= i < |ds| ==> r[i] == Ok(ds[i])
  {
    seq(|ds|, i requires 0 <= i < |ds| => Ok(ds[i]))
  }

  /** What one frame sends, and whether it ends the task. */
  function ProcessFrame<D, E>(decode: string -> Result<seq<D>, E>, f: SseFrame): Processed<D, E>
  {
    if IsDone(f) then Processed([], true)
    else if IsSilent(f) then Processed([], false)
    else
      match decode(f.data)
      case Ok(ds) => Processed(OkAll(ds), false)
      case Err(e) => Processed([Err(e)], true)
  }

  /** What a list of frames sends: everything up to the first frame that ends the task. */
  function Process<D, E>(decode: string -> Result<seq<D>, E>, frames: seq<SseFrame>): Processed<D, E>
  {
    if frames == [] then Processed([], false)
    else
      var p := ProcessFrame(decode, frames[0]);
      if p.stopped then p
      else
        var later := Process(decode, frames[1..]);
        Processed(p.out + later.out, later.stopped)
  }

  /** The unterminated tail: a terminator or a decode error in it is dropped in silence. */
  function ProcessTail<D, E>(decode: string -> Result<seq<D>, E>, frames: seq<SseFrame>): seq<Result<D, E>>
  {
    if frames == [] then []
    else
      var later := ProcessTail(decode, frames[1..]);
      if IsDone(frames[0]) || IsSilent(frames[0]) then later
      else
        match decode(frames[0].data)
        case Ok(ds) => OkAll(ds) + later
        case Err(_) => later
  }

  /** Everything the task sends, as a function of the bytes alone. */
  function DecodeStream<D, E>(decode: string -> Result<seq<D>, E>, bytes: seq<Byte>, end: End<E>): seq<Result<D, E>>
  {
    var s := SplitFrames(bytes);
    var p := Process(decode, FramesOf(s.bodies));
    if p.stopped then p.out
    else
      match end
      case Closed => p.out + ProcessTail(decode, TailFrames(s.rest))
      case Broken(e) => p.out + [Err(e)]
  }

  lemma {:induction false} ProcessAppend<D, E>(decode: string -> Result<seq<D>, E>, xs: seq<SseFrame>,
                                               ys: seq<SseFrame>)
    ensures var p := Process(decode, xs);
            var q := Process(decode, ys);
            Process(decode, xs + ys) == if p.stopped then p else Processed(p.out + q.out, q.stopped)
  {
    hide ProcessFrame;
    var q := Process(decode, ys);
    if xs == [] {
      assert xs + ys == ys;
      assert [] + q.out == q.out;
    } else {
      assert (xs + ys)[1..] == xs[1..] + ys;
      ProcessAppend(decode, xs[1..], ys);
      var p := ProcessFrame(decode, xs[0]);
      var later := Process(decode, xs[1..]);
      assert p.out + (later.out + q.out) == p.out + later.out + q.out;
    }
  }

  lemma ProcessSnoc<D, E>(decode: string -> Result<seq<D>, E>, xs: seq<SseFrame>, f: SseFrame)
    requires !Process(decode, xs).stopped
    ensures var p := Process(decode, xs);
            var q := ProcessFrame(decode, f);
            Process(decode, xs + [f]) == Processed(p.out + q.out, q.stopped)
  {
    hide ProcessFrame;
    ProcessAppend(decode, xs, [f]);
    assert [f][1..] == [];
    assert ProcessFrame(decode, f).out + [] == ProcessFrame(decode, f).out;
  }

  // ----- the channel --------------------------------------------------------------------------

  /** Whether `s` is no more than the receiver takes before it goes away, if it does. */
  predicate Fits<X>(s: seq<X>, room: Option<nat>) { room.None? || |s| <= room.value }

  /** What the receiver gets of `s`. */
  function Cut<X>(s: seq<X>, room: Option<nat>): seq<X> { if Fits(s, room) then s else s[..room.value] }

  lemma CutPrefix<X>(p: seq<X>, s: seq<X>, room: Option<nat>)
    requires p <= s && !Fits(p, room)
    ensures Cut(s, room) == Cut(p, room)
  {
  }

  /** The sending half; `room` is how many sends succeed. */
  class Channel<X> {
    const room: Option<nat>
    var received: seq<X>

    constructor (room: Option<nat>)
      ensures this.room == room && received == []
    {
      this.room, this.received := room, [];
    }

    method Send(x: X) returns (ok: bool)
      requires Fits(received, room)
      modifies this
      ensures ok == Fits(old(received) + [x], room) && received == Cut(old(received) + [x], room)
    {
      ok := room.None? || |received| < room.value;
      if ok { received := received + [x]; }
    }

    /** Sends until a send fails. */
    method SendAll(xs: seq<X>) returns (ok: bool)
      requires Fits(received, room)
      modifies this
      ensures ok == Fits(old(received) + xs, room) && received == Cut(old(received) + xs, room)
    {
      ghost var before := received;
      assert before + [] == before;
      for i := 0 to |xs|
        invariant received == before + xs[..i] && Fits(received, room)
      {
        ok := Send(xs[i]);
        assert before + xs[..i] + [xs[i]] == before + xs[..i + 1];
        if !ok {
          CutPrefix(before + xs[..i + 1], before + xs, room);
          return;
        }
      }
      assert xs[..|xs|] == xs;
      ok := true;
    }
  }

  type Sent<D, E> = Channel<Result<D, E>>

  /** What one frame sends, on the channel. */
  method SendFrame<D, E>(decode: string -> Result<seq<D>, E>, f: SseFrame, tx: Sent<D, E>) returns (goOn: bool)
    requires Fits(tx.received, tx.room)
    modifies tx
    ensures var p := ProcessFrame(decode, f);
            && tx.received == Cut(old(tx.received) + p.out, tx.room)
            && goOn == (!p.stopped && Fits(old(tx.received) + p.out, tx.room))
  {
    assert tx.received + [] == tx.received;
    if IsDone(f) { return false; }
    if IsSilent(f) { return true; }
    var deltas := decode(f.data);
    match deltas
    case Ok(ds) => {
      goOn := tx.SendAll(OkAll(ds));
    }
    case Err(e) => {
      var _ := tx.Send(Err(e));
      goOn := false;
    }
  }

  /** The `for frame in frames` loop of the task, with its early returns. */
  method SendFrames<D, E>(decode: string -> Result<seq<D>, E>, frames: seq<SseFrame>, tx: Sent<D, E>)
      returns (goOn: bool)
    requires Fits(tx.received, tx.room)
    modifies tx
    ensures var p := Process(decode, frames);
            && tx.received == Cut(old(tx.received) + p.out, tx.room)
            && goOn == (!p.stopped && Fits(old(tx.received) + p.out, tx.room))
  {
    hide Process, ProcessFrame, Cut;
    ghost var before := tx.received;
    EmptyProcess(decode);
    assert before + [] == before;
    for i := 0 to |frames|
      invariant !Process(decode, frames[..i]).stopped && tx.received == before + Process(decode, frames[..i]).out
      invariant Fits(tx.received, tx.room)
    {
      FrameStep(decode, frames, i, before, tx.room);
      goOn := SendFrame(decode, frames[i], tx);
      if !goOn { return; }
      FitsWhole(before + Process(decode, frames[..i + 1]).out, tx.room);
    }
    assert frames[..|frames|] == frames;
    FitsWhole(tx.received, tx.room);
    goOn := true;
  }

  lemma FitsWhole<X>(s: seq<X>, room: Option<nat>)
    ensures Fits(s, room) ==> Cut(s, room) == s
  {
  }

  /** One frame on: either all is well so far, or what the receiver has is already what it gets of the whole. */
  lemma FrameStep<D, E>(decode: string -> Result<seq<D>, E>, frames: seq<SseFrame>, i: nat, before: seq<Result<D, E>>,
                        room: Option<nat>)
    requires i < |frames| && !Process(decode, frames[..i]).stopped
    ensures var p, f := Process(decode, frames[..i]), ProcessFrame(decode, frames[i]);
            var q, all := Process(decode, frames[..i + 1]), Process(decode, frames);
            && before + p.out + f.out == before + q.out && q.stopped == f.stopped
            && (q.stopped ==> all == q)
            && (!Fits(before + q.out, room) ==> Cut(before + all.out, room) == Cut(before + q.out, room))
            && (!Fits(before + q.out, room) ==> !Fits(before + all.out, room))
  {
    hide *;
    ThisFrame(decode, frames, i);
    var p, f := Process(decode, frames[..i]), ProcessFrame(decode, frames[i]);
    var q, all := Process(decode, frames[..i + 1]), Process(decode, frames);
    CutLater(before, p.out, f.out, all.out, room);
  }

  lemma ThisFrame<D, E>(decode: string -> Result<seq<D>, E>, frames: seq<SseFrame>, i: nat)
    requires i < |frames| && !Process(decode, frames[..i]).stopped
    ensures var p, f := Process(decode, frames[..i]), ProcessFrame(decode, frames[i]);
            var q, all := Process(decode, frames[..i + 1]), Process(decode, frames);
            q == Processed(p.out + f.out, f.stopped) && q.out <= all.out && (q.stopped ==> all == q)
  {
    hide Process, ProcessFrame;
    assert frames[..i + 1] == frames[..i] + [frames[i]];
    ProcessSnoc(decode, frames[..i], frames[i]);
    ProcessAppend(decode, frames[..i + 1], frames[i + 1..]);
    assert frames[..i + 1] + frames[i + 1..] == frames;
  }

  lemma CutLater<X>(before: seq<X>, p: seq<X>, f: seq<X>, all: seq<X>, room: Option<nat>)
    requires p + f <= all
    ensures before + p + f == before + (p + f)
    ensures !Fits(before + (p + f), room) ==>
              Cut(before + all, room) == Cut(before + (p + f), room) && !Fits(before + all, room)
  {
    assert before + (p + f) <= before + all;
    if !Fits(before + (p + f), room) { CutPrefix(before + (p + f), before + all, room); }
  }

  lemma EmptyProcess<D, E>(decode: string -> Result<seq<D>, E>)
    ensures Process(decode, []) == Processed([], false)
  {
  }

  method SendTail<D, E>(decode: string -> Result<seq<D>, E>, frames: seq<SseFrame>, tx: Sent<D, E>)
    requires Fits(tx.received, tx.room)
    modifies tx
    ensures tx.received == Cut(old(tx.received) + ProcessTail(decode, frames), tx.room)
  {
    ghost var all := tx.received + ProcessTail(decode, frames);
    hide Cut;
    for i := 0 to |frames|
      invariant tx.received + ProcessTail(decode, frames[i..]) == all && Fits(tx.received, tx.room)
    {
      assert frames[i..][1..] == frames[i + 1..];
      var f := frames[i];
      if IsDone(f) || IsSilent(f) {
        continue;
      }
      var deltas := decode(f.data);
      if deltas.Ok? {
        ghost var was, later := tx.received, ProcessTail(decode, frames[i + 1..]);
        assert was + (OkAll(deltas.value) + later) == was + OkAll(deltas.value) + later;
        var ok := tx.SendAll(OkAll(deltas.value));
        if !ok {
          CutPrefix(was + OkAll(deltas.value), all, tx.room);
          return;
        }
        FitsWhole(was + OkAll(deltas.value), tx.room);
      }
    }
    assert tx.received + [] == tx.received;
    FitsWhole(tx.received, tx.room);
  }

  /** What was sent so far is the beginning of all there is to send. */
  lemma SentSoFar<D, E>(decode: string -> Result<seq<D>, E>, frames: seq<SseFrame>, seen: seq<Byte>, later: seq<Byte>,
                        end: End<E>)
    requires frames == FramesOf(SplitFrames(seen).bodies)
    ensures Process(decode, frames).out <= DecodeStream(decode, seen + later, end)
    ensures Process(decode, frames).stopped ==> Process(decode, frames).out == DecodeStream(decode, seen + later, end)
  {
    hide Process, FramesOf, SplitFrames, ProcessTail, TailFrames;
    FeedChunk(seen, later);
    ProcessAppend(decode, frames, FramesOf(SplitFrames(SplitFrames(seen).rest + later).bodies));
  }

  /**
    The decoder task over any chunking.  What it sends is a function of the concatenated bytes and of how
    the stream ended, so no chunking of the same bytes can be told from another; a receiver that goes away
    has got a beginning of it.
   */
  method RunDecoder<D, E>(decode: string -> Result<seq<D>, E>, chunks: seq<seq<Byte>>, end: End<E>, tx: Sent<D, E>)
    requires tx.received == []
    modifies tx
    ensures tx.received == Cut(DecodeStream(decode, Flatten(chunks), end), tx.room)
  {
    hide Process, ProcessTail, FramesOf, SplitFrames, TailFrames, DecodeStream, Flatten, Cut;
    var parser := new Parser();
    ghost var seen: seq<Byte> := [];
    ghost var frames: seq<SseFrame> := [];
    ghost var all := DecodeStream(decode, Flatten(chunks), end);
    BeginStream(decode, chunks);
    for i := 0 to |chunks|
      invariant seen == Flatten(chunks[..i]) && fresh(parser)
      invariant parser.buffer == SplitFrames(seen).rest
      invariant frames == FramesOf(SplitFrames(seen).bodies)
      invariant Process(decode, frames) == Processed(tx.received, false) && Fits(tx.received, tx.room)
    {
      var more := parser.Push(chunks[i]);
      FeedChunk(seen, chunks[i]);
      ProcessAppend(decode, frames, more);
      SnocChunk(chunks, i);
      var goOn := SendFrames(decode, more, tx);
      frames := frames + more;
      seen := seen + chunks[i];
      if !goOn {
        SentSoFar(decode, frames, seen, Flatten(chunks[i + 1..]), end);
        EndEarly(Process(decode, frames), all, tx.room);
        return;
      }
      FitsWhole(Process(decode, frames).out, tx.room);
    }
    assert chunks[..|chunks|] == chunks;
    StreamEnds(decode, frames, seen, end);
    match end
    case Broken(e) => {
      var _ := tx.Send(Err(e));
    }
    case Closed => {
      var tail := parser.Finish();
      SendTail(decode, tail, tx);
    }
  }

  lemma BeginStream<D, E>(decode: string -> Result<seq<D>, E>, chunks: seq<seq<Byte>>)
    ensures Flatten(chunks[..0]) == [] && SplitFrames([]) == Split([], []) && FramesOf([]) == []
    ensures Process(decode, []) == Processed([], false)
  {
    EmptyStream();
  }

  lemma EndEarly<D, E>(p: Processed<D, E>, all: seq<Result<D, E>>, room: Option<nat>)
    requires p.out <= all && (p.stopped ==> p.out == all) && (p.stopped || !Fits(p.out, room))
    ensures Cut(p.out, room) == Cut(all, room)
  {
    if !Fits(p.out, room) { CutPrefix(p.out, all, room); }
  }

  lemma StreamEnds<D, E>(decode: string -> Result<seq<D>, E>, frames: seq<SseFrame>, bytes: seq<Byte>, end: End<E>)
    requires frames == FramesOf(SplitFrames(bytes).bodies) && !Process(decode, frames).stopped
    ensures DecodeStream(decode, bytes, end)
         == Process(decode, frames).out + match end
                                          case Closed => ProcessTail(decode, TailFrames(SplitFrames(bytes).rest))
                                          case Broken(e) => [Err(e)]
  {
    hide Process, FramesOf, SplitFrames, ProcessTail, TailFrames;
  }

  /** Once a frame has ended the task, bytes still to come cannot change what it sent. */
  lemma StoppedEarly<D, E>(decode: string -> Result<seq<D>, E>, frames: seq<SseFrame>, seen: seq<Byte>,
                           later: seq<Byte>)
    requires frames == FramesOf(SplitFrames(seen).bodies)
    requires Process(decode, frames).stopped
    ensures Process(decode, FramesOf(SplitFrames(seen + later).bodies)) == Process(decode, frames)
  {
    hide Process, FramesOf, SplitFrames;
    FeedChunk(seen, later);
    ProcessAppend(decode, frames, FramesOf(SplitFrames(SplitFrames(seen).rest + later).bodies));
  }

  // ----- what is sent, told from the frames ---------------------------------------------------

  /** A frame with something to decode. */
  predicate Carries(f: SseFrame) { f.data != "" && f.event != Some("ping") }

  /** The terminator, or a frame that carries data and does not decode. */
  predicate Ends<D, E>(decode: string -> Result<seq<D>, E>, f: SseFrame)
  {
    f.data == "[DONE]" || (Carries(f) && decode(f.data).Err?)
  }

  /** The deltas of frames none of which ends the task. */
  function Deltas<D, E>(decode: string -> Result<seq<D>, E>, frames: seq<SseFrame>): seq<D>
    requires forall i :: 0 <= i < |frames| ==> !Ends(decode, frames[i])
  {
    if frames == [] then []
    else
      var f := frames[|frames| - 1];
      assert !Ends(decode, f);
      Deltas(decode, frames[..|frames| - 1]) + if Carries(f) then decode(f.data).value else []
  }

  /** The error that ends the task at frame `n`, if one does. */
  function EndingError<D, E>(decode: string -> Result<seq<D>, E>, frames: seq<SseFrame>, n: nat): seq<Result<D, E>>
    requires n < |frames| ==> Ends(decode, frames[n])
  {
    if n < |frames| && frames[n].data != "[DONE]" then [Err(decode(frames[n].data).error)] else []
  }

  /** `n` is the first frame that ends the task, or the number of frames. */
  predicate FirstEnd<D, E>(decode: string -> Result<seq<D>, E>, frames: seq<SseFrame>, n: nat)
  {
    && n <= |frames|
    && (forall i :: 0 <= i < n ==> !Ends(decode, frames[i]))
    && (n < |frames| ==> Ends(decode, frames[n]))
  }

  lemma OkAllAppend<D, E>(xs: seq<D>, ys: seq<D>)
    ensures OkAll<D, E>(xs + ys) == OkAll(xs) + OkAll(ys)
  {
  }

  lemma {:induction false} UnendedFrames<D, E>(decode: string -> Result<seq<D>, E>, frames: seq<SseFrame>)
    requires forall i :: 0 <= i < |frames| ==> !Ends(decode, frames[i])
    ensures Process(decode, frames) == Processed(OkAll(Deltas(decode, frames)), false)
  {
    if frames == [] {
      assert OkAll<D, E>([]) == [];
    } else {
      var front, f := frames[..|frames| - 1], frames[|frames| - 1];
      UnendedFrames(decode, front);
      assert frames == front + [f];
      ProcessSnoc(decode, front, f);
      OkAllAppend<D, E>(Deltas(decode, front), if Carries(f) then decode(f.data).value else []);
      assert OkAll<D, E>([]) == [];
    }
  }

  /**
    What a list of frames sends: every delta of every frame that carries data, in order, up to the first
    frame that ends the task; and then its error, if it is not the terminator.
   */
  lemma SendsTheDeltas<D, E>(decode: string -> Result<seq<D>, E>, frames: seq<SseFrame>, n: nat)
    requires FirstEnd(decode, frames, n)
    ensures Process(decode, frames)
         == Processed(OkAll(Deltas(decode, frames[..n])) + EndingError(decode, frames, n), n < |frames|)
  {
    UnendedFrames(decode, frames[..n]);
    EndsThere(decode, frames, n);
    var sent: seq<Result<D, E>> := OkAll(Deltas(decode, frames[..n]));
    assert sent + [] == sent;
    if n == |frames| {
      assert frames[..n] == frames;
    } else {
      hide *;
      ThisFrame(decode, frames, n);
    }
  }

  lemma EndsThere<D, E>(decode: string -> Result<seq<D>, E>, frames: seq<SseFrame>, n: nat)
    requires FirstEnd(decode, frames, n)
    ensures n < |frames| ==> ProcessFrame(decode, frames[n]) == Processed(EndingError(decode, frames, n), true)
    ensures n == |frames| ==> EndingError(decode, frames, n) == []
  {
  }

  /** The frames of a tail that send anything: not the terminator, with data, and decoding. */
  predicate Speaks<D, E>(decode: string -> Result<seq<D>, E>, f: SseFrame) { Carries(f) && !Ends(decode, f) }

  /** In a tail every frame that can be decoded sends its deltas, and no other frame does anything. */
  lemma {:induction false} TailSendsTheDeltas<D, E>(decode: string -> Result<seq<D>, E>, xs: seq<SseFrame>, f: SseFrame,
                                                    ys: seq<SseFrame>)
    ensures ProcessTail(decode, xs + [f] + ys)
         == ProcessTail(decode, xs) + Spoken(decode, f) + ProcessTail(decode, ys)
  {
    hide ProcessTail, Speaks, OkAll;
    var own := Spoken(decode, f);
    if xs == [] {
      assert xs + [f] + ys == [f] + ys;
      TailHead(decode, f, ys);
      NoTail(decode);
      assert [] + own == own;
    } else {
      var x, rest := xs[0], xs[1..];
      assert xs + [f] + ys == [x] + (rest + [f] + ys) && xs == [x] + rest;
      TailSendsTheDeltas(decode, rest, f, ys);
      TailHead(decode, x, rest + [f] + ys);
      TailHead(decode, x, rest);
      var head, later, tail := Spoken(decode, x), ProcessTail(decode, rest), ProcessTail(decode, ys);
      assert head + (later + own + tail) == head + later + own + tail;
    }
  }

  /** What a frame of a tail sends. */
  function Spoken<D, E>(decode: string -> Result<seq<D>, E>, f: SseFrame): seq<Result<D, E>>
  {
    if Speaks(decode, f) then OkAll(decode(f.data).value) else []
  }

  lemma TailHead<D, E>(decode: string -> Result<seq<D>, E>, f: SseFrame, ys: seq<SseFrame>)
    ensures ProcessTail(decode, [f] + ys) == Spoken(decode, f) + ProcessTail(decode, ys)
  {
    assert ([f] + ys)[1..] == ys;
    assert [] + ProcessTail(decode, ys) == ProcessTail(decode, ys);
  }

  lemma NoTail<D, E>(decode: string -> Result<seq<D>, E>)
    ensures ProcessTail(decode, []) == []
  {
  }

  lemma StreamProcesses<D, E>(decode: string -> Result<seq<D>, E>, bytes: seq<Byte>, end: End<E>)
    ensures var p := Process(decode, FramesOf(SplitFrames(bytes).bodies));
            && (p.stopped ==> DecodeStream(decode, bytes, end) == p.out)
            && (!p.stopped && end.Broken? ==> DecodeStream(decode, bytes, end) == p.out + [Err(end.error)])
            && (!p.stopped && end.Closed? ==>
                  DecodeStream(decode, bytes, end) == p.out + ProcessTail(decode, TailFrames(SplitFrames(bytes).rest)))
  {
    hide Process, ProcessTail, FramesOf, SplitFrames, TailFrames;
  }

  /**
    The whole task, told from the bytes' frames: the deltas of the complete frames up to the first that ends
    it, and its error; or, if none does, the transport's error, or the deltas of the unterminated tail.
   */
  lemma StreamSends<D, E>(decode: string -> Result<seq<D>, E>, bytes: seq<Byte>, end: End<E>, n: nat)
    requires FirstEnd(decode, FramesOf(SplitFrames(bytes).bodies), n)
    ensures var frames := FramesOf(SplitFrames(bytes).bodies);
            var sent := OkAll(Deltas(decode, frames[..n])) + EndingError(decode, frames, n);
            && (n < |frames| ==> DecodeStream(decode, bytes, end) == sent)
            && (n == |frames| && end.Broken? ==> DecodeStream(decode, bytes, end) == sent + [Err(end.error)])
            && (n == |frames| && end.Closed? ==>
                  DecodeStream(decode, bytes, end) == sent + ProcessTail(decode, TailFrames(SplitFrames(bytes).rest)))
  {
    StreamProcesses(decode, bytes, end);
    hide *;
    SendsTheDeltas(decode, FramesOf(SplitFrames(bytes).bodies), n);
  }

  /**
    End to end with the mock provider: what was printed before the terminator sends its deltas, up to the
    first frame that does not decode, and nothing after it is sent, whatever the bytes that follow and however
    the stream ends.
   */
  lemma TerminatedStreamDecodes<D, E>(decode: string -> Result<seq<D>, E>, ps: seq<Printed>, junk: seq<Byte>,
                                      end: End<E>, n: nat)
    requires (forall p :: p in ps ==> Printable(p)) && FirstEnd(decode, DenotesAll(ps), n)
    ensures DecodeStream(decode, StreamBytes(ps + [Printed("", "[DONE]")]) + junk, end)
         == OkAll(Deltas(decode, DenotesAll(ps)[..n])) + EndingError(decode, DenotesAll(ps), n)
  {
    hide *;
    StopsAtTheTerminator(decode, ps, junk, end);
    SendsTheDeltas(decode, DenotesAll(ps), n);
  }

  lemma StopsAtTheTerminator<D, E>(decode: string -> Result<seq<D>, E>, ps: seq<Printed>, junk: seq<Byte>, end: End<E>)
    requires forall p :: p in ps ==> Printable(p)
    ensures DecodeStream(decode, StreamBytes(ps + [Printed("", "[DONE]")]) + junk, end)
         == Process(decode, DenotesAll(ps)).out
  {
    assert DONE == "[DONE]";
    hide Process, FramesOf, SplitFrames, StreamBytes, DenotesAll;
    var done := Printed("", DONE);
    var bytes := StreamBytes(ps + [done]);
    StreamSplits(ps + [done]);
    DenotesSnoc(ps, done);
    var frames := DenotesAll(ps) + [Denotes(done)];
    DoneStops(decode, DenotesAll(ps), Denotes(done));
    StoppedEarly(decode, frames, bytes, junk);
  }

  lemma DoneStops<D, E>(decode: string -> Result<seq<D>, E>, xs: seq<SseFrame>, f: SseFrame)
    requires IsDone(f)
    ensures Process(decode, xs + [f]) == Processed(Process(decode, xs).out, true)
  {
    ProcessAppend(decode, xs, [f]);
    assert Process(decode, xs).out + [] == Process(decode, xs).out;
  }

  lemma {:induction false} DenotesSnoc(ps: seq<Printed>, p: Printed)
    ensures DenotesAll(ps + [p]) == DenotesAll(ps) + [Denotes(p)]
  {
    hide Denotes;
    if ps == [] {
      assert [] + [p] == [p] && [p][1..] == [];
    } else {
      assert (ps + [p])[1..] == ps[1..] + [p];
      DenotesSnoc(ps[1..], p);
    }
  }
}
