/**
  The incremental SSE frame parser of the OpenAI-compatible provider.

  `SseParser` keeps the imperative shape of the source: a byte buffer that `Push` extends and drains.
  Its methods are proved against `SplitFrames`, a function of the whole byte string, and the lemmas at
  the end show that how the bytes were cut into chunks cannot be observed.
 */
module SseParser {
  import opened Common
  import opened Utf8

  const LF: Byte := 10
  const CR: Byte := 13
  datatype SseFrame = SseFrame(event: Option<string>, data: string)

  // ----- separators ---------------------------------------------------------------------------

  predicate LfLfAt(b: seq<Byte>, i: nat)
  {
    i + 2 <= |b| && b[i] == LF && b[i + 1] == LF
  }

  predicate CrLfCrLfAt(b: seq<Byte>, i: nat)
  {
    i + 4 <= |b| && b[i] == CR && b[i + 1] == LF && b[i + 2] == CR && b[i + 3] == LF
  }

  predicate SeparatorAt(b: seq<Byte>, i: nat) { LfLfAt(b, i) || CrLfCrLfAt(b, i) }

  /** The first index of a two-byte window `\n\n` at or after `from`. */
  function FirstLfLf(b: seq<Byte>, from: nat): (r: Option<nat>)
    ensures r.Some? ==> from <= r.value <= |b| - 2
    decreases |b| - from
  {
    if from + 2 > |b| then None
    else if LfLfAt(b, from) then Some(from)
    else FirstLfLf(b, from + 1)
  }

  /** The first index of a four-byte window `\r\n\r\n` at or after `from`. */
  function FirstCrLfCrLf(b: seq<Byte>, from: nat): (r: Option<nat>)
    ensures r.Some? ==> from <= r.value <= |b| - 4
    decreases |b| - from
  {
    if from + 4 > |b| then None
    else if CrLfCrLfAt(b, from) then Some(from)
    else FirstCrLfCrLf(b, from + 1)
  }

  datatype Separator = Separator(pos: nat, len: nat)

  /** The earliest separator of either kind. */
  function NextSeparator(b: seq<Byte>): (r: Option<Separator>)
    ensures r.Some? ==> 2 <= r.value.len && r.value.pos + r.value.len <= |b|
  {
    var lf := FirstLfLf(b, 0);
    var crlf := FirstCrLfCrLf(b, 0);
    match (lf, crlf)
    case (Some(i), Some(j)) => if i <= j then Some(Separator(i, 2)) else Some(Separator(j, 4))
    case (Some(i), None) => Some(Separator(i, 2))
    case (None, Some(j)) => Some(Separator(j, 4))
    case (None, None) => None
  }

  lemma {:induction false} FirstLfLfIsFirst(b: seq<Byte>, from: nat)
    ensures var r := FirstLfLf(b, from);
            && (r.Some? ==> LfLfAt(b, r.value))
            && forall j: nat :: from <= j && (r.Some? ==> j < r.value) ==> !LfLfAt(b, j)
    decreases |b| - from
  {
    if from + 2 <= |b| && !LfLfAt(b, from) { FirstLfLfIsFirst(b, from + 1); }
  }

  lemma {:induction false} FirstCrLfCrLfIsFirst(b: seq<Byte>, from: nat)
    ensures var r := FirstCrLfCrLf(b, from);
            && (r.Some? ==> CrLfCrLfAt(b, r.value))
            && forall j: nat :: from <= j && (r.Some? ==> j < r.value) ==> !CrLfCrLfAt(b, j)
    decreases |b| - from
  {
    if from + 4 <= |b| && !CrLfCrLfAt(b, from) { FirstCrLfCrLfIsFirst(b, from + 1); }
  }

  /** `r` names the earliest separator: no index before it starts one, whatever its kind. */
  ghost predicate Earliest(b: seq<Byte>, r: Option<Separator>)
  {
    match r
    case None => forall i: nat :: !SeparatorAt(b, i)
    case Some(s) =>
      && SeparatorAt(b, s.pos)
      && s.len == (if LfLfAt(b, s.pos) then 2 else 4)
      && forall i: nat :: i < s.pos ==> !SeparatorAt(b, i)
  }

  /** `Earliest` determines the separator, and `NextSeparator` returns it. */
  lemma NextSeparatorIsEarliest(b: seq<Byte>, r: Option<Separator>)
    ensures r == NextSeparator(b) <==> Earliest(b, r)
  {
    FirstLfLfIsFirst(b, 0);
    FirstCrLfCrLfIsFirst(b, 0);
    var s := NextSeparator(b);
    assert Earliest(b, s);
    if r.Some? && s.Some? && Earliest(b, r) {
      assert r.value.pos == s.value.pos;
    }
  }

  /**
    No later byte can reveal an earlier separator.  The only danger is a `\r\n\r\n` that starts before a
    complete `\n\n` and still misses its end: it would have to overlap the `\n\n`, and the two disagree.
   */
  lemma SeparatorIsStable(b: seq<Byte>, more: seq<Byte>)
    requires NextSeparator(b).Some?
    ensures NextSeparator(b + more) == NextSeparator(b)
  {
    var r := NextSeparator(b);
    NextSeparatorIsEarliest(b, r);
    assert LfLfAt(b + more, r.value.pos) <==> LfLfAt(b, r.value.pos);
    forall i: nat | i < r.value.pos
      ensures !SeparatorAt(b + more, i)
    {
      assert !SeparatorAt(b, i);
    }
    NextSeparatorIsEarliest(b + more, r);
  }

  // ----- splitting ----------------------------------------------------------------------------

  datatype Split = Split(bodies: seq<seq<Byte>>, rest: seq<Byte>)

  /** Every complete frame body of `b`, and the bytes that no separator closes yet. */
  function SplitFrames(b: seq<Byte>): (r: Split)
    ensures NextSeparator(r.rest).None?
    ensures |r.rest| <= |b|
    decreases |b|
  {
    match NextSeparator(b)
    case None => Split([], b)
    case Some(s) =>
      var tail := SplitFrames(b[s.pos + s.len..]);
      Split([b[..s.pos]] + tail.bodies, tail.rest)
  }

  /** Splitting what one splitting left over together with more bytes. */
  function SplitAgain(first: Split, more: seq<Byte>): Split
  {
    var second := SplitFrames(first.rest + more);
    Split(first.bodies + second.bodies, second.rest)
  }

  /** Two stages of splitting are one. */
  lemma {:induction false} SplitComposes(b: seq<Byte>, more: seq<Byte>)
    ensures SplitFrames(b + more) == SplitAgain(SplitFrames(b), more)
    decreases |b|
  {
    hide NextSeparator, SplitFrames, SplitAgain;
    SplitUnfolds(b);
    match NextSeparator(b)
    case None => AgainFromNothing(b, more);
    case Some(s) =>
      SeparatorIsStable(b, more);
      SplitUnfolds(b + more);
      var cut := s.pos + s.len;
      assert (b + more)[cut..] == b[cut..] + more;
      assert (b + more)[..s.pos] == b[..s.pos];
      SplitComposes(b[cut..], more);
      AgainKeepsBody(b[..s.pos], SplitFrames(b[cut..]), more);
  }

  lemma AgainFromNothing(b: seq<Byte>, more: seq<Byte>)
    ensures SplitAgain(Split([], b), more) == SplitFrames(b + more)
  {
    hide SplitFrames;
    assert [] + SplitFrames(b + more).bodies == SplitFrames(b + more).bodies;
  }

  lemma AgainKeepsBody(body: seq<Byte>, tail: Split, more: seq<Byte>)
    ensures SplitAgain(Split([body] + tail.bodies, tail.rest), more)
         == Split([body] + SplitAgain(tail, more).bodies, SplitAgain(tail, more).rest)
  {
    hide SplitFrames;
    var second := SplitFrames(tail.rest + more);
    assert [body] + (tail.bodies + second.bodies) == [body] + tail.bodies + second.bodies;
  }

  lemma SplitUnfolds(b: seq<Byte>)
    ensures match NextSeparator(b)
            case None => SplitFrames(b) == Split([], b)
            case Some(s) =>
              var tail := SplitFrames(b[s.pos + s.len..]);
              SplitFrames(b) == Split([b[..s.pos]] + tail.bodies, tail.rest)
  {
    hide NextSeparator;
  }

  /** `bodies`, each closed by one of the two separators, and then `rest`, spell `b`. */
  ghost predicate Spells(bodies: seq<seq<Byte>>, rest: seq<Byte>, b: seq<Byte>)
  {
    if bodies == [] then b == rest
    else
      var n := |bodies[0]|;
      || (LfLfAt(b, n) && b[..n] == bodies[0] && Spells(bodies[1..], rest, b[n + 2..]))
      || (CrLfCrLfAt(b, n) && b[..n] == bodies[0] && Spells(bodies[1..], rest, b[n + 4..]))
  }

  lemma BodyHasNoSeparator(b: seq<Byte>, s: Separator)
    requires NextSeparator(b) == Some(s)
    ensures NextSeparator(b[..s.pos]).None?
    ensures (s.len == 2 && LfLfAt(b, s.pos)) || (s.len == 4 && CrLfCrLfAt(b, s.pos))
  {
    NextSeparatorIsEarliest(b, Some(s));
    var body := b[..s.pos];
    forall i: nat
      ensures !SeparatorAt(body, i)
    {
      assert i < s.pos ==> !SeparatorAt(b, i);
    }
    NextSeparatorIsEarliest(body, None);
  }

  /** Bytes are conserved, and every body is cut as early as it can be. */
  lemma {:induction false} SplitConservesBytes(b: seq<Byte>)
    ensures Spells(SplitFrames(b).bodies, SplitFrames(b).rest, b)
    ensures forall body :: body in SplitFrames(b).bodies ==> NextSeparator(body).None?
    decreases |b|
  {
    hide NextSeparator, SplitFrames, LfLfAt, CrLfCrLfAt;
    SplitUnfolds(b);
    match NextSeparator(b)
    case None =>
    case Some(s) =>
      BodyHasNoSeparator(b, s);
      SplitConservesBytes(b[s.pos + s.len..]);
      var tail := SplitFrames(b[s.pos + s.len..]);
      assert ([b[..s.pos]] + tail.bodies)[1..] == tail.bodies;
  }

  // ----- one frame ----------------------------------------------------------------------------

  /** Unicode `White_Space`, which Rust's `trim` family strips. */
  predicate IsSpace(c: char)
  {
    || '\U{0009}' <= c <= '\U{000D}' || c == ' ' || c == '\U{0085}' || c == '\U{00A0}' || c == '\U{1680}'
    || '\U{2000}' <= c <= '\U{200A}' || c == '\U{2028}' || c == '\U{2029}' || c == '\U{202F}'
    || c == '\U{205F}' || c == '\U{3000}'
  }

  function TrimStart(s: string): (r: string)
    ensures r == "" || !IsSpace(r[0])
    ensures |r| <= |s| && r == s[|s| - |r|..]
  {
    if s != "" && IsSpace(s[0]) then TrimStart(s[1..]) else s
  }

  function TrimEnd(s: string): (r: string)
    ensures r == "" || !IsSpace(r[|r| - 1])
    ensures |r| <= |s| && r == s[..|r|]
  {
    if s != "" && IsSpace(s[|s| - 1]) then TrimEnd(s[..|s| - 1]) else s
  }

  function Trim(s: string): string { TrimEnd(TrimStart(s)) }

  /** `str::lines`: cut at every `\n`, dropping one `\r` before it; a last line without `\n` keeps its `\r`. */
  function Lines(s: string): (r: seq<string>)
    decreases |s|
  {
    if s == "" then []
    else
      var n := LineLength(s);
      if n == |s| then [s]
      else [DropCarriageReturn(s[..n])] + Lines(s[n + 1..])
  }

  function LineLength(s: string): (n: nat)
    ensures n <= |s|
    ensures n < |s| ==> s[n] == '\n'
    ensures '\n' !in s[..n]
  {
    if s == "" || s[0] == '\n' then 0 else 1 + LineLength(s[1..])
  }

  function DropCarriageReturn(s: string): string
  {
    if s != "" && s[|s| - 1] == '\r' then s[..|s| - 1] else s
  }

  function StripPrefix(s: string, p: string): (r: Option<string>)
    ensures r.Some? ==> s == p + r.value
    ensures r.None? ==> !(p <= s)
  {
    if p <= s then Some(s[|p|..]) else None
  }

  const EVENT := "event:"
  const DATA := "data:"

  /** The names on the `event:` lines, in order. */
  function EventNames(lines: seq<string>): seq<string>
  {
    if lines == [] then []
    else
      var front := EventNames(lines[..|lines| - 1]);
      match StripPrefix(lines[|lines| - 1], EVENT)
      case Some(name) => front + [Trim(name)]
      case None => front
  }

  /** The bodies of the `data:` lines, in order. */
  function DataBodies(lines: seq<string>): seq<string>
  {
    if lines == [] then []
    else
      var front := DataBodies(lines[..|lines| - 1]);
      match StripPrefix(lines[|lines| - 1], DATA)
      case Some(body) => front + [TrimStart(body)]
      case None => front
  }

  function Join(xs: seq<string>, sep: string): string
  {
    if xs == [] then "" else if |xs| == 1 then xs[0] else xs[0] + sep + Join(xs[1..], sep)
  }

  function Last(xs: seq<string>): Option<string>
  {
    if xs == [] then None else Some(xs[|xs| - 1])
  }

  /** The frame a body denotes: the last event name, and the data lines joined by newlines. */
  function FrameOf(text: string): Option<SseFrame>
  {
    var lines := Lines(Trim(text));
    var event := Last(EventNames(lines));
    var data := DataBodies(lines);
    if data == [] then
      if event.Some? then Some(SseFrame(event, "")) else None
    else Some(SseFrame(event, Join(data, "\n")))
  }

  /** The line loop of `parse_frame`. */
  method FoldLines(lines: seq<string>) returns (eventName: Option<string>, dataLines: seq<string>)
    ensures eventName == Last(EventNames(lines))
    ensures dataLines == DataBodies(lines)
  {
    eventName, dataLines := None, [];
    for i := 0 to |lines|
      invariant eventName == Last(EventNames(lines[..i]))
      invariant dataLines == DataBodies(lines[..i])
    {
      var line := lines[i];
      assert lines[..i + 1][..i] == lines[..i];
      PrefixesExclude(line);
      if ":" <= line {
        continue;
      }
      var name := StripPrefix(line, EVENT);
      if name.Some? {
        eventName := Some(Trim(name.value));
        continue;
      }
      var data := StripPrefix(line, DATA);
      if data.Some? {
        dataLines := dataLines + [TrimStart(data.value)];
      }
    }
    assert lines[..|lines|] == lines;
  }

  method ParseFrame(text: string) returns (r: Option<SseFrame>)
    ensures r == FrameOf(text)
  {
    var trimmed := Trim(text);
    if trimmed == "" {
      return None;
    }
    var eventName, dataLines := FoldLines(Lines(trimmed));
    if dataLines == [] {
      return if eventName.Some? then Some(SseFrame(eventName, "")) else None;
    }
    return Some(SseFrame(eventName, Join(dataLines, "\n")));
  }

  lemma PrefixesExclude(line: string)
    ensures ":" <= line ==> StripPrefix(line, EVENT).None? && StripPrefix(line, DATA).None?
    ensures StripPrefix(line, EVENT).Some? ==> StripPrefix(line, DATA).None?
  {
    assert EVENT[0] == 'e' && DATA[0] == 'd';
  }

  function FramesIn(text: string): seq<SseFrame>
  {
    match FrameOf(text)
    case Some(f) => [f]
    case None => []
  }

  function FrameList(body: seq<Byte>): seq<SseFrame> { FramesIn(DecodeLossy(body)) }

  /** The frames of complete bodies, data-less ones skipped. */
  function FramesOf(bodies: seq<seq<Byte>>): seq<SseFrame>
  {
    if bodies == [] then [] else FrameList(bodies[0]) + FramesOf(bodies[1..])
  }

  lemma {:induction false} FramesOfAppend(xs: seq<seq<Byte>>, ys: seq<seq<Byte>>)
    ensures FramesOf(xs + ys) == FramesOf(xs) + FramesOf(ys)
  {
    if xs == [] {
      assert xs + ys == ys;
    } else {
      assert (xs + ys)[1..] == xs[1..] + ys;
      FramesOfAppend(xs[1..], ys);
    }
  }

  /** The frame, if any, that `finish` makes of the unterminated rest. */
  function TailFrames(rest: seq<Byte>): seq<SseFrame>
  {
    if rest == [] then [] else FrameList(rest)
  }

  lemma EmptyFrames()
    ensures FramesOf([]) == []
  {
  }

  lemma FramesOfSnoc(xs: seq<seq<Byte>>, x: seq<Byte>)
    ensures FramesOf(xs + [x]) == FramesOf(xs) + FrameList(x)
  {
    FramesOfAppend(xs, [x]);
    assert [x][1..] == [];
    assert FrameList(x) + [] == FrameList(x);
  }

  /** Progress of the drain loop: `taken` bodies came off the front of `whole`, the rest are in `buffer`. */
  ghost predicate Drained(whole: Split, taken: seq<seq<Byte>>, buffer: seq<Byte>)
  {
    whole == Split(taken + SplitFrames(buffer).bodies, SplitFrames(buffer).rest)
  }

  lemma DrainStart(b: seq<Byte>)
    ensures Drained(SplitFrames(b), [], b)
  {
    assert [] + SplitFrames(b).bodies == SplitFrames(b).bodies;
  }

  lemma DrainStep(whole: Split, taken: seq<seq<Byte>>, b: seq<Byte>, s: Separator)
    requires Drained(whole, taken, b)
    requires NextSeparator(b) == Some(s)
    ensures Drained(whole, taken + [b[..s.pos]], b[s.pos + s.len..])
    ensures FramesOf(taken + [b[..s.pos]]) == FramesOf(taken) + FramesIn(DecodeLossy(b[..s.pos]))
  {
    hide NextSeparator, SplitFrames, FramesOf, DecodeLossy, FramesIn;
    SplitUnfolds(b);
    var later := SplitFrames(b[s.pos + s.len..]).bodies;
    assert taken + ([b[..s.pos]] + later) == taken + [b[..s.pos]] + later;
    FramesOfSnoc(taken, b[..s.pos]);
  }

  lemma DrainEnd(whole: Split, taken: seq<seq<Byte>>, b: seq<Byte>)
    requires Drained(whole, taken, b)
    requires NextSeparator(b).None?
    ensures whole == Split(taken, b)
  {
    assert taken + [] == taken;
  }

  // ----- the parser object --------------------------------------------------------------------

  class Parser {
    var buffer: seq<Byte>

    constructor ()
      ensures buffer == []
    {
      buffer := [];
    }

    /** `parse_frame` as the iterator its callers extend their output with. */
    method ParseFrames(text: string) returns (fs: seq<SseFrame>)
      ensures fs == FramesIn(text)
    {
      var frame := ParseFrame(text);
      fs := if frame.Some? then [frame.value] else [];
    }

    method NextFrame() returns (r: Option<string>)
      modifies this
      ensures NextSeparator(old(buffer)).None? ==> r == None && buffer == old(buffer)
      ensures NextSeparator(old(buffer)).Some? ==>
                var s := NextSeparator(old(buffer)).value;
                && r == Some(DecodeLossy(old(buffer)[..s.pos]))
                && buffer == old(buffer)[s.pos + s.len..]
    {
      var sep := NextSeparator(buffer);
      if sep.None? {
        return None;
      }
      var drained := buffer[..sep.value.pos + sep.value.len];
      buffer := buffer[sep.value.pos + sep.value.len..];
      var body := drained[..|drained| - sep.value.len];
      assert body == old(buffer)[..sep.value.pos];
      r := Some(DecodeLossy(body));
    }

    /** Appends `chunk` and returns every frame now complete; the incomplete rest stays buffered. */
    method Push(chunk: seq<Byte>) returns (out: seq<SseFrame>)
      modifies this
      ensures out == FramesOf(SplitFrames(old(buffer) + chunk).bodies)
      ensures buffer == SplitFrames(old(buffer) + chunk).rest
    {
      hide *;
      buffer := buffer + chunk;
      ghost var whole, taken := SplitFrames(buffer), [];
      DrainStart(buffer);
      EmptyFrames();
      out := [];
      while true
        invariant out == FramesOf(taken)
        invariant Drained(whole, taken, buffer)
        decreases |buffer|
      {
        ghost var before := buffer;
        var text := NextFrame();
        if text.None? {
          DrainEnd(whole, taken, buffer);
          return;
        }
        ghost var s := NextSeparator(before).value;
        DrainStep(whole, taken, before, s);
        var frames := ParseFrames(text.value);
        out := out + frames;
        taken := taken + [before[..s.pos]];
      }
    }

    /** Drains a trailing frame that no separator closed. */
    method Finish() returns (out: seq<SseFrame>)
      modifies this
      ensures out == TailFrames(old(buffer))
      ensures buffer == []
    {
      if buffer == [] {
        return [];
      }
      var trailing := buffer;
      buffer := [];
      out := ParseFrames(DecodeLossy(trailing));
    }
  }

  // ----- chunking -----------------------------------------------------------------------------

  /** The bodies a parser drains over a list of chunks, one `Push` each, and the buffer it is left with. */
  function Receive(buffer: seq<Byte>, chunks: seq<seq<Byte>>): Split
    decreases |chunks|
  {
    if chunks == [] then Split([], buffer)
    else
      var s := SplitFrames(buffer + chunks[0]);
      var later := Receive(s.rest, chunks[1..]);
      Split(s.bodies + later.bodies, later.rest)
  }

  /** All that a fresh parser returns over `chunks`: the `Push` results, then `Finish`. */
  function ParseStream(chunks: seq<seq<Byte>>): seq<SseFrame>
  {
    var s := Receive([], chunks);
    FramesOf(s.bodies) + TailFrames(s.rest)
  }

  lemma {:induction false} ReceiveIsOneSplit(buffer: seq<Byte>, chunks: seq<seq<Byte>>)
    requires NextSeparator(buffer).None?
    ensures Receive(buffer, chunks) == SplitFrames(buffer + Flatten(chunks))
    decreases |chunks|
  {
    hide NextSeparator;
    if chunks == [] {
      assert buffer + Flatten(chunks) == buffer;
    } else {
      var first := SplitFrames(buffer + chunks[0]);
      ReceiveIsOneSplit(first.rest, chunks[1..]);
      SplitComposes(buffer + chunks[0], Flatten(chunks[1..]));
      assert buffer + chunks[0] + Flatten(chunks[1..]) == buffer + Flatten(chunks);
    }
  }

  /** However a byte string is cut into chunks, the parser returns the same frames. */
  lemma ChunkingIsInvisible(chunks: seq<seq<Byte>>, chunks': seq<seq<Byte>>)
    requires Flatten(chunks) == Flatten(chunks')
    ensures ParseStream(chunks) == ParseStream(chunks')
  {
    ReceiveIsOneSplit([], chunks);
    ReceiveIsOneSplit([], chunks');
  }

  /** A push adds the frames its bytes complete, and leaves the split of everything seen. */
  lemma FeedChunk(seen: seq<Byte>, chunk: seq<Byte>)
    ensures SplitFrames(seen + chunk).rest == SplitFrames(SplitFrames(seen).rest + chunk).rest
    ensures FramesOf(SplitFrames(seen + chunk).bodies)
         == FramesOf(SplitFrames(seen).bodies) + FramesOf(SplitFrames(SplitFrames(seen).rest + chunk).bodies)
  {
    hide FramesOf, SplitFrames;
    SplitComposes(seen, chunk);
    FramesOfAppend(SplitFrames(seen).bodies, SplitFrames(SplitFrames(seen).rest + chunk).bodies);
  }

  /** One parser object fed chunk by chunk, as the decoder task does. */
  method ReceiveAll(chunks: seq<seq<Byte>>) returns (out: seq<SseFrame>)
    ensures out == FramesOf(SplitFrames(Flatten(chunks)).bodies) + TailFrames(SplitFrames(Flatten(chunks)).rest)
  {
    var parser := new Parser();
    out := [];
    ghost var seen: seq<Byte> := [];
    assert SplitFrames(seen) == Split([], []) && FramesOf([]) == [];
    hide SplitFrames, FramesOf, Flatten, TailFrames;
    for i := 0 to |chunks|
      invariant seen == Flatten(chunks[..i])
      invariant parser.buffer == SplitFrames(seen).rest
      invariant out == FramesOf(SplitFrames(seen).bodies)
    {
      var frames := parser.Push(chunks[i]);
      FeedChunk(seen, chunks[i]);
      SnocChunk(chunks, i);
      seen := seen + chunks[i];
      out := out + frames;
    }
    assert chunks[..|chunks|] == chunks;
    var tail := parser.Finish();
    out := out + tail;
  }
}
