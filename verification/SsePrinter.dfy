/**
  The mock provider's frame printer, and its round trip through the parser.
 */
module SsePrinter {
  import opened Common
  import opened Utf8
  import opened SseParser

  /** One frame as the scenarios write it; the empty name means "no event line". */
  datatype Printed = Printed(event: string, payload: string)

  function FrameText(p: Printed): string
  {
    if p.event == "" then "data: " + p.payload else "event: " + p.event + "\n" + "data: " + p.payload
  }

  /** `frame(event, payload)`. */
  function FrameBytes(p: Printed): seq<Byte> { Encode(FrameText(p) + "\n\n") }

  function StreamBytes(ps: seq<Printed>): seq<Byte>
  {
    if ps == [] then [] else FrameBytes(ps[0]) + StreamBytes(ps[1..])
  }

  predicate Trimmed(s: string)
  {
    s != "" ==> !IsSpace(s[0]) && !IsSpace(s[|s| - 1])
  }

  /** One line, and nothing at either end for the parser to trim. */
  predicate Printable(p: Printed)
  {
    '\n' !in p.event && Trimmed(p.event) && '\n' !in p.payload && Trimmed(p.payload)
  }

  function Denotes(p: Printed): SseFrame
  {
    SseFrame(if p.event == "" then None else Some(p.event), p.payload)
  }

  function DenotesAll(ps: seq<Printed>): seq<SseFrame>
  {
    if ps == [] then [] else [Denotes(ps[0])] + DenotesAll(ps[1..])
  }

  // ----- byte level: where the first separator is ---------------------------------------------

  /** A body of one or two newline-free lines, the second at least two bytes long, ends where it should. */
  lemma FirstSeparatorAfter(a: seq<Byte>, b: seq<Byte>, twoLines: bool, rest: seq<Byte>)
    requires LF !in a && LF !in b
    requires if twoLines then 2 <= |b| else b == []
    ensures var body := if twoLines then a + [LF] + b else a;
            NextSeparator(body + [LF, LF] + rest) == Some(Separator(|body|, 2))
  {
    var body := if twoLines then a + [LF] + b else a;
    var whole := body + [LF, LF] + rest;
    forall i: nat | i < |body|
      ensures whole[i] == LF <==> twoLines && i == |a|
      ensures !SeparatorAt(whole, i)
    {
      assert whole[i] == body[i];
    }
    assert LfLfAt(whole, |body|);
    NextSeparatorIsEarliest(whole, Some(Separator(|body|, 2)));
  }

  lemma FrameTextBytes(p: Printed)
    requires Printable(p)
    ensures LF !in Encode("data: " + p.payload) && 6 <= |Encode("data: " + p.payload)|
    ensures p.event != "" ==> LF !in Encode("event: " + p.event)
    ensures Encode(FrameText(p)) ==
              if p.event == "" then Encode("data: " + p.payload)
              else Encode("event: " + p.event) + [LF] + Encode("data: " + p.payload)
    ensures FrameBytes(p) == Encode(FrameText(p)) + [LF, LF]
  {
    EncodeAvoids("data: " + p.payload, '\n');
    EncodeAvoids("event: " + p.event, '\n');
    EncodeIsNoShorter("data: " + p.payload);
    NewlineBytes();
    EncodeAppend(FrameText(p), "\n\n");
    if p.event != "" {
      assert FrameText(p) == "event: " + p.event + "\n" + ("data: " + p.payload);
      EncodeAppend("event: " + p.event + "\n", "data: " + p.payload);
      EncodeAppend("event: " + p.event, "\n");
    }
  }

  lemma NewlineBytes()
    ensures Encode("\n") == [LF]
    ensures Encode("\n\n") == [LF, LF]
  {
    assert "\n"[1..] == "" && "\n\n"[1..] == "\n";
  }

  lemma {:induction false} EncodeIsNoShorter(s: string)
    ensures |s| <= |Encode(s)|
  {
    if s != "" { EncodeIsNoShorter(s[1..]); }
  }

  /** The parser cuts a printed frame exactly where the printer ended it. */
  lemma SplitsAtFrameEnd(p: Printed, rest: seq<Byte>)
    requires Printable(p)
    ensures NextSeparator(FrameBytes(p) + rest) == Some(Separator(|Encode(FrameText(p))|, 2))
    ensures |FrameBytes(p)| == |Encode(FrameText(p))| + 2
    ensures (FrameBytes(p) + rest)[..|Encode(FrameText(p))|] == Encode(FrameText(p))
  {
    FrameTextBytes(p);
    var data := Encode("data: " + p.payload);
    if p.event == "" {
      FirstSeparatorAfter(data, [], false, rest);
    } else {
      FirstSeparatorAfter(Encode("event: " + p.event), data, true, rest);
    }
  }

  // ----- text level: what the body parses to --------------------------------------------------

  lemma {:induction false} TrimEndKeeps(s: string, t: string)
    requires t != "" && !IsSpace(t[|t| - 1])
    ensures TrimEnd(s + t) == s + t
  {
    assert (s + t)[|s + t| - 1] == t[|t| - 1];
  }

  lemma TrimOfTrimmed(s: string)
    requires Trimmed(s)
    ensures Trim(s) == s && TrimStart(" " + s) == s && Trim(" " + s) == s
  {
    assert (" " + s)[1..] == s;
  }

  lemma TrimStartKeeps(s: string)
    requires s != "" && !IsSpace(s[0])
    ensures Trim(s) == TrimEnd(s)
  {
  }

  lemma TrimLastBlank(s: string, c: char)
    requires IsSpace(c)
    ensures TrimEnd(s + [c]) == TrimEnd(s)
  {
    assert (s + [c])[..|s|] == s;
  }

  /** `trim` on a whole body: only the blank after an empty payload's colon goes. */
  lemma TrimBody(head: string, payload: string)
    requires head == "" || head[0] == 'e'
    requires Trimmed(payload)
    ensures Trim(head + "data: " + payload) == head + "data:" + (if payload == "" then "" else " " + payload)
  {
    hide TrimEnd, Trim;
    var s := head + "data: " + payload;
    assert s[0] == 'e' || s[0] == 'd';
    TrimStartKeeps(s);
    if payload == "" {
      assert s == (head + "data:") + " ";
      TrimLastBlank(head + "data:", ' ');
      TrimEndKeeps(head, "data:");
      assert head + "data:" + "" == head + "data:";
    } else {
      TrimEndKeeps(head + "data: ", payload);
      assert s == head + "data:" + (" " + payload);
    }
  }

  lemma {:induction false} LineLengthAvoids(s: string)
    requires '\n' !in s
    ensures LineLength(s) == |s|
  {
    if s != "" { LineLengthAvoids(s[1..]); }
  }

  lemma {:induction false} LineLengthBefore(a: string, rest: string)
    requires '\n' !in a
    ensures LineLength(a + "\n" + rest) == |a|
  {
    var s := a + "\n" + rest;
    if a != "" {
      assert s[1..] == a[1..] + "\n" + rest;
      LineLengthBefore(a[1..], rest);
    }
  }

  lemma LinesOfOne(b: string)
    requires b != "" && '\n' !in b
    ensures Lines(b) == [b]
  {
    LineLengthAvoids(b);
  }

  lemma LinesOfTwo(a: string, b: string)
    requires '\n' !in a && a != "" && a[|a| - 1] != '\r'
    requires '\n' !in b && b != ""
    ensures Lines(a + "\n" + b) == [a, b]
  {
    var s := a + "\n" + b;
    LineLengthBefore(a, b);
    assert s[..|a|] == a && s[|a| + 1..] == b;
    LinesOfOne(b);
  }

  lemma StripsTo(prefix: string, rest: string)
    ensures StripPrefix(prefix + rest, prefix) == Some(rest)
  {
    assert (prefix + rest)[|prefix|..] == rest;
  }

  /** The data line, after `trim` removed the blank of an empty payload, still yields the payload. */
  lemma DataLineYields(payload: string, line: string)
    requires Trimmed(payload)
    requires line == "data:" + (if payload == "" then "" else " " + payload)
    ensures StripPrefix(line, DATA).Some? && TrimStart(StripPrefix(line, DATA).value) == payload
    ensures StripPrefix(line, EVENT).None?
  {
    StripsTo(DATA, if payload == "" then "" else " " + payload);
    TrimOfTrimmed(payload);
    PrefixesExclude(line);
  }

  lemma EventLineYields(event: string, line: string)
    requires Trimmed(event)
    requires line == "event: " + event
    ensures StripPrefix(line, EVENT).Some? && Trim(StripPrefix(line, EVENT).value) == event
    ensures StripPrefix(line, DATA).None?
  {
    assert line == EVENT + (" " + event);
    StripsTo(EVENT, " " + event);
    TrimOfTrimmed(event);
    PrefixesExclude(line);
  }

  lemma EventsAndData(lines: seq<string>, more: string)
    ensures EventNames(lines + [more]) == EventNames(lines) +
              (if StripPrefix(more, EVENT).Some? then [Trim(StripPrefix(more, EVENT).value)] else [])
    ensures DataBodies(lines + [more]) == DataBodies(lines) +
              (if StripPrefix(more, DATA).Some? then [TrimStart(StripPrefix(more, DATA).value)] else [])
  {
    hide StripPrefix, Trim, TrimStart;
    assert (lines + [more])[..|lines|] == lines;
  }

  lemma OneLineParses(payload: string)
    requires '\n' !in payload && Trimmed(payload)
    ensures FrameOf("data: " + payload) == Some(SseFrame(None, payload))
  {
    hide Trim, TrimStart, TrimEnd, Lines, StripPrefix, EventNames, DataBodies;
    var data := "data:" + (if payload == "" then "" else " " + payload);
    DataLineYields(payload, data);
    EmptyLines();
    TrimBody("", payload);
    assert "" + "data: " + payload == "data: " + payload;
    assert "" + "data:" + (if payload == "" then "" else " " + payload) == data;
    LinesOfOne(data);
    EventsAndData([], data);
    assert [] + [data] == [data];
    assert Lines(Trim("data: " + payload)) == [data];
    assert EventNames([data]) == [] && DataBodies([data]) == [payload];
    assert Join([payload], "\n") == payload;
  }

  lemma TwoLinesParse(event: string, payload: string)
    requires event != "" && '\n' !in event && Trimmed(event)
    requires '\n' !in payload && Trimmed(payload)
    ensures FrameOf("event: " + event + "\n" + "data: " + payload) == Some(SseFrame(Some(event), payload))
  {
    hide Trim, TrimStart, TrimEnd, Lines, StripPrefix, EventNames, DataBodies;
    var data := "data:" + (if payload == "" then "" else " " + payload);
    var name := "event: " + event;
    DataLineYields(payload, data);
    EventLineYields(event, name);
    EmptyLines();
    TrimBody(name + "\n", payload);
    assert name + "\n" + "data:" + (if payload == "" then "" else " " + payload) == name + "\n" + data;
    LinesOfTwo(name, data);
    EventsAndData([], name);
    EventsAndData([name], data);
    assert [] + [name] == [name] && [name] + [data] == [name, data];
    assert Lines(Trim(name + "\n" + "data: " + payload)) == [name, data];
    assert EventNames([name, data]) == [event] && DataBodies([name, data]) == [payload];
    assert Join([payload], "\n") == payload;
  }

  lemma FrameTextParses(p: Printed)
    requires Printable(p)
    ensures FrameOf(FrameText(p)) == Some(Denotes(p))
  {
    hide FrameOf;
    if p.event == "" {
      OneLineParses(p.payload);
    } else {
      TwoLinesParse(p.event, p.payload);
    }
  }

  lemma EmptyLines()
    ensures EventNames([]) == [] && DataBodies([]) == []
  {
  }

  // ----- the round trip -----------------------------------------------------------------------

  lemma {:induction false} StreamSplits(ps: seq<Printed>)
    requires forall p :: p in ps ==> Printable(p)
    ensures FramesOf(SplitFrames(StreamBytes(ps)).bodies) == DenotesAll(ps)
    ensures SplitFrames(StreamBytes(ps)).rest == []
  {
    hide FrameOf, FrameText, FrameBytes, Denotes, NextSeparator;
    if ps == [] {
      EmptyStream();
    } else {
      var rest := StreamBytes(ps[1..]);
      StreamSplits(ps[1..]);
      SplitsAtFrameEnd(ps[0], rest);
      DecodeInvertsEncode(FrameText(ps[0]));
      FrameTextParses(ps[0]);
      assert (FrameBytes(ps[0]) + rest)[|FrameBytes(ps[0])|..] == rest;
      var bodies := SplitFrames(StreamBytes(ps)).bodies;
      assert bodies[1..] == SplitFrames(rest).bodies;
    }
  }

  lemma EmptyStream()
    ensures SplitFrames([]) == Split([], [])
  {
  }

  /** Whatever the chunking, the parser returns exactly the frames that were printed. */
  lemma RoundTrip(ps: seq<Printed>, chunks: seq<seq<Byte>>)
    requires forall p :: p in ps ==> Printable(p)
    requires Flatten(chunks) == StreamBytes(ps)
    ensures ParseStream(chunks) == DenotesAll(ps)
  {
    hide FramesOf, StreamBytes, DenotesAll, SplitFrames;
    EmptyStream();
    ReceiveFromEmpty(chunks);
    StreamSplits(ps);
    assert DenotesAll(ps) + [] == DenotesAll(ps);
  }

  lemma ReceiveFromEmpty(chunks: seq<seq<Byte>>)
    ensures Receive([], chunks) == SplitFrames(Flatten(chunks))
  {
    ReceiveIsOneSplit([], chunks);
    assert [] + Flatten(chunks) == Flatten(chunks);
  }

  // ----- frames of many lines -----------------------------------------------------------------

  /** A line of a frame, with the blanks around what it says. */
  datatype Field =
    | EventField(before: string, name: string, after: string)
    | DataField(before: string, body: string)
    | Ignored(line: string)

  function FieldLine(f: Field): string
  {
    match f
    case EventField(before, name, after) => "event:" + (before + name + after)
    case DataField(before, body) => "data:" + (before + body)
    case Ignored(line) => line
  }

  predicate Blank(s: string) { forall i :: 0 <= i < |s| ==> IsSpace(s[i]) }

  /** Nothing to trim at either end. */
  predicate Tight(s: string) { s != "" && !IsSpace(s[0]) && !IsSpace(s[|s| - 1]) }

  /** What the field says is told apart from its blanks: a name is trimmed at both ends, a body ahead only. */
  predicate PlainField(f: Field)
  {
    && PlainLine(FieldLine(f))
    && (f.EventField? ==> Blank(f.before) && Blank(f.after) && (f.name == "" || Tight(f.name)))
    && (f.DataField? ==> Blank(f.before) && (f.body == "" || !IsSpace(f.body[0])))
    && (f.Ignored? ==> !("event:" <= f.line) && !("data:" <= f.line))
  }

  predicate PlainLine(line: string)
  {
    line != "" && '\n' !in line && !IsSpace(line[0]) && line[|line| - 1] != '\r'
  }

  /** A line with or without a carriage return at its end. */
  function Closed(line: string, cr: bool): string { if cr then line + "\r" else line }

  /** Lines, each but the last closed by a line feed, with or without a carriage return before it. */
  function Spelled(lines: seq<string>, crlf: seq<bool>): string
    requires |lines| > 0 && |crlf| == |lines| - 1
  {
    if |lines| == 1 then lines[0] else Closed(lines[0], crlf[0]) + "\n" + Spelled(lines[1..], crlf[1..])
  }

  lemma {:induction false} SpelledLines(lines: seq<string>, crlf: seq<bool>)
    requires |lines| > 0 && |crlf| == |lines| - 1 && forall i :: 0 <= i < |lines| ==> PlainLine(lines[i])
    requires Tight(lines[|lines| - 1])
    ensures Lines(Spelled(lines, crlf)) == lines && Tight(Spelled(lines, crlf))
  {
    assert PlainLine(lines[0]);
    if |lines| == 1 {
      LinesOfOne(lines[0]);
    } else {
      hide Lines, PlainLine, Tight, Closed;
      SpelledLines(lines[1..], crlf[1..]);
      LineAhead(lines[0], crlf[0], Spelled(lines[1..], crlf[1..]));
      assert [lines[0]] + lines[1..] == lines;
    }
  }

  /** One more line ahead. */
  lemma LineAhead(line: string, cr: bool, rest: string)
    requires PlainLine(line) && Tight(rest)
    ensures var s := Closed(line, cr) + "\n" + rest; Lines(s) == [line] + Lines(rest) && Tight(s)
  {
    var a := Closed(line, cr);
    ClosedLine(line, cr);
    var s := a + "\n" + rest;
    assert s[0] == line[0] && s[|s| - 1] == rest[|rest| - 1];
    hide Closed, IsSpace, DropCarriageReturn;
    LineLengthBefore(a, rest);
    assert s[..|a|] == a && s[|a| + 1..] == rest;
    hide LineLength;
  }

  lemma ClosedLine(line: string, cr: bool)
    requires PlainLine(line)
    ensures '\n' !in Closed(line, cr) && DropCarriageReturn(Closed(line, cr)) == line
    ensures |Closed(line, cr)| > 0 && Closed(line, cr)[0] == line[0]
  {
    if cr { assert (line + "\r")[..|line|] == line; }
  }

  /** The event names and data bodies among the fields, in order. */
  function NamesOf(fs: seq<Field>): seq<string>
  {
    if fs == [] then [] else NamesOf(fs[..|fs| - 1]) + if fs[|fs| - 1].EventField? then [fs[|fs| - 1].name] else []
  }

  function BodiesOf(fs: seq<Field>): seq<string>
  {
    if fs == [] then [] else BodiesOf(fs[..|fs| - 1]) + if fs[|fs| - 1].DataField? then [fs[|fs| - 1].body] else []
  }

  function LinesFor(fs: seq<Field>): (r: seq<string>)
    ensures |r| == |fs| && forall i :: 0 <= i < |r| ==> r[i] == FieldLine(fs[i])
  {
    seq(|fs|, i requires 0 <= i < |fs| => FieldLine(fs[i]))
  }

  lemma {:induction false} TrimStartPads(pad: string, s: string)
    requires Blank(pad) && (s == "" || !IsSpace(s[0]))
    ensures TrimStart(pad + s) == s
  {
    hide IsSpace;
    if pad == "" {
      assert pad + s == s;
    } else {
      assert (pad + s)[1..] == pad[1..] + s && IsSpace(pad[0]);
      TrimStartPads(pad[1..], s);
    }
  }

  lemma {:induction false} TrimEndPads(s: string, pad: string)
    requires Blank(pad) && (s == "" || !IsSpace(s[|s| - 1]))
    ensures TrimEnd(s + pad) == s
  {
    hide IsSpace;
    if pad == "" {
      assert s + pad == s;
    } else {
      var n := |pad| - 1;
      assert (s + pad)[..|s + pad| - 1] == s + pad[..n] && IsSpace(pad[n]) && (s + pad)[|s + pad| - 1] == pad[n];
      TrimEndPads(s, pad[..n]);
    }
  }

  /** Trimming removes the blanks at both ends and nothing else. */
  lemma TrimPads(before: string, s: string, after: string)
    requires Blank(before) && Blank(after) && (s == "" || Tight(s))
    ensures Trim(before + s + after) == s
  {
    hide IsSpace, TrimStart, TrimEnd;
    if s == "" {
      assert before + s + after == (before + after) + "";
      TrimStartPads(before + after, "");
      TrimEndPads("", "");
      assert "" + "" == "";
    } else {
      assert before + s + after == before + (s + after);
      TrimStartPads(before, s + after);
      TrimEndPads(s, after);
    }
  }

  lemma {:induction false} FieldsAreRead(fs: seq<Field>)
    requires forall i :: 0 <= i < |fs| ==> PlainField(fs[i])
    ensures EventNames(LinesFor(fs)) == NamesOf(fs) && DataBodies(LinesFor(fs)) == BodiesOf(fs)
  {
    hide StripPrefix, Trim, TrimStart, EventNames, DataBodies, FieldLine, PlainField;
    if fs == [] {
      assert LinesFor(fs) == [];
      EmptyLines();
    } else {
      var front, f := fs[..|fs| - 1], fs[|fs| - 1];
      FieldsAreRead(front);
      assert LinesFor(fs) == LinesFor(front) + [FieldLine(f)];
      hide LinesFor;
      EventsAndData(LinesFor(front), FieldLine(f));
      OneField(f);
    }
  }

  lemma OneField(f: Field)
    requires PlainField(f)
    ensures var e, d := StripPrefix(FieldLine(f), EVENT), StripPrefix(FieldLine(f), DATA);
            && (e.Some? <==> f.EventField?) && (d.Some? <==> f.DataField?)
            && (f.EventField? ==> Trim(e.value) == f.name) && (f.DataField? ==> TrimStart(d.value) == f.body)
  {
    hide Trim, TrimStart, StripPrefix;
    PrefixesExclude(FieldLine(f));
    match f
    case EventField(before, name, after) => {
      StripsTo(EVENT, before + name + after);
      TrimPads(before, name, after);
    }
    case DataField(before, body) => {
      StripsTo(DATA, before + body);
      TrimStartPads(before, body);
    }
    case Ignored(line) => NoPrefix(line);
  }

  lemma NoPrefix(line: string)
    ensures !("event:" <= line) ==> StripPrefix(line, EVENT).None?
    ensures !("data:" <= line) ==> StripPrefix(line, DATA).None?
  {
  }

  /** Lines glued by newlines, read from the other end than `Join` does. */
  function Glued(xs: seq<string>): string
  {
    if xs == [] then "" else if |xs| == 1 then xs[0] else Glued(xs[..|xs| - 1]) + "\n" + xs[|xs| - 1]
  }

  lemma {:induction false} JoinSnoc(xs: seq<string>, x: string)
    requires xs != []
    ensures Join(xs + [x], "\n") == Join(xs, "\n") + "\n" + x
  {
    assert (xs + [x])[1..] == xs[1..] + [x];
    if |xs| > 1 {
      JoinSnoc(xs[1..], x);
      assert xs[0] + "\n" + (Join(xs[1..], "\n") + "\n" + x) == xs[0] + "\n" + Join(xs[1..], "\n") + "\n" + x;
    }
  }

  lemma {:induction false} JoinIsGlued(xs: seq<string>)
    ensures Join(xs, "\n") == Glued(xs)
  {
    if |xs| > 1 {
      JoinIsGlued(xs[..|xs| - 1]);
      JoinSnoc(xs[..|xs| - 1], xs[|xs| - 1]);
      assert xs == xs[..|xs| - 1] + [xs[|xs| - 1]];
    }
  }

  /**
    A frame of any number of lines, whatever closes them and whatever blanks stand around: the last event
    name counts, data lines are joined by newlines in order, other lines say nothing; without data there is
    a frame only if there is a name.
   */
  lemma ManyLinesParse(fs: seq<Field>, crlf: seq<bool>, lead: string, trail: string)
    requires |fs| > 0 && |crlf| == |fs| - 1 && forall i :: 0 <= i < |fs| ==> PlainField(fs[i])
    requires Tight(FieldLine(fs[|fs| - 1])) && Blank(lead) && Blank(trail)
    ensures var names, bodies := NamesOf(fs), BodiesOf(fs);
            var name := if names == [] then None else Some(names[|names| - 1]);
            var frame := if bodies == [] && names == [] then None else Some(SseFrame(name, Glued(bodies)));
            FrameOf(lead + Spelled(LinesFor(fs), crlf) + trail) == frame
  {
    assert forall i :: 0 <= i < |fs| ==> PlainLine(LinesFor(fs)[i]);
    hide Lines, Trim, EventNames, DataBodies, NamesOf, BodiesOf, PlainLine, Tight, Join, Glued;
    SpelledLines(LinesFor(fs), crlf);
    TrimPads(lead, Spelled(LinesFor(fs), crlf), trail);
    FieldsAreRead(fs);
    JoinIsGlued(BodiesOf(fs));
    NothingGlued();
  }

  lemma NothingGlued()
    ensures Glued([]) == ""
  {
  }
}
