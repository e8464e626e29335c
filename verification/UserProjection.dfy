/**
  How a user message's parts become the text the model reads: untrusted text and attachments with the
  reminder delimiters escaped, then the harness's own reminders as delimited blocks.
 */
module UserProjection {
  import opened Common
  import opened Transcript
  import opened Escaping

  datatype Part =
    | Text(text: string)
    | Reasoning(text: string)
    | ToolCall(callId: string, name: string, argsJson: string)
    | ToolResult(callId: string, ok: bool, output: Option<string>, error: Option<string>)
    | Image(artifactId: string, mime: string)
    | Document(artifactId: string, mime: string, extracted: Option<string>)
    | StepStart
    | StepFinish(reason: string)
    | Compaction(summary: string, compactedIds: seq<string>)
    | CompactionRequest(state: AttemptState)
    | Plan(plan: string)
    | RuntimeReminder(content: string)

  datatype Caps = Caps(reasoningReplay: bool, imageInput: bool, documentInput: bool)

  /** `if !buf.is_empty() { buf.push('\n') }; buf.push_str(line)`. */
  function AppendLine(buf: string, line: string): string { if buf == "" then line else buf + "\n" + line }

  /** The lines a list of parts contributes, through one optional line per part. */
  function Lines(parts: seq<Part>, line: Part -> Option<string>): string
  {
    if parts == [] then ""
    else
      var buf := Lines(parts[..|parts| - 1], line);
      var last := line(parts[|parts| - 1]);
      if last.Some? then AppendLine(buf, last.value) else buf
  }

  /** The accumulating loop shared by the three `collect_*` functions. */
  method CollectLines(parts: seq<Part>, line: Part -> Option<string>) returns (buf: string)
    ensures buf == Lines(parts, line)
  {
    buf := "";
    for i := 0 to |parts|
      invariant buf == Lines(parts[..i], line)
    {
      assert parts[..i + 1][..i] == parts[..i];
      var l := line(parts[i]);
      if l.Some? {
        if buf != "" {
          buf := buf + "\n";
        }
        buf := buf + l.value;
      }
    }
    assert parts[..|parts|] == parts;
  }

  function TextLine(p: Part): Option<string> { if p.Text? then Some(p.text) else None }

  function AttachmentLine(caps: Caps): Part -> Option<string>
  {
    (p: Part) =>
      match p
      case Image(id, mime) =>
        if caps.imageInput then None
        else Some("[image artifact " + id + " (" + mime + ") \U{2014} vision not supported on this model]")
      case Document(id, mime, extracted) =>
        var head := "[document artifact " + id + " (" + mime + ")]";
        if !caps.documentInput && extracted.Some? then Some(head + "\n" + extracted.value) else Some(head)
      case _ => None
  }

  const BLOCK_OPEN := "<system-reminder>\n"
  const BLOCK_CLOSE := "\n</system-reminder>"

  function Block(body: string): string { BLOCK_OPEN + EscapeBody(body) + BLOCK_CLOSE }

  function ReminderLine(p: Part): Option<string> { if p.RuntimeReminder? then Some(Block(p.content)) else None }

  function IsPendingRequest(p: Part): bool { p == CompactionRequest(Pending) }

  function JoinNonEmpty(buf: string, more: string): string { if more == "" then buf else AppendLine(buf, more) }

  /** `project_user`, up to the decision whether the message is empty. */
  function UserContent(parts: seq<Part>, caps: Caps, request: Option<string>): string
  {
    var text := EscapeDelimiters(Lines(parts, TextLine));
    var attachments := EscapeDelimiters(Lines(parts, AttachmentLine(caps)));
    var reminders := Lines(parts, ReminderLine);
    var content := JoinNonEmpty(JoinNonEmpty(text, attachments), reminders);
    if request.Some? && (exists i :: 0 <= i < |parts| && IsPendingRequest(parts[i]))
    then AppendLine(content, request.value) else content
  }

  /** The buffer-building body of `project_user`. */
  method BuildUserContent(parts: seq<Part>, caps: Caps, request: Option<string>) returns (content: string)
    ensures content == UserContent(parts, caps, request)
  {
    hide Lines, EscapeDelimiters;
    var raw := CollectLines(parts, TextLine);
    content := EscapeDelimiters(raw);
    raw := CollectLines(parts, AttachmentLine(caps));
    var attachments := EscapeDelimiters(raw);
    if attachments != "" {
      if content != "" {
        content := content + "\n";
      }
      content := content + attachments;
    }
    var xml := CollectLines(parts, ReminderLine);
    if xml != "" {
      if content != "" {
        content := content + "\n";
      }
      content := content + xml;
    }
    if request.Some? && (exists i :: 0 <= i < |parts| && IsPendingRequest(parts[i])) {
      if content != "" {
        content := content + "\n";
      }
      content := content + request.value;
    }
  }

  // ----- counting delimiters ------------------------------------------------------------------

  function Reminders(parts: seq<Part>): seq<string>
  {
    if parts == [] then []
    else
      var front := Reminders(parts[..|parts| - 1]);
      var last := parts[|parts| - 1];
      if last.RuntimeReminder? then front + [last.content] else front
  }

  lemma AppendLineCount(buf: string, line: string, p: string)
    requires IsDelimiter(p)
    ensures Count(AppendLine(buf, line), p) == Count(buf, p) + Count(line, p)
  {
    CountSplits(buf, '\n', line, p);
    assert buf + ['\n'] + line == buf + "\n" + line;
  }

  lemma JoinCount(buf: string, more: string, p: string)
    requires IsDelimiter(p)
    ensures Count(JoinNonEmpty(buf, more), p) == Count(buf, p) + Count(more, p)
  {
    AppendLineCount(buf, more, p);
  }

  const NAME := "system-reminder"

  /** Text with a single `<`, at its head, holds a delimiter there or nowhere. */
  lemma CountAtHead(rest: string, p: string)
    requires IsDelimiter(p) && '<' !in rest
    ensures Count("<" + rest, p) == if p <= "<" + rest then 1 else 0
  {
    assert ("<" + rest)[1..] == rest;
    CountNone(rest, p);
  }

  /** Text with two, one at its head and one further on. */
  lemma CountTwo(middle: string, rest: string, p: string)
    requires IsDelimiter(p) && '<' !in middle && '<' !in rest
    ensures Count("<" + (middle + ("<" + rest)), p)
         == (if p <= "<" + (middle + ("<" + rest)) then 1 else 0) + (if p <= "<" + rest then 1 else 0)
  {
    var s := "<" + (middle + ("<" + rest));
    assert s[1..] == middle + ("<" + rest);
    CountSkips(middle, "<" + rest, p);
    CountAtHead(rest, p);
  }

  lemma DelimiterNames()
    ensures OPEN == "<" + NAME && CLOSE == "<" + ("/" + NAME)
    ensures '<' !in NAME && NAME != "" && NAME[0] == 's'
  {
  }

  /** Which delimiter a text of either shape starts with. */
  lemma StartsWith(more: string)
    ensures OPEN <= "<" + (NAME + more) && !(CLOSE <= "<" + (NAME + more))
    ensures CLOSE <= "<" + ("/" + NAME + more) && !(OPEN <= "<" + ("/" + NAME + more))
  {
    DelimiterNames();
    var a := "<" + (NAME + more);
    var b := "<" + ("/" + NAME + more);
    assert a[..|OPEN|] == OPEN && b[..|CLOSE|] == CLOSE;
    assert a[1] == 's' && b[1] == '/' && OPEN[1] == 's' && CLOSE[1] == '/';
  }

  lemma BlockShape(body: string)
    ensures Block(body) == "<" + (NAME + (">\n" + EscapeBody(body) + "\n") + ("<" + ("/" + NAME + ">")))
  {
    var e := EscapeBody(body);
    assert Block(body) == BLOCK_OPEN + e + BLOCK_CLOSE;
    assert BLOCK_OPEN == "<" + NAME + ">\n";
    assert BLOCK_CLOSE == "\n" + "<" + "/" + NAME + ">";
    hide *;
    Regrouped(NAME, e);
  }

  lemma Regrouped(name: string, e: string)
    ensures "<" + name + ">\n" + e + ("\n" + "<" + "/" + name + ">")
         == "<" + (name + (">\n" + e + "\n") + ("<" + ("/" + name + ">")))
  {
  }

  /** A block has its own two delimiters and, whatever its body, no other. */
  lemma BlockCount(body: string)
    ensures Count(Block(body), OPEN) == 1
    ensures Count(Block(body), CLOSE) == 1
  {
    BodyRoundTrips(body);
    BlockShape(body);
    DelimitersAre();
    DelimiterNames();
    var inside := ">\n" + EscapeBody(body) + "\n";
    var closing := "/" + NAME + ">";
    hide Block, EscapeBody, Unescape, Count, IsDelimiter;
    hide OPEN, CLOSE, NAME;
    assert '<' !in inside && '<' !in closing;
    CountTwo(NAME + inside, closing, OPEN);
    CountTwo(NAME + inside, closing, CLOSE);
    StartsWith(inside + ("<" + closing));
    StartsWith(">");
    assert NAME + (inside + ("<" + closing)) == NAME + inside + ("<" + closing);
  }

  lemma {:induction false} ReminderCount(parts: seq<Part>)
    ensures Count(Lines(parts, ReminderLine), OPEN) == |Reminders(parts)|
    ensures Count(Lines(parts, ReminderLine), CLOSE) == |Reminders(parts)|
  {
    hide Block, Count;
    EmptyCount();
    if parts != [] {
      var front, last := parts[..|parts| - 1], parts[|parts| - 1];
      ReminderCount(front);
      if last.RuntimeReminder? {
        DelimitersAre();
        BlockCount(last.content);
        AppendLineCount(Lines(front, ReminderLine), Block(last.content), OPEN);
        AppendLineCount(Lines(front, ReminderLine), Block(last.content), CLOSE);
      }
    }
  }

  lemma EmptyCount()
    ensures Count("", OPEN) == 0 && Count("", CLOSE) == 0
  {
  }

  /** What an explicit compaction adds of a delimiter: exactly what its own request text holds. */
  function RequestCount(parts: seq<Part>, request: Option<string>, p: string): nat
    requires p != ""
  {
    if request.Some? && (exists i :: 0 <= i < |parts| && IsPendingRequest(parts[i])) then Count(request.value, p) else 0
  }

  /**
    For every list of user parts, the model sees one opening and one closing delimiter per typed
    reminder and none from anything else: no text, attachment or reminder body can add one.
   */
  lemma OnlyRemindersDelimit(parts: seq<Part>, caps: Caps, request: Option<string>)
    ensures Count(UserContent(parts, caps, request), OPEN) == |Reminders(parts)| + RequestCount(parts, request, OPEN)
    ensures Count(UserContent(parts, caps, request), CLOSE) == |Reminders(parts)| + RequestCount(parts, request, CLOSE)
  {
    var text := EscapeDelimiters(Lines(parts, TextLine));
    var attachments := EscapeDelimiters(Lines(parts, AttachmentLine(caps)));
    var xml := Lines(parts, ReminderLine);
    EscapedTextHasNoDelimiter(Lines(parts, TextLine));
    EscapedTextHasNoDelimiter(Lines(parts, AttachmentLine(caps)));
    ReminderCount(parts);
    DelimitersAre();
    hide Lines, EscapeDelimiters, Count, Reminders;
    var content := JoinNonEmpty(JoinNonEmpty(text, attachments), xml);
    JoinCount(text, attachments, OPEN);
    JoinCount(text, attachments, CLOSE);
    JoinCount(JoinNonEmpty(text, attachments), xml, OPEN);
    JoinCount(JoinNonEmpty(text, attachments), xml, CLOSE);
    if request.Some? {
      AppendLineCount(content, request.value, OPEN);
      AppendLineCount(content, request.value, CLOSE);
    }
  }

  // ----- reading the reminders back -----------------------------------------------------------

  /** The length of the stretch before the first `<`. */
  function BeforeAngle(s: string): (n: nat)
    ensures n <= |s| && '<' !in s[..n] && (n < |s| ==> s[n] == '<')
  {
    if s == "" || s[0] == '<' then 0 else 1 + BeforeAngle(s[1..])
  }

  /** A reader of the blocks: each body, unescaped, up to where its closing delimiter must be. */
  function ReadBlocks(xml: string): seq<string>
    decreases |xml|
  {
    if !(BLOCK_OPEN <= xml) then []
    else
      var inner := xml[|BLOCK_OPEN|..];
      var n := BeforeAngle(inner);
      if n == 0 || n - 1 + |BLOCK_CLOSE| > |inner| then []
      else
        var rest := inner[n - 1 + |BLOCK_CLOSE|..];
        [Unescape(inner[..n - 1])] + (if rest == "" then [] else ReadBlocks(rest[1..]))
  }

  function Blocks(bodies: seq<string>): string
  {
    if bodies == [] then ""
    else if |bodies| == 1 then Block(bodies[0])
    else Block(bodies[0]) + "\n" + Blocks(bodies[1..])
  }

  lemma {:induction false} BlocksSnoc(bodies: seq<string>, body: string)
    ensures Blocks(bodies + [body]) == AppendLine(Blocks(bodies), Block(body))
  {
    hide Block;
    if bodies == [] {
      assert [] + [body] == [body];
    } else {
      BlockIsNotEmpty(bodies[0]);
      BlocksSnoc(bodies[1..], body);
      assert (bodies + [body])[1..] == bodies[1..] + [body];
      if |bodies| == 1 {
        assert bodies[1..] == [];
        assert Block(bodies[0]) + "\n" + Block(body) == AppendLine(Blocks(bodies), Block(body));
      } else {
        BlocksNotEmpty(bodies[1..]);
        assert Block(bodies[0]) + "\n" + (Blocks(bodies[1..]) + "\n" + Block(body))
            == Block(bodies[0]) + "\n" + Blocks(bodies[1..]) + "\n" + Block(body);
      }
    }
  }

  lemma BlockIsNotEmpty(body: string)
    ensures Block(body) != ""
  {
    hide EscapeBody;
    assert |BLOCK_OPEN| > 0;
  }

  lemma BlocksNotEmpty(bodies: seq<string>)
    requires bodies != []
    ensures Blocks(bodies) != ""
  {
    hide Block;
    BlockIsNotEmpty(bodies[0]);
  }

  lemma {:induction false} XmlIsBlocks(parts: seq<Part>)
    ensures Lines(parts, ReminderLine) == Blocks(Reminders(parts))
  {
    hide Block;
    if parts != [] {
      XmlIsBlocks(parts[..|parts| - 1]);
      if parts[|parts| - 1].RuntimeReminder? {
        BlocksSnoc(Reminders(parts[..|parts| - 1]), parts[|parts| - 1].content);
      }
    }
  }

  lemma ReadOne(body: string, rest: string)
    ensures var xml := Block(body) + rest;
            var inner := xml[|BLOCK_OPEN|..];
            && BLOCK_OPEN <= xml
            && BeforeAngle(inner) == |EscapeBody(body)| + 1
            && inner[..|EscapeBody(body)|] == EscapeBody(body)
            && |EscapeBody(body)| + |BLOCK_CLOSE| <= |inner|
            && inner[|EscapeBody(body)| + |BLOCK_CLOSE|..] == rest
  {
    BodyRoundTrips(body);
    var e := EscapeBody(body);
    hide EscapeBody, Unescape;
    var xml := Block(body) + rest;
    var inner := xml[|BLOCK_OPEN|..];
    assert inner == e + BLOCK_CLOSE + rest;
    assert xml[..|BLOCK_OPEN|] == BLOCK_OPEN;
    assert inner == (e + "\n") + ("</system-reminder>" + rest) by { assert BLOCK_CLOSE == "\n" + "</system-reminder>"; }
    AngleAfter(e + "\n", "</system-reminder>" + rest);
  }

  lemma {:induction false} AngleAfter(a: string, b: string)
    requires '<' !in a && b != "" && b[0] == '<'
    ensures BeforeAngle(a + b) == |a|
  {
    if a == "" {
      assert a + b == b;
    } else {
      assert (a + b)[1..] == a[1..] + b;
      AngleAfter(a[1..], b);
    }
  }

  lemma ReadFirst(body: string, rest: string)
    ensures ReadBlocks(Block(body) + rest) == [body] + if rest == "" then [] else ReadBlocks(rest[1..])
  {
    BodyRoundTrips(body);
    ReadOne(body, rest);
    hide Block, EscapeBody, Unescape, BeforeAngle;
  }

  lemma {:induction false} ReadBlocksInverts(bodies: seq<string>)
    ensures ReadBlocks(Blocks(bodies)) == bodies
  {
    hide Block;
    if bodies == [] {
      assert !(BLOCK_OPEN <= "");
    } else {
      hide ReadBlocks;
      var later := if |bodies| == 1 then "" else "\n" + Blocks(bodies[1..]);
      assert Block(bodies[0]) + "" == Block(bodies[0]);
      assert |bodies| > 1 ==> Block(bodies[0]) + "\n" + Blocks(bodies[1..]) == Block(bodies[0]) + later;
      assert Blocks(bodies) == Block(bodies[0]) + later;
      ReadFirst(bodies[0], later);
      if |bodies| > 1 {
        assert later[1..] == Blocks(bodies[1..]);
        ReadBlocksInverts(bodies[1..]);
      }
      assert bodies == [bodies[0]] + bodies[1..];
    }
  }

  lemma BlocksAreRecoverable(parts: seq<Part>)
    ensures ReadBlocks(Lines(parts, ReminderLine)) == Reminders(parts)
  {
    hide ReadBlocks, Lines, Reminders, Blocks;
    XmlIsBlocks(parts);
    ReadBlocksInverts(Reminders(parts));
  }

  /** Where the first opening delimiter stands, or the end. */
  function FirstOpen(s: string): (n: nat)
    ensures n <= |s|
  {
    if s == "" || OPEN <= s then 0 else 1 + FirstOpen(s[1..])
  }

  /** A reader of a whole user message: its blocks, from the first opening delimiter on. */
  function ReadReminders(content: string): seq<string> { ReadBlocks(content[FirstOpen(content)..]) }

  lemma {:induction false} NoOpenInside(p: string)
    requires Count(p, OPEN) == 0
    ensures FirstOpen(p) == |p|
  {
    if p != "" { NoOpenInside(p[1..]); }
  }

  /** Text without a delimiter, then a line that opens with one. */
  lemma {:induction false} OpensBehind(p: string, xml: string)
    requires Count(p, OPEN) == 0 && OPEN <= xml
    ensures FirstOpen(p + "\n" + xml) == |p| + 1
  {
    var s := p + "\n" + xml;
    DelimitersAre();
    if p == "" {
      assert s == "\n" + xml && s[1..] == xml && s[0] == '\n' && OPEN[0] == '<';
    } else {
      assert s[1..] == p[1..] + "\n" + xml;
      PrefixStopsAt(p, '\n', xml, OPEN);
      OpensBehind(p[1..], xml);
    }
  }

  lemma OpenIsAhead(bodies: seq<string>)
    requires bodies != []
    ensures OPEN <= Blocks(bodies)
  {
    var b := Block(bodies[0]);
    assert BLOCK_OPEN == OPEN + ">\n";
    assert b[..|OPEN|] == OPEN;
    hide Block;
    assert b <= Blocks(bodies);
  }

  lemma ReadBehind(p: string, xml: string)
    requires Count(p, OPEN) == 0 && (xml == "" || OPEN <= xml)
    ensures ReadReminders(JoinNonEmpty(p, xml)) == ReadBlocks(xml)
  {
    hide ReadBlocks, Count;
    if xml == "" {
      NoOpenInside(p);
      assert p[|p|..] == "";
    } else if p == "" {
      assert xml[0..] == xml;
    } else {
      OpensBehind(p, xml);
      assert (p + "\n" + xml)[|p| + 1..] == xml;
    }
  }

  /** Every reminder body, in order, can be read back from the user message the model is shown. */
  lemma RemindersAreRecoverable(parts: seq<Part>, caps: Caps)
    ensures ReadReminders(UserContent(parts, caps, None)) == Reminders(parts)
  {
    var text := EscapeDelimiters(Lines(parts, TextLine));
    var attachments := EscapeDelimiters(Lines(parts, AttachmentLine(caps)));
    var xml := Lines(parts, ReminderLine);
    EscapedTextHasNoDelimiter(Lines(parts, TextLine));
    EscapedTextHasNoDelimiter(Lines(parts, AttachmentLine(caps)));
    DelimitersAre();
    JoinCount(text, attachments, OPEN);
    assert UserContent(parts, caps, None) == JoinNonEmpty(JoinNonEmpty(text, attachments), xml);
    hide *;
    BlocksAreRecoverable(parts);
    XmlIsBlocks(parts);
    XmlOpens(Reminders(parts));
    ReadBehind(JoinNonEmpty(text, attachments), xml);
  }

  lemma XmlOpens(bodies: seq<string>)
    ensures Blocks(bodies) == "" || OPEN <= Blocks(bodies)
  {
    if bodies != [] { OpenIsAhead(bodies); }
  }
}
