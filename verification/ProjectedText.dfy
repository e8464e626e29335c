/**
  What the model is told of each message, from the message's parts alone: which texts, in which order,
  which attachments by capability, which calls and results; and that a reader gets the user's text back.
 */
module ProjectedText {
  import opened Common
  import opened Transcript
  import opened Escaping
  import opened EscapingRead
  import opened UserProjection
  import opened Projection

  // ----- lines --------------------------------------------------------------------------------

  function Joined(lines: seq<string>): string
  {
    if lines == [] then "" else if |lines| == 1 then lines[0] else lines[0] + "\n" + Joined(lines[1..])
  }

  /** The lines from the first non-empty one on. */
  function FromFirst(lines: seq<string>): seq<string>
  {
    if lines == [] then [] else if lines[0] == "" then FromFirst(lines[1..]) else lines
  }

  function Collected(parts: seq<Part>, line: Part -> Option<string>): seq<string>
  {
    if parts == [] then []
    else (if line(parts[0]).Some? then [line(parts[0]).value] else []) + Collected(parts[1..], line)
  }

  lemma {:induction false} CollectedSnoc(parts: seq<Part>, p: Part, line: Part -> Option<string>)
    ensures Collected(parts + [p], line)
         == Collected(parts, line) + if line(p).Some? then [line(p).value] else []
  {
    if parts == [] {
      assert parts + [p] == [p] && [p][1..] == [];
    } else {
      var head, rest := if line(parts[0]).Some? then [line(parts[0]).value] else [], parts[1..];
      var last := if line(p).Some? then [line(p).value] else [];
      assert (parts + [p])[1..] == rest + [p] && (parts + [p])[0] == parts[0];
      CollectedSnoc(rest, p, line);
      assert Collected(parts, line) == head + Collected(rest, line);
      assert Collected(parts + [p], line) == head + Collected(rest + [p], line);
      assert head + (Collected(rest, line) + last) == head + Collected(rest, line) + last;
    }
  }

  lemma {:induction false} JoinedAppend(xs: seq<string>, ys: seq<string>)
    requires xs != [] && ys != []
    ensures Joined(xs + ys) == Joined(xs) + "\n" + Joined(ys)
  {
    if |xs| == 1 {
      assert xs + ys == [xs[0]] + ys && (xs + ys)[1..] == ys;
    } else {
      assert (xs + ys)[1..] == xs[1..] + ys;
      JoinedAppend(xs[1..], ys);
      var rest := Joined(xs[1..]);
      assert xs[0] + "\n" + (rest + "\n" + Joined(ys)) == xs[0] + "\n" + rest + "\n" + Joined(ys);
    }
  }

  lemma {:induction false} FromFirstAppend(xs: seq<string>, ys: seq<string>)
    ensures FromFirst(xs + ys) == if FromFirst(xs) == [] then FromFirst(ys) else FromFirst(xs) + ys
  {
    if xs == [] {
      assert xs + ys == ys;
    } else {
      assert (xs + ys)[1..] == xs[1..] + ys;
      FromFirstAppend(xs[1..], ys);
    }
  }

  lemma {:induction false} JoinedIsEmpty(lines: seq<string>)
    ensures FromFirst(lines) != [] ==> Joined(FromFirst(lines)) != ""
    ensures FromFirst(lines) == [] <==> forall i :: 0 <= i < |lines| ==> lines[i] == ""
  {
    if lines != [] {
      JoinedIsEmpty(lines[1..]);
      assert lines == [lines[0]] + lines[1..];
      assert FromFirst(lines[1..]) == [] ==> forall i :: 0 < i < |lines| ==> lines[i] == lines[1..][i - 1] == "";
    }
  }

  /** The accumulating loop drops empty lines ahead of the first that is not, and joins the others. */
  lemma {:induction false} LinesAreJoined(parts: seq<Part>, line: Part -> Option<string>)
    ensures Lines(parts, line) == Joined(FromFirst(Collected(parts, line)))
  {
    if parts != [] {
      var front, last := parts[..|parts| - 1], parts[|parts| - 1];
      assert parts == front + [last];
      LinesAreJoined(front, line);
      CollectedSnoc(front, last, line);
      hide Lines, Collected, Joined, FromFirst;
      LinesStep(front, last, line);
      OneLine(Collected(front, line), line(last));
    }
  }

  lemma LinesStep(parts: seq<Part>, p: Part, line: Part -> Option<string>)
    ensures Lines(parts + [p], line)
         == if line(p).Some? then AppendLine(Lines(parts, line), line(p).value) else Lines(parts, line)
  {
    assert (parts + [p])[..|parts|] == parts;
  }

  lemma OneLine(lines: seq<string>, last: Option<string>)
    ensures var all := lines + if last.Some? then [last.value] else [];
            var was := Joined(FromFirst(lines));
            Joined(FromFirst(all)) == if last.Some? then AppendLine(was, last.value) else was
  {
    assert lines + [] == lines;
    if last.Some? {
      FromFirstAppend(lines, [last.value]);
      JoinedIsEmpty(lines);
      assert [last.value][1..] == [];
      if FromFirst(lines) != [] { JoinedAppend(FromFirst(lines), [last.value]); }
    }
  }

  // ----- what a user message says -------------------------------------------------------------

  /** The texts of the Text parts, in order. */
  function Texts(parts: seq<Part>): seq<string>
  {
    if parts == [] then [] else (if parts[0].Text? then [parts[0].text] else []) + Texts(parts[1..])
  }

  /** The attachments a model is told of in words: images it cannot see, and all documents. */
  predicate Worded(p: Part, caps: Caps) { p.Document? || (p.Image? && !caps.imageInput) }

  /** The words: a document's extracted text follows where the model cannot read the document itself. */
  function Wording(p: Part, caps: Caps): string
    requires Worded(p, caps)
  {
    var extract := if p.Document? && p.extracted.Some? && !caps.documentInput then "\n" + p.extracted.value else "";
    if p.Image? then
      "[image artifact " + p.artifactId + " (" + p.mime + ") \U{2014} vision not supported on this model]"
    else "[document artifact " + p.artifactId + " (" + p.mime + ")]" + extract
  }

  function Wordings(parts: seq<Part>, caps: Caps): seq<string>
  {
    if parts == [] then []
    else (if Worded(parts[0], caps) then [Wording(parts[0], caps)] else []) + Wordings(parts[1..], caps)
  }

  lemma {:induction false} TextsAreCollected(parts: seq<Part>)
    ensures Collected(parts, TextLine) == Texts(parts)
  {
    if parts != [] { TextsAreCollected(parts[1..]); }
  }

  lemma AttachmentByCapability(p: Part, caps: Caps)
    ensures AttachmentLine(caps)(p) == if Worded(p, caps) then Some(Wording(p, caps)) else None
    ensures Worded(p, caps) ==> Wording(p, caps) != ""
  {
    if p.Document? {
      var head := "[document artifact " + p.artifactId + " (" + p.mime + ")]";
      assert head + "" == head;
      if p.extracted.Some? { assert head + "\n" + p.extracted.value == head + ("\n" + p.extracted.value); }
    }
  }

  lemma {:induction false} WordingsAreCollected(parts: seq<Part>, caps: Caps)
    ensures Collected(parts, AttachmentLine(caps)) == Wordings(parts, caps)
    ensures forall i :: 0 <= i < |Wordings(parts, caps)| ==> Wordings(parts, caps)[i] != ""
  {
    hide AttachmentLine, Wording, Worded;
    if parts != [] {
      WordingsAreCollected(parts[1..], caps);
      AttachmentByCapability(parts[0], caps);
    }
  }

  /** All a user message says in words of its own: its texts, then its attachments. */
  function Spoken(parts: seq<Part>, caps: Caps): string { Joined(FromFirst(Texts(parts) + Wordings(parts, caps))) }

  lemma SpokenIsBoth(parts: seq<Part>, caps: Caps)
    ensures Spoken(parts, caps) == JoinNonEmpty(Lines(parts, TextLine), Lines(parts, AttachmentLine(caps)))
  {
    LinesAreJoined(parts, TextLine);
    LinesAreJoined(parts, AttachmentLine(caps));
    TextsAreCollected(parts);
    WordingsAreCollected(parts, caps);
    var t, w := Texts(parts), Wordings(parts, caps);
    FromFirstAppend(t, w);
    JoinedIsEmpty(t);
    JoinedIsEmpty(w);
    assert FromFirst(w) == w;
    hide Lines, Texts, Wordings;
    if w == [] {
      assert FromFirst(t) + w == FromFirst(t);
    } else if FromFirst(t) != [] {
      JoinedAppend(FromFirst(t), w);
    }
  }

  lemma EscapedBoth(a: string, b: string)
    ensures JoinNonEmpty(EscapeDelimiters(a), EscapeDelimiters(b)) == EscapeDelimiters(JoinNonEmpty(a, b))
  {
    EscapeIsOnePass(a);
    EscapeIsOnePass(b);
    EscapeIsOnePass(JoinNonEmpty(a, b));
    EscapedIsEmpty(a);
    EscapedIsEmpty(b);
    hide EscapeOnce, EscapeDelimiters;
    EscapeLines(a, b);
  }

  /** What stands before the first reminder block, without the newline that sets the block off. */
  function BeforeReminders(content: string): string
  {
    var n := FirstOpen(content);
    if 0 < n < |content| then content[..n - 1] else content[..n]
  }

  lemma BeforeIsHead(p: string, xml: string)
    requires Count(p, OPEN) == 0 && (xml == "" || OPEN <= xml)
    ensures BeforeReminders(JoinNonEmpty(p, xml)) == p
  {
    hide Count;
    if xml == "" {
      NoOpenInside(p);
      assert p[..|p|] == p;
    } else if p == "" {
      assert xml[..0] == "";
    } else {
      OpensBehind(p, xml);
      assert (p + "\n" + xml)[..|p|] == p;
    }
  }

  /** A user message begins with its own words, escaped, and its reminders follow. */
  lemma ContentIsSpoken(parts: seq<Part>, caps: Caps)
    ensures UserContent(parts, caps, None)
         == JoinNonEmpty(EscapeDelimiters(Spoken(parts, caps)), Blocks(Reminders(parts)))
  {
    SpokenIsBoth(parts, caps);
    XmlIsBlocks(parts);
    hide Lines, EscapeDelimiters, Spoken, Blocks, Reminders;
    EscapedBoth(Lines(parts, TextLine), Lines(parts, AttachmentLine(caps)));
  }

  /**
    The user's words reach the model and can be read back from it: what stands before the reminders is the
    words with their delimiters escaped, and unescaping it gives the words exactly if they do not
    themselves spell out an escaped delimiter.
   */
  lemma SpokenIsRead(parts: seq<Part>, caps: Caps)
    ensures var head := BeforeReminders(UserContent(parts, caps, None));
            && head == EscapeOnce(Spoken(parts, caps)) && head <= UserContent(parts, caps, None)
            && (UnescapeTags(head) == Spoken(parts, caps) <==> !HoldsEscaped(Spoken(parts, caps)))
  {
    hide Spoken, EscapeDelimiters, EscapeOnce, UnescapeTags, HoldsEscaped, UserContent, Blocks, Reminders, Count;
    var spoken, xml := Spoken(parts, caps), Blocks(Reminders(parts));
    ContentIsSpoken(parts, caps);
    EscapedTextHasNoDelimiter(spoken);
    XmlOpens(Reminders(parts));
    BeforeIsHead(EscapeDelimiters(spoken), xml);
    EscapeIsOnePass(spoken);
    ReadsBackIff(spoken);
  }

  predicate Asked(parts: seq<Part>) { CompactionRequest(Pending) in parts }

  /** The compaction request closes the message that is pending it, on a line of its own. */
  lemma RequestComesLast(parts: seq<Part>, caps: Caps, request: Option<string>)
    ensures var content, plain := UserContent(parts, caps, request), UserContent(parts, caps, None);
            && (request.None? || !Asked(parts) ==> content == plain)
            && (request.Some? && Asked(parts) && plain == "" ==> content == request.value)
            && (request.Some? && Asked(parts) && plain != "" ==> content == plain + "\n" + request.value)
  {
    hide Lines, EscapeDelimiters;
    if Asked(parts) {
      var i :| 0 <= i < |parts| && parts[i] == CompactionRequest(Pending);
      assert IsPendingRequest(parts[i]);
    }
  }

  // ----- which messages are sent ----------------------------------------------------------------

  predicate AnyText(parts: seq<Part>) { exists i :: 0 <= i < |parts| && parts[i].Text? && parts[i].text != "" }

  lemma {:induction false} TextsEmptyIff(parts: seq<Part>)
    ensures FromFirst(Texts(parts)) == [] <==> !AnyText(parts)
  {
    if parts != [] {
      TextsEmptyIff(parts[1..]);
      var here := if parts[0].Text? then [parts[0].text] else [];
      FromFirstAppend(here, Texts(parts[1..]));
      assert parts[0].Text? ==> here[1..] == [];
      if i :| 0 <= i < |parts| && parts[i].Text? && parts[i].text != "" {
        if i > 0 { assert parts[1..][i - 1] == parts[i]; }
      }
      if AnyText(parts[1..]) {
        var i :| 0 <= i < |parts[1..]| && parts[1..][i].Text? && parts[1..][i].text != "";
        assert parts[i + 1] == parts[1..][i];
      }
    }
  }

  lemma TextEmptyIff(parts: seq<Part>)
    ensures Lines(parts, TextLine) == Joined(FromFirst(Texts(parts)))
    ensures Lines(parts, TextLine) == "" <==> !AnyText(parts)
  {
    LinesAreJoined(parts, TextLine);
    TextsAreCollected(parts);
    TextsEmptyIff(parts);
    JoinedIsEmpty(Texts(parts));
  }

  /** A system message is its texts, and is left out exactly if it has none to say. */
  lemma SystemSpeaks(parts: seq<Part>, caps: Caps, request: Option<string>)
    ensures var sent := LlmMessage(System, Joined(FromFirst(Texts(parts))), None, [], None);
            ProjectMessage(System, parts, caps, request) == if AnyText(parts) then [sent] else []
  {
    hide Lines;
    TextEmptyIff(parts);
  }

  lemma {:induction false} WordedIff(parts: seq<Part>, caps: Caps)
    ensures Wordings(parts, caps) == [] <==> forall i :: 0 <= i < |parts| ==> !Worded(parts[i], caps)
  {
    hide Worded;
    if parts != [] {
      WordedIff(parts[1..], caps);
      assert forall i :: 0 < i < |parts| ==> parts[i] == parts[1..][i - 1];
      assert forall i :: 0 <= i < |parts[1..]| ==> parts[1..][i] == parts[i + 1];
    }
  }

  lemma {:induction false} RemindedIff(parts: seq<Part>)
    ensures Reminders(parts) == [] <==> forall i :: 0 <= i < |parts| ==> !parts[i].RuntimeReminder?
  {
    if parts != [] {
      RemindedIff(parts[..|parts| - 1]);
      assert forall i :: 0 <= i < |parts| - 1 ==> parts[i] == parts[..|parts| - 1][i];
    }
  }

  /** Nothing in the parts says anything to the model in words. */
  predicate Mute(parts: seq<Part>, caps: Caps)
  {
    !AnyText(parts) && forall i :: 0 <= i < |parts| ==> !Worded(parts[i], caps) && !parts[i].RuntimeReminder?
  }

  lemma MuteIff(parts: seq<Part>, caps: Caps)
    ensures UserContent(parts, caps, None) == "" <==> Mute(parts, caps)
  {
    var spoken := Spoken(parts, caps);
    ContentIsSpoken(parts, caps);
    EscapeIsOnePass(spoken);
    EscapedIsEmpty(spoken);
    SpokenEmptyIff(parts, caps);
    RemindedIff(parts);
    if Reminders(parts) != [] { BlocksNotEmpty(Reminders(parts)); }
    assert Blocks([]) == "";
    hide Spoken, EscapeDelimiters, EscapeOnce, UserContent, Blocks, Reminders, AnyText, Worded;
  }

  lemma SpokenEmptyIff(parts: seq<Part>, caps: Caps)
    ensures Spoken(parts, caps) == "" <==> !AnyText(parts) && Wordings(parts, caps) == []
    ensures Wordings(parts, caps) == [] <==> forall i :: 0 <= i < |parts| ==> !Worded(parts[i], caps)
  {
    var t, w := Texts(parts), Wordings(parts, caps);
    FromFirstAppend(t, w);
    TextsEmptyIff(parts);
    WordedIff(parts, caps);
    WordingsAreCollected(parts, caps);
    JoinedIsEmpty(t + w);
    JoinedIsEmpty(w);
    hide Texts, Wordings, Worded, AnyText, Collected, Joined;
    assert w != [] ==> FromFirst(w) == w;
    assert Joined([]) == "" by { JoinedNothing(); }
  }

  lemma JoinedNothing()
    ensures Joined([]) == ""
  {
  }

  /**
    A user message is sent, as one message, exactly if it has words, a reminder, an image or a pending
    request with wording.
   */
  lemma UserSpeaks(parts: seq<Part>, caps: Caps, request: Option<string>)
    ensures var silent := Mute(parts, caps) && !(exists i :: 0 <= i < |parts| && parts[i].Image?)
                       && !(Asked(parts) && request.Some? && request.value != "");
            var sent := LlmMessage(User, UserContent(parts, caps, request), None, [], None);
            ProjectMessage(User, parts, caps, request) == if silent then [] else [sent]
  {
    MuteIff(parts, caps);
    RequestComesLast(parts, caps, request);
    hide UserContent, Mute, Asked;
  }

  // ----- assistants and tools -------------------------------------------------------------------

  function Only(parts: seq<Part>, keep: Part -> bool): seq<Part>
  {
    if parts == [] then [] else (if keep(parts[0]) then [parts[0]] else []) + Only(parts[1..], keep)
  }

  lemma {:induction false} OnlySnoc(parts: seq<Part>, p: Part, keep: Part -> bool)
    ensures Only(parts + [p], keep) == Only(parts, keep) + if keep(p) then [p] else []
  {
    if parts == [] {
      assert parts + [p] == [p] && [p][1..] == [];
    } else {
      var head, rest := if keep(parts[0]) then [parts[0]] else [], parts[1..];
      var last := if keep(p) then [p] else [];
      assert (parts + [p])[1..] == rest + [p] && (parts + [p])[0] == parts[0];
      OnlySnoc(rest, p, keep);
      assert Only(parts, keep) == head + Only(rest, keep);
      assert Only(parts + [p], keep) == head + Only(rest + [p], keep);
      assert head + (Only(rest, keep) + last) == head + Only(rest, keep) + last;
    }
  }

  function CallParts(parts: seq<Part>): seq<Part> { Only(parts, (p: Part) => p.ToolCall?) }

  function ResultParts(parts: seq<Part>): seq<Part> { Only(parts, (p: Part) => p.ToolResult?) }

  predicate SameCall(c: LlmCall, p: Part)
  {
    p.ToolCall? && c.id == p.callId && c.name == p.name && c.argsJson == p.argsJson
  }

  /** The calls sent are the call parts, one for one and in order. */
  lemma {:induction false} CallsAreSent(parts: seq<Part>)
    ensures |Calls(parts)| == |CallParts(parts)|
    ensures forall k :: 0 <= k < |Calls(parts)| ==> SameCall(Calls(parts)[k], CallParts(parts)[k])
  {
    if parts != [] {
      var front, last := parts[..|parts| - 1], parts[|parts| - 1];
      assert parts == front + [last];
      CallsAreSent(front);
      OnlySnoc(front, last, (p: Part) => p.ToolCall?);
      hide Only;
    }
  }

  /** What a tool message tells of a result. */
  predicate Reports(m: LlmMessage, p: Part)
  {
    && p.ToolResult?
    && m.role == Tool && m.callId == Some(p.callId) && m.reasoning == None && m.calls == []
    && (p.ok ==> m.content == if p.output.Some? then p.output.value else "")
    && (!p.ok ==> m.content == if p.error.Some? then p.error.value else "tool error")
  }

  /** A tool message is one message per result, in order. */
  lemma ToolSpeaks(parts: seq<Part>, caps: Caps, request: Option<string>)
    ensures var sent := ProjectMessage(Tool, parts, caps, request);
            && |sent| == |ResultParts(parts)|
            && forall k :: 0 <= k < |sent| ==> Reports(sent[k], ResultParts(parts)[k])
  {
    hide ProjectTool, ResultParts, Reports;
    ResultsAreSent(parts);
  }

  lemma {:induction false} ResultsAreSent(parts: seq<Part>)
    ensures |ProjectTool(parts)| == |ResultParts(parts)|
    ensures forall k :: 0 <= k < |ProjectTool(parts)| ==> Reports(ProjectTool(parts)[k], ResultParts(parts)[k])
  {
    if parts != [] {
      var front, last := parts[..|parts| - 1], parts[|parts| - 1];
      assert parts == front + [last];
      ResultsAreSent(front);
      OnlySnoc(front, last, (p: Part) => p.ToolResult?);
      hide Only;
    }
  }

  /** The reasoning replayed to a model that takes it. */
  function Thoughts(parts: seq<Part>, caps: Caps): seq<string>
  {
    if parts == [] || !caps.reasoningReplay then []
    else (if parts[0].Reasoning? then [parts[0].text] else []) + Thoughts(parts[1..], caps)
  }

  lemma {:induction false} ThoughtsAreCollected(parts: seq<Part>, caps: Caps)
    ensures Collected(parts, ReasoningLine(caps)) == Thoughts(parts, caps)
  {
    if parts != [] {
      ThoughtsAreCollected(parts[1..], caps);
      assert !caps.reasoningReplay ==> Thoughts(parts[1..], caps) == [];
    }
  }

  /** The texts an assistant message sends: none if it carries a compaction, whose text is metadata. */
  function Says(parts: seq<Part>): seq<string>
  {
    if exists i :: 0 <= i < |parts| && parts[i].Compaction? then [] else FromFirst(Texts(parts))
  }

  /**
    An assistant message is its texts, its replayed reasoning and its calls, in one message, and is left
    out exactly if it has none of the three.
   */
  lemma AssistantSpeaks(parts: seq<Part>, caps: Caps, request: Option<string>)
    ensures var thoughts := FromFirst(Thoughts(parts, caps));
            var sent := ProjectMessage(Assistant, parts, caps, request);
            if Says(parts) == [] && thoughts == [] && CallParts(parts) == [] then sent == []
            else
              && |sent| == 1 && sent[0].role == Assistant && sent[0].callId == None
              && sent[0].content == Joined(Says(parts)) && sent[0].calls == Calls(parts)
              && sent[0].reasoning == if thoughts == [] then None else Some(Joined(thoughts))
  {
    LinesAreJoined(parts, TextLine);
    LinesAreJoined(parts, ReasoningLine(caps));
    TextsAreCollected(parts);
    ThoughtsAreCollected(parts, caps);
    CallsAreSent(parts);
    JoinedIsEmpty(Texts(parts));
    JoinedIsEmpty(Thoughts(parts, caps));
    JoinedNothing();
    hide Lines, Collected, Joined, FromFirst, Texts, Thoughts, Calls, CallParts;
  }

  // ----- summaries ------------------------------------------------------------------------------

  lemma {:induction false} LastSummary(parts: seq<Part>, k: nat)
    requires k < |parts| && parts[k].Compaction?
    requires forall j :: k < j < |parts| ==> !parts[j].Compaction?
    ensures SummaryIn(parts) == Some(parts[k].summary)
  {
    if k < |parts| - 1 { LastSummary(parts[..|parts| - 1], k); }
  }

  /** Part `k` of a message says that `id` is compacted into it. */
  predicate ListsAt<Id(==)>(parse: string -> Option<Id>, parts: seq<Part>, k: nat, r: nat, id: Id)
  {
    k < |parts| && parts[k].Compaction? && r < |parts[k].compactedIds| && parse(parts[k].compactedIds[r]) == Some(id)
  }

  ghost predicate Lists<Id>(parse: string -> Option<Id>, parts: seq<Part>, id: Id)
  {
    exists k: nat, r: nat :: ListsAt(parse, parts, k, r, id)
  }

  lemma {:induction false} ParsedHas<Id>(parse: string -> Option<Id>, raws: seq<string>, owner: Id, l: Listing<Id>)
    ensures l in ParsedIds(parse, raws, owner)
       <==> l.owner == owner && exists r: nat :: r < |raws| && parse(raws[r]) == Some(l.id)
  {
    if raws != [] {
      var front, last := raws[..|raws| - 1], raws[|raws| - 1];
      ParsedHas(parse, front, owner, l);
      assert forall r :: 0 <= r < |front| ==> front[r] == raws[r];
      if l.owner == owner && exists r: nat :: r < |raws| && parse(raws[r]) == Some(l.id) {
        var r: nat :| r < |raws| && parse(raws[r]) == Some(l.id);
        assert r < |front| ==> parse(front[r]) == Some(l.id);
      }
    }
  }

  lemma {:induction false} PartListingsHave<Id>(parse: string -> Option<Id>, parts: seq<Part>, owner: Id,
                                                l: Listing<Id>)
    ensures l in PartListings(parse, parts, owner) <==> l.owner == owner && Lists(parse, parts, l.id)
  {
    hide ParsedIds;
    if parts != [] {
      var front, last := parts[..|parts| - 1], parts[|parts| - 1];
      PartListingsHave(parse, front, owner, l);
      ListsSnoc(parse, front, last, l.id);
      assert parts == front + [last];
      hide Lists;
      if last.Compaction? { ParsedHas(parse, last.compactedIds, owner, l); }
    }
  }

  lemma ListsSnoc<Id>(parse: string -> Option<Id>, parts: seq<Part>, p: Part, id: Id)
    ensures var here := p.Compaction? && exists r: nat :: r < |p.compactedIds| && parse(p.compactedIds[r]) == Some(id);
            Lists(parse, parts + [p], id) <==> Lists(parse, parts, id) || here
  {
    var all := parts + [p];
    assert all[|parts|] == p && forall k :: 0 <= k < |parts| ==> all[k] == parts[k];
    if Lists(parse, all, id) {
      var k: nat, r: nat :| ListsAt(parse, all, k, r, id);
      assert k < |parts| ==> ListsAt(parse, parts, k, r, id);
    }
    if Lists(parse, parts, id) {
      var k: nat, r: nat :| ListsAt(parse, parts, k, r, id);
      assert ListsAt(parse, all, k, r, id);
    }
    if p.Compaction? && exists r: nat :: r < |p.compactedIds| && parse(p.compactedIds[r]) == Some(id) {
      var r: nat :| r < |p.compactedIds| && parse(p.compactedIds[r]) == Some(id);
      assert ListsAt(parse, all, |parts|, r, id);
    }
  }

  /** Message `o` is the last of the log whose compaction parts list `id`. */
  ghost predicate LastLister<Id>(parse: string -> Option<Id>, msgs: Log<Id>, table: PartTable<Id>, id: Id, o: nat)
  {
    && o < |msgs| && Lists(parse, PartsOf(table, msgs[o].id), id)
    && forall j :: o < j < |msgs| ==> !Lists(parse, PartsOf(table, msgs[j].id), id)
  }

  lemma OneMessageOwns<Id>(parse: string -> Option<Id>, parts: seq<Part>, owner: Id, id: Id)
    ensures OwnerIn(PartListings(parse, parts, owner), id) == if Lists(parse, parts, id) then Some(owner) else None
  {
    var ls := PartListings(parse, parts, owner);
    OwnerInMeans(ls, id);
    PartListingsHave(parse, parts, owner, Listing(id, owner));
    if OwnerIn(ls, id).Some? { PartListingsHave(parse, parts, owner, Listing(id, OwnerIn(ls, id).value)); }
  }

  /** A message is superseded by the last of the log to list it, and by none if none does. */
  lemma {:induction false} OwnerIsTheLastLister<Id>(parse: string -> Option<Id>, msgs: Log<Id>, table: PartTable<Id>,
                                                    id: Id)
    ensures forall o: nat :: LastLister(parse, msgs, table, id, o) ==>
              OwnerIn(Listings(parse, msgs, table), id) == Some(msgs[o].id)
    ensures (forall j :: 0 <= j < |msgs| ==> !Lists(parse, PartsOf(table, msgs[j].id), id)) <==>
              OwnerIn(Listings(parse, msgs, table), id).None?
  {
    hide Lists, OwnerIn, PartsOf, PartListings;
    if msgs == [] {
      EmptyOwnsNothing(id);
    } else {
      var front, last := msgs[..|msgs| - 1], msgs[|msgs| - 1];
      var parts := PartsOf(table, last.id);
      OwnerIsTheLastLister(parse, front, table, id);
      OneMessageOwns(parse, parts, last.id, id);
      OwnerInAppend(Listings(parse, front, table), PartListings(parse, parts, last.id), id);
      assert forall j :: 0 <= j < |front| ==> front[j] == msgs[j];
      forall o: nat | LastLister(parse, msgs, table, id, o)
        ensures OwnerIn(Listings(parse, msgs, table), id) == Some(msgs[o].id)
      {
        assert o < |front| ==> LastLister(parse, front, table, id, o);
        assert o < |front| ==> !Lists(parse, PartsOf(table, msgs[|front|].id), id);
      }
    }
  }

  lemma EmptyOwnsNothing<Id>(id: Id)
    ensures OwnerIn([], id) == None
  {
  }

  /** An entry no message lists is sent as what its role makes of its parts. */
  lemma EffectiveStands<Id>(parse: string -> Option<Id>, msgs: Log<Id>, table: PartTable<Id>, caps: Caps,
                            request: Option<string>, i: nat)
    requires i < |msgs| && forall j :: 0 <= j < |msgs| ==> !Lists(parse, PartsOf(table, msgs[j].id), msgs[i].id)
    ensures var parts := if msgs[i].id in table then table[msgs[i].id] else [];
            var piece := Piece(msgs, table, caps, request, Listings(parse, msgs, table), i);
            piece == ProjectMessage(msgs[i].role, parts, caps, request)
  {
    OwnerIsTheLastLister(parse, msgs, table, msgs[i].id);
    hide LastLister, Listings, OwnerIn, SummaryIn, ProjectMessage, IsFirstOf, Lists;
  }

  /**
    What stands for compacted messages: at the first entry whose last lister is `o`, the summary of the
    last compaction part of `o`, under the banner.
   */
  lemma SummaryStands<Id>(parse: string -> Option<Id>, msgs: Log<Id>, table: PartTable<Id>, caps: Caps,
                          request: Option<string>, i: nat, o: nat, c: nat)
    requires i < |msgs| && LastLister(parse, msgs, table, msgs[i].id, o)
    requires IsFirstOf(msgs, Listings(parse, msgs, table), i)
    requires var parts := PartsOf(table, msgs[o].id);
             c < |parts| && parts[c].Compaction? && forall j :: c < j < |parts| ==> !parts[j].Compaction?
    ensures var text := "[Compacted conversation summary]\n" + PartsOf(table, msgs[o].id)[c].summary;
            var piece := Piece(msgs, table, caps, request, Listings(parse, msgs, table), i);
            piece == [LlmMessage(System, text, None, [], None)]
  {
    OwnerIsTheLastLister(parse, msgs, table, msgs[i].id);
    LastSummary(PartsOf(table, msgs[o].id), c);
    hide LastLister, Listings, OwnerIn, PartsOf, SummaryIn, ProjectMessage, IsFirstOf;
  }
}
