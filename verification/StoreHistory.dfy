/**
  What the store says about a part, told from the event log alone: the tokens streamed to it, each
  once and in order, however often the part was finalised on the way.
 */
module StoreHistory {
  import opened Common
  import opened Store
  import opened EventPump

  datatype Target = Target(session: string, message: string, part: string)

  /** What a reader sees of a part: text already finalised followed by the live buffer, and the reasoning. */
  datatype Content = Content(text: string, reasoning: string)

  function PartContent(p: Part): Content { Content(TextOrEmpty(p.text) + p.buffer, p.reasoning) }

  function ContentIn(list: seq<Message>, t: Target): Option<Content>
  {
    var i := FindMessage(list, t.message);
    if i == |list| then None
    else
      var j := FindPart(list[i].parts, t.part);
      if j == |list[i].parts| then None else Some(PartContent(list[i].parts[j]))
  }

  function ContentAt(ms: Messages, t: Target): Option<Content> { ContentIn(ListOf(ms, t.session), t) }

  predicate Touches<O>(ev: Event<O>, t: Target)
  {
    match ev
    case PartCreated(s, m, p) => Target(s, m, p) == t
    case PartDelta(d) => Target(d.session, d.message, d.part) == t
    case _ => false
  }

  predicate TouchedBy<O>(evs: seq<Event<O>>, t: Target) { exists i :: 0 <= i < |evs| && Touches(evs[i], t) }

  function Text<O>(ev: Event<O>, t: Target): string
  {
    if ev.PartDelta? && Touches(ev, t) && ev.delta.kind == TextDelta then ev.delta.text else ""
  }

  function Reasoning<O>(ev: Event<O>, t: Target): string
  {
    if ev.PartDelta? && Touches(ev, t) && ev.delta.kind == ReasoningDelta then ev.delta.text else ""
  }

  /** The text tokens of the log addressed to `t`, joined in order. */
  function TextOf<O>(evs: seq<Event<O>>, t: Target): string
  {
    if evs == [] then "" else TextOf(evs[..|evs| - 1], t) + Text(evs[|evs| - 1], t)
  }

  function ReasoningOf<O>(evs: seq<Event<O>>, t: Target): string
  {
    if evs == [] then "" else ReasoningOf(evs[..|evs| - 1], t) + Reasoning(evs[|evs| - 1], t)
  }

  function Base(c: Option<Content>): Content { if c.Some? then c.value else Content("", "") }

  /** The content of `t` after the log, from its content before it. */
  function ContentAfter<O>(c: Option<Content>, evs: seq<Event<O>>, t: Target): Option<Content>
  {
    if c.None? && !TouchedBy(evs, t) then None
    else Some(Content(Base(c).text + TextOf(evs, t), Base(c).reasoning + ReasoningOf(evs, t)))
  }

  // ----- one event ----------------------------------------------------------------------------

  function EditContent(c: Option<Content>, e: Edit): Option<Content>
  {
    var b := Base(c);
    match e
    case Keep => Some(b)
    case AddText(x) => Some(b.(text := b.text + x))
    case AddReasoning(x) => Some(b.(reasoning := b.reasoning + x))
  }

  /** The edit an event makes to the part it touches. */
  function EditFrom<O>(ev: Event<O>): Edit { if ev.PartDelta? then EditOf(ev.delta.kind, ev.delta.text) else Keep }

  lemma EditedContent(p: Part, e: Edit)
    ensures Some(PartContent(Edited(p, e))) == EditContent(Some(PartContent(p)), e)
    ensures PartContent(NewPart(p.id)) == Content("", "")
    ensures PartContent(Finalized(p)) == PartContent(p)
  {
    if e.AddText? {
      assert TextOrEmpty(p.text) + p.buffer + e.text == TextOrEmpty(p.text) + (p.buffer + e.text);
    }
  }

  lemma UpsertContent(ms: Messages, s: string, m: string, p: string, e: Edit, t: Target)
    ensures ContentAt(UpsertPartInMessage(ms, s, m, p, e), t)
         == if t == Target(s, m, p) then EditContent(ContentAt(ms, t), e) else ContentAt(ms, t)
  {
    if t.session == s {
      var list := ListOf(ms, s);
      var next := UpsertInList(list, s, m, p, e);
      assert ListOf(UpsertPartInMessage(ms, s, m, p, e), s) == next;
      UpsertListContent(list, s, m, p, e, t);
    }
  }

  lemma UpsertListContent(list: seq<Message>, s: string, m: string, p: string, e: Edit, t: Target)
    ensures ContentIn(UpsertInList(list, s, m, p, e), t)
         == if t.message == m && t.part == p then EditContent(ContentIn(list, t), e) else ContentIn(list, t)
  {
    hide UpsertPart, PartContent, EditContent;
    var next := UpsertInList(list, s, m, p, e);
    var i := FindMessage(list, t.message);
    if t.message == m {
      FindMessageIs(next, m, i);
      var parts := if i < |list| then list[i].parts else [];
      assert next[i].parts == UpsertPart(parts, p, e);
      UpsertPartContent(parts, p, e, t.part);
    } else if i < |list| {
      FindMessageIs(next, t.message, i);
    } else {
      FindMessageIs(next, t.message, |next|);
    }
  }

  function ContentOf(parts: seq<Part>, id: string): Option<Content>
  {
    var j := FindPart(parts, id);
    if j == |parts| then None else Some(PartContent(parts[j]))
  }

  lemma UpsertPartContent(parts: seq<Part>, p: string, e: Edit, id: string)
    ensures ContentOf(UpsertPart(parts, p, e), id)
         == if id == p then EditContent(ContentOf(parts, id), e) else ContentOf(parts, id)
  {
    hide PartContent, EditContent, Edited;
    var next := UpsertPart(parts, p, e);
    var j := FindPart(parts, id);
    if id == p {
      FindPartIs(next, id, j);
      var old' := if j < |parts| then parts[j] else NewPart(p);
      EditedContent(old', e);
      EmptyContent(NewPart(p), e);
    } else if j < |parts| {
      FindPartIs(next, id, j);
    } else {
      FindPartIs(next, id, |next|);
    }
  }

  lemma EmptyContent(p: Part, e: Edit)
    requires PartContent(p) == Content("", "")
    ensures EditContent(None, e) == EditContent(Some(PartContent(p)), e)
  {
  }

  /** Finalising moves text from the buffer, so no part reads differently. */
  lemma FinalizeContent(ms: Messages, s: string, m: string, p: string, t: Target)
    ensures ContentAt(FinalizePart(ms, s, m, p), t) == ContentAt(ms, t)
  {
    hide PartContent, Finalized;
    var list := ListOf(ms, s);
    var i := FindMessage(list, m);
    if i < |list| && FindPart(list[i].parts, p) < |list[i].parts| && t.session == s {
      var parts := list[i].parts;
      var j := FindPart(parts, p);
      SameIds(parts[j]);
      var nextParts := parts[j := Finalized(parts[j])];
      var next := list[i := list[i].(parts := nextParts)];
      assert ListOf(FinalizePart(ms, s, m, p), s) == next;
      FindMessageIs(next, t.message, FindMessage(list, t.message));
      if t.message == m {
        FindPartIs(nextParts, t.part, FindPart(parts, t.part));
      }
    }
  }

  lemma SameIds(p: Part)
    ensures Finalized(p).id == p.id && PartContent(Finalized(p)) == PartContent(p)
  {
    EditedContent(p, Keep);
  }

  lemma CreateContent(ms: Messages, s: string, m: string, t: Target)
    ensures ContentAt(CreateMessage(ms, s, m), t) == ContentAt(ms, t)
  {
    hide PartContent;
    var list := ListOf(ms, s);
    if FindMessage(list, m) == |list| && t.session == s {
      var next := list + [NewMessage(s, m)];
      assert ListOf(CreateMessage(ms, s, m), s) == next;
      var i := FindMessage(list, t.message);
      FindMessageIs(next, t.message, if i < |list| || t.message == m then i else |next|);
    }
  }

  lemma FinishContent(ms: Messages, s: string, m: string, f: StepFinish, t: Target)
    ensures ContentAt(FinishStep(ms, s, m, f), t) == ContentAt(ms, t)
  {
    hide PartContent;
    var list := ListOf(ms, s);
    var i := FindMessage(list, m);
    if i < |list| && t.session == s {
      var next := list[i := list[i].(stepFinish := Some(f))];
      assert ListOf(FinishStep(ms, s, m, f), s) == next;
      FindMessageIs(next, t.message, FindMessage(list, t.message));
    }
  }

  lemma ApplyContent<R, O>(reduce: (R, Event<O>) -> R, s: State<R>, ev: Event<O>, t: Target)
    ensures ContentAt(Apply(reduce, s, ev).messages, t)
         == if Touches(ev, t) then EditContent(ContentAt(s.messages, t), EditFrom(ev))
            else ContentAt(s.messages, t)
  {
    hide ContentAt, EditContent, UpsertPartInMessage, FinalizePart, CreateMessage, FinishStep;
    match ev
    case MessageCreated(sid, mid) => CreateContent(s.messages, sid, mid, t);
    case PartCreated(sid, mid, pid) => UpsertContent(s.messages, sid, mid, pid, Keep, t);
    case PartDelta(d) => UpsertContent(s.messages, d.session, d.message, d.part, EditOf(d.kind, d.text), t);
    case PartUpdated(sid, mid, pid) => FinalizeContent(s.messages, sid, mid, pid, t);
    case StepFinished(sid, mid, f) => FinishContent(s.messages, sid, mid, f, t);
    case Other(_) =>
  }

  lemma LogSnoc<O>(evs: seq<Event<O>>, ev: Event<O>, t: Target)
    ensures TouchedBy(evs + [ev], t) <==> TouchedBy(evs, t) || Touches(ev, t)
    ensures TextOf(evs + [ev], t) == TextOf(evs, t) + Text(ev, t)
    ensures ReasoningOf(evs + [ev], t) == ReasoningOf(evs, t) + Reasoning(ev, t)
    ensures !Touches(ev, t) ==> Text(ev, t) == "" && Reasoning(ev, t) == ""
  {
    var all := evs + [ev];
    assert all[..|evs|] == evs && all[|evs|] == ev;
    hide Touches;
    assert forall i :: 0 <= i < |evs| ==> all[i] == evs[i];
    if TouchedBy(evs, t) {
      var i :| 0 <= i < |evs| && Touches(evs[i], t);
      assert Touches(all[i], t);
    }
  }

  lemma ContentAfterSnoc<O>(c: Option<Content>, evs: seq<Event<O>>, ev: Event<O>, t: Target)
    ensures ContentAfter(c, evs + [ev], t)
         == if Touches(ev, t)
            then EditContent(ContentAfter(c, evs, t), EditFrom(ev))
            else ContentAfter(c, evs, t)
  {
    var all := evs + [ev];
    LogSnoc(evs, ev, t);
    UntouchedSaysNothing(evs, t);
    var b := Base(c);
    hide TextOf, ReasoningOf, TouchedBy, Touches;
    assert TextOf(evs, t) + "" == TextOf(evs, t) && ReasoningOf(evs, t) + "" == ReasoningOf(evs, t);
    assert b.text + TextOf(evs, t) + Text(ev, t) == b.text + (TextOf(evs, t) + Text(ev, t));
    assert b.reasoning + ReasoningOf(evs, t) + Reasoning(ev, t)
        == b.reasoning + (ReasoningOf(evs, t) + Reasoning(ev, t));
  }

  lemma {:induction false} UntouchedSaysNothing<O>(evs: seq<Event<O>>, t: Target)
    ensures !TouchedBy(evs, t) ==> TextOf(evs, t) == "" && ReasoningOf(evs, t) == ""
  {
    if evs != [] && !TouchedBy(evs, t) {
      var front := evs[..|evs| - 1];
      assert forall i :: 0 <= i < |front| ==> front[i] == evs[i];
      assert !Touches(evs[|evs| - 1], t);
      UntouchedSaysNothing(front, t);
    }
  }

  /** After any event log, a part reads exactly the tokens streamed to it, each once and in order. */
  lemma {:induction false} StoreTellsTheLog<R, O>(reduce: (R, Event<O>) -> R, s: State<R>, evs: seq<Event<O>>,
                                                  t: Target)
    ensures ContentAt(ApplyAll(reduce, s, evs).messages, t) == ContentAfter(ContentAt(s.messages, t), evs, t)
    decreases |evs|
  {
    hide Apply, ContentAt, ContentAfter, EditContent, Touches;
    if evs == [] {
      EmptyLog<O>(ContentAt(s.messages, t), t);
    } else {
      var front, ev := evs[..|evs| - 1], evs[|evs| - 1];
      assert evs == front + [ev];
      StoreTellsTheLog(reduce, s, front, t);
      ApplyOne(reduce, s, front, ev);
      ApplyContent(reduce, ApplyAll(reduce, s, front), ev, t);
      ContentAfterSnoc(ContentAt(s.messages, t), front, ev, t);
    }
  }

  lemma EmptyLog<O>(c: Option<Content>, t: Target)
    ensures ContentAfter<O>(c, [], t) == c
  {
    assert Base(c).text + "" == Base(c).text && Base(c).reasoning + "" == Base(c).reasoning;
  }

  /** The same of the coalescing pump: under any flush schedule no token is lost, doubled or reordered. */
  lemma PumpTellsTheLog<R, O>(reduce: (R, Event<O>) -> R, s: State<R>, actions: seq<Action<O>>, t: Target)
    requires CompatibleEvents(EventsOf(actions))
    ensures ContentAt(Run(reduce, Pump([], false, s), actions + [Dispose]).state.messages, t)
         == ContentAfter(ContentAt(s.messages, t), EventsOf(actions), t)
  {
    hide ContentAt, ContentAfter, ApplyAll, Run;
    MergedStreamIsRawStream(reduce, s, actions);
    StoreTellsTheLog(reduce, s, EventsOf(actions), t);
  }
}
