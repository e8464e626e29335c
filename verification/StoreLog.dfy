/**
  What the store holds, field by field, told from the event log alone: which messages and parts there are
  and in what order, where a part's text stands, and what finishes a message.
 */
module StoreLog {
  import opened Common
  import opened Transcript
  import opened Store
  import opened StoreHistory

  // ----- one message --------------------------------------------------------------------------

  function MessageIn(list: seq<Message>, id: string): Option<Message>
  {
    var i := FindMessage(list, id);
    if i == |list| then None else Some(list[i])
  }

  function MessageAt(ms: Messages, session: string, id: string): Option<Message> { MessageIn(ListOf(ms, session), id) }

  function FindIn(parts: seq<Part>, id: string): Option<Part>
  {
    var j := FindPart(parts, id);
    if j == |parts| then None else Some(parts[j])
  }

  function PartIn(m: Option<Message>, id: string): Option<Part>
  {
    if m.None? then None else FindIn(m.value.parts, id)
  }

  function PartAt(ms: Messages, t: Target): Option<Part> { PartIn(MessageAt(ms, t.session, t.message), t.part) }

  function OrNew(m: Option<Message>, session: string, id: string): Message
  {
    if m.Some? then m.value else NewMessage(session, id)
  }

  function FinalizeIn(parts: seq<Part>, id: string): seq<Part>
  {
    var j := FindPart(parts, id);
    if j == |parts| then parts else parts[j := Finalized(parts[j])]
  }

  /** What an event does to one message. */
  function Told<O>(m: Option<Message>, ev: Event<O>, session: string, id: string): Option<Message>
  {
    match ev
    case MessageCreated(s, i) => if s == session && i == id then Some(OrNew(m, s, i)) else m
    case PartCreated(s, i, p) => if s == session && i == id then Some(EditMessage(OrNew(m, s, i), p, Keep)) else m
    case PartDelta(d) =>
      if d.session == session && d.message == id then
        Some(EditMessage(OrNew(m, session, id), d.part, EditOf(d.kind, d.text)))
      else m
    case PartUpdated(s, i, p) =>
      if s == session && i == id && m.Some? then Some(m.value.(parts := FinalizeIn(m.value.parts, p))) else m
    case StepFinished(s, i, f) =>
      if s == session && i == id && m.Some? then Some(m.value.(stepFinish := Some(f))) else m
    case Other(_) => m
  }

  function ToldAll<O>(m: Option<Message>, evs: seq<Event<O>>, session: string, id: string): Option<Message>
  {
    if evs == [] then m else Told(ToldAll(m, evs[..|evs| - 1], session, id), evs[|evs| - 1], session, id)
  }

  lemma UpsertTold(list: seq<Message>, s: string, m: string, p: string, e: Edit, id: string)
    ensures MessageIn(UpsertInList(list, s, m, p, e), id)
         == if id == m then Some(EditMessage(OrNew(MessageIn(list, m), s, m), p, e)) else MessageIn(list, id)
  {
    hide UpsertPart;
    var next := UpsertInList(list, s, m, p, e);
    var i := FindMessage(list, id);
    FindMessageIs(next, id, if i < |list| || id == m then i else |next|);
  }

  lemma CreateTold(ms: Messages, s: string, m: string, session: string, id: string)
    ensures MessageAt(CreateMessage(ms, s, m), session, id)
         == if s == session && m == id then Some(OrNew(MessageAt(ms, s, m), s, m)) else MessageAt(ms, session, id)
  {
    var list := ListOf(ms, s);
    var i := FindMessage(list, id);
    if session == s && FindMessage(list, m) == |list| {
      var next := list + [NewMessage(s, m)];
      assert ListOf(CreateMessage(ms, s, m), s) == next;
      FindMessageIs(next, id, if i < |list| || id == m then i else |next|);
    }
  }

  /** Replacing a message by one with its id replaces what is found under that id. */
  lemma ReplaceTold(list: seq<Message>, i: nat, m: Message, id: string)
    requires i < |list| && i == FindMessage(list, m.id)
    ensures MessageIn(list[i := m], id) == if id == m.id then Some(m) else MessageIn(list, id)
  {
    FindMessageIs(list[i := m], id, FindMessage(list, id));
  }

  lemma FinalizeTold(ms: Messages, s: string, m: string, p: string, session: string, id: string)
    ensures var was, now := MessageAt(ms, session, id), MessageAt(FinalizePart(ms, s, m, p), session, id);
            && (s == session && m == id && was.Some? ==>
                  now == Some(was.value.(parts := FinalizeIn(was.value.parts, p))))
            && (!(s == session && m == id && was.Some?) ==> now == was)
  {
    hide Finalized;
    var list := ListOf(ms, s);
    var i := FindMessage(list, m);
    if session == s && i < |list| {
      var parts := list[i].parts;
      var next := list[i].(parts := FinalizeIn(parts, p));
      if FindPart(parts, p) == |parts| {
        assert next == list[i];
      } else {
        assert ListOf(FinalizePart(ms, s, m, p), s) == list[i := next];
        ReplaceTold(list, i, next, id);
      }
    }
  }

  lemma FinishTold(ms: Messages, s: string, m: string, f: StepFinish, session: string, id: string)
    ensures var was, now := MessageAt(ms, session, id), MessageAt(FinishStep(ms, s, m, f), session, id);
            now == if s == session && m == id && was.Some? then Some(was.value.(stepFinish := Some(f))) else was
  {
    var list := ListOf(ms, s);
    var i := FindMessage(list, m);
    if session == s && i < |list| {
      var next := list[i].(stepFinish := Some(f));
      assert ListOf(FinishStep(ms, s, m, f), s) == list[i := next];
      ReplaceTold(list, i, next, id);
    }
  }

  lemma ApplyTells<R, O>(reduce: (R, Event<O>) -> R, s: State<R>, ev: Event<O>, session: string, id: string)
    ensures MessageAt(Apply(reduce, s, ev).messages, session, id)
         == Told(MessageAt(s.messages, session, id), ev, session, id)
  {
    hide EditMessage, FinalizePart, CreateMessage, FinishStep, FinalizeIn, UpsertInList, MessageIn;
    match ev
    case MessageCreated(sid, mid) => CreateTold(s.messages, sid, mid, session, id);
    case PartCreated(sid, mid, pid) => UpsertTold(ListOf(s.messages, sid), sid, mid, pid, Keep, id);
    case PartDelta(d) =>
      UpsertTold(ListOf(s.messages, d.session), d.session, d.message, d.part, EditOf(d.kind, d.text), id);
    case PartUpdated(sid, mid, pid) => FinalizeTold(s.messages, sid, mid, pid, session, id);
    case StepFinished(sid, mid, f) => FinishTold(s.messages, sid, mid, f, session, id);
    case Other(_) =>
  }

  lemma {:induction false} LogTells<R, O>(reduce: (R, Event<O>) -> R, s: State<R>, evs: seq<Event<O>>,
                                          session: string, id: string)
    ensures MessageAt(ApplyAll(reduce, s, evs).messages, session, id)
         == ToldAll(MessageAt(s.messages, session, id), evs, session, id)
  {
    hide Apply, Told, MessageAt;
    if evs != [] {
      var front, ev := evs[..|evs| - 1], evs[|evs| - 1];
      LogTells(reduce, s, front, session, id);
      assert evs == front + [ev];
      ApplyAllAppend(reduce, s, front, [ev]);
      assert [ev][1..] == [];
      ApplyTells(reduce, ApplyAll(reduce, s, front), ev, session, id);
    }
  }

  // ----- one part -----------------------------------------------------------------------------

  predicate Updates<O>(ev: Event<O>, t: Target) { ev == PartUpdated(t.session, t.message, t.part) }

  predicate NoUpdate<O>(evs: seq<Event<O>>, t: Target) { forall i :: 0 <= i < |evs| ==> !Updates(evs[i], t) }

  /** A part as it is before anything is known of it. */
  const BLANK := Part("", "text", Some(""), "", "", Streaming)

  /** The fields of a part that events speak of, those of a blank part where there is none. */
  function Known(p: Option<Part>): Part { if p.Some? then p.value else BLANK }

  /** What one event does to a part: tokens go to its buffer, an update moves the buffer to its text. */
  predicate PartStep<O>(was: Option<Part>, now: Option<Part>, ev: Event<O>, t: Target)
  {
    var p, p' := Known(was), Known(now);
    && (now.Some? <==> was.Some? || Touches(ev, t))
    && (!Updates(ev, t) ==> p'.text == p.text && p'.status == p.status && p'.kind == p.kind)
    && (!Updates(ev, t) ==> p'.buffer == p.buffer + Text(ev, t) && p'.reasoning == p.reasoning + Reasoning(ev, t))
    && (Updates(ev, t) && was.Some? ==> p'.text == Some(TextOrEmpty(p.text) + p.buffer) && p'.buffer == "")
    && (Updates(ev, t) && was.Some? ==> p'.status == Complete && p'.reasoning == p.reasoning && p'.kind == p.kind)
  }

  lemma NothingHappens<O>(was: Option<Part>, ev: Event<O>, t: Target)
    requires !Touches(ev, t) && (Updates(ev, t) ==> was.None?)
    ensures PartStep(was, was, ev, t)
  {
    assert Known(was).buffer + "" == Known(was).buffer && Known(was).reasoning + "" == Known(was).reasoning;
  }

  lemma UpsertedPart(parts: seq<Part>, p: string, e: Edit, id: string)
    ensures var was, now := FindIn(parts, id), FindIn(UpsertPart(parts, p, e), id);
            && (id != p ==> now == was)
            && (id == p ==> now == Some(Edited(if was.Some? then was.value else NewPart(p), e)))
  {
    hide Edited;
    var next := UpsertPart(parts, p, e);
    var j := FindPart(parts, id);
    FindPartIs(next, id, if j < |parts| || id == p then j else |next|);
  }

  lemma EditStep<O>(was: Option<Part>, ev: Event<O>, t: Target)
    requires Touches(ev, t)
    ensures PartStep(was, Some(Edited(if was.Some? then was.value else NewPart(t.part), EditFrom(ev))), ev, t)
  {
    assert Known(was).buffer + "" == Known(was).buffer && Known(was).reasoning + "" == Known(was).reasoning;
  }

  /** The upsert of an event that addresses the message. */
  lemma UpsertStep<O>(m: Option<Message>, ev: Event<O>, t: Target, p: string)
    requires ev.PartCreated? || ev.PartDelta?
    requires Touches(ev, Target(t.session, t.message, p))
    ensures var next := EditMessage(OrNew(m, t.session, t.message), p, EditFrom(ev));
            PartStep(PartIn(m, t.part), PartIn(Some(next), t.part), ev, t)
  {
    var parts := OrNew(m, t.session, t.message).parts;
    UpsertedPart(parts, p, EditFrom(ev), t.part);
    assert PartIn(m, t.part) == FindIn(parts, t.part);
    hide Edited, PartStep, UpsertPart;
    if t.part == p { EditStep(FindIn(parts, t.part), ev, t); } else { NothingHappens(FindIn(parts, t.part), ev, t); }
  }

  lemma UpdateStep<O>(m: Message, ev: Event<O>, t: Target, p: string)
    requires ev == PartUpdated(t.session, t.message, p)
    ensures PartStep(PartIn(Some(m), t.part), PartIn(Some(m.(parts := FinalizeIn(m.parts, p))), t.part), ev, t)
  {
    FinalizedPart(m.parts, p, t.part);
    var was := PartIn(Some(m), t.part);
    if p == t.part && was.Some? {
      FinalizedStep(was.value, ev, t);
    } else {
      hide Finalized, PartStep;
      NothingHappens(was, ev, t);
    }
  }

  lemma FinalizedStep<O>(p: Part, ev: Event<O>, t: Target)
    requires Updates(ev, t)
    ensures PartStep(Some(p), Some(Finalized(p)), ev, t)
  {
  }

  lemma FinalizedPart(parts: seq<Part>, p: string, id: string)
    ensures FindPart(FinalizeIn(parts, p), id) == FindPart(parts, id) && |FinalizeIn(parts, p)| == |parts|
    ensures var j := FindPart(parts, id);
            j < |parts| ==> FinalizeIn(parts, p)[j] == if id == p then Finalized(parts[j]) else parts[j]
  {
    FindPartIs(FinalizeIn(parts, p), id, FindPart(parts, id));
  }

  lemma PartTold<O>(m: Option<Message>, ev: Event<O>, t: Target)
    ensures PartStep(PartIn(m, t.part), PartIn(Told(m, ev, t.session, t.message), t.part), ev, t)
  {
    var was := PartIn(m, t.part);
    hide PartStep, EditMessage, FinalizeIn;
    match ev
    case MessageCreated(s, i) => {
      if s == t.session && i == t.message { FreshHasNone(m, t); }
      NothingHappens(was, ev, t);
    }
    case PartCreated(s, i, p) => {
      if s == t.session && i == t.message { UpsertStep(m, ev, t, p); } else { NothingHappens(was, ev, t); }
    }
    case PartDelta(d) => {
      var here := d.session == t.session && d.message == t.message;
      if here { UpsertStep(m, ev, t, d.part); } else { NothingHappens(was, ev, t); }
    }
    case PartUpdated(s, i, p) => {
      var here := s == t.session && i == t.message && m.Some?;
      if here { UpdateStep(m.value, ev, t, p); } else { NothingHappens(was, ev, t); }
    }
    case StepFinished(s, i, f) => NothingHappens(was, ev, t);
    case Other(_) => NothingHappens(was, ev, t);
  }

  lemma FreshHasNone(m: Option<Message>, t: Target)
    ensures PartIn(Some(OrNew(m, t.session, t.message)), t.part) == PartIn(m, t.part)
  {
  }

  // ----- a part after a log -------------------------------------------------------------------

  function PartAfter<O>(m: Option<Message>, evs: seq<Event<O>>, t: Target): Option<Part>
  {
    PartIn(ToldAll(m, evs, t.session, t.message), t.part)
  }

  lemma PartAfterSnoc<O>(m: Option<Message>, evs: seq<Event<O>>, ev: Event<O>, t: Target)
    ensures PartStep(PartAfter(m, evs, t), PartAfter(m, evs + [ev], t), ev, t)
  {
    hide PartStep, Told, PartIn;
    assert (evs + [ev])[..|evs|] == evs;
    PartTold(ToldAll(m, evs, t.session, t.message), ev, t);
  }

  /** While a part is not updated, all its tokens are in its buffer and the rest of it stands still. */
  lemma {:induction false} Unfinalised<O>(m: Option<Message>, evs: seq<Event<O>>, t: Target)
    requires NoUpdate(evs, t)
    ensures var was, now := PartIn(m, t.part), PartAfter(m, evs, t);
            && (now.Some? <==> was.Some? || TouchedBy(evs, t))
            && Known(now).buffer == Known(was).buffer + TextOf(evs, t)
            && Known(now).reasoning == Known(was).reasoning + ReasoningOf(evs, t)
            && Known(now).text == Known(was).text && Known(now).kind == Known(was).kind
            && Known(now).status == Known(was).status
  {
    if evs == [] {
      assert Known(PartIn(m, t.part)).buffer + "" == Known(PartIn(m, t.part)).buffer;
      assert Known(PartIn(m, t.part)).reasoning + "" == Known(PartIn(m, t.part)).reasoning;
    } else {
      var front, ev := evs[..|evs| - 1], evs[|evs| - 1];
      assert evs == front + [ev] && !Updates(ev, t);
      assert forall i :: 0 <= i < |front| ==> front[i] == evs[i];
      hide Updates, Touches, TextOf, ReasoningOf, TouchedBy, Known, PartIn, ToldAll;
      Unfinalised(m, front, t);
      PartAfterSnoc(m, front, ev, t);
      LogSnoc(front, ev, t);
      OneMore(m, front, ev, t);
    }
  }

  lemma OneMore<O>(m: Option<Message>, evs: seq<Event<O>>, ev: Event<O>, t: Target)
    ensures var p := Known(PartIn(m, t.part));
            && p.buffer + TextOf(evs, t) + Text(ev, t) == p.buffer + (TextOf(evs, t) + Text(ev, t))
            && p.reasoning + ReasoningOf(evs, t) + Reasoning(ev, t)
            == p.reasoning + (ReasoningOf(evs, t) + Reasoning(ev, t))
  {
  }

  /** `Unfinalised` of a whole store: until its first `part_updated` a part's tokens stand in its buffer. */
  lemma TokensAreBuffered<R, O>(reduce: (R, Event<O>) -> R, s: State<R>, evs: seq<Event<O>>, t: Target)
    requires NoUpdate(evs, t)
    ensures var was, now := PartAt(s.messages, t), PartAt(ApplyAll(reduce, s, evs).messages, t);
            && (now.Some? <==> was.Some? || TouchedBy(evs, t))
            && Known(now).buffer == Known(was).buffer + TextOf(evs, t)
            && Known(now).reasoning == Known(was).reasoning + ReasoningOf(evs, t)
            && Known(now).text == Known(was).text && Known(now).kind == Known(was).kind
            && Known(now).status == Known(was).status
  {
    hide TextOf, ReasoningOf, TouchedBy, Known, PartIn, ToldAll, ApplyAll, MessageAt;
    LogTells(reduce, s, evs, t.session, t.message);
    Unfinalised(MessageAt(s.messages, t.session, t.message), evs, t);
  }

  lemma OneUpdate<R, O>(reduce: (R, Event<O>) -> R, s: State<R>, t: Target)
    ensures var ev: Event<O> := PartUpdated(t.session, t.message, t.part);
            PartStep(PartAt(s.messages, t), PartAt(Apply(reduce, s, ev).messages, t), ev, t)
  {
    var ev: Event<O> := PartUpdated(t.session, t.message, t.part);
    ApplyTells(reduce, s, ev, t.session, t.message);
    PartTold(MessageAt(s.messages, t.session, t.message), ev, t);
  }

  lemma OneApply<R, O>(reduce: (R, Event<O>) -> R, s: State<R>, ev: Event<O>)
    ensures ApplyAll(reduce, s, [ev]) == Apply(reduce, s, ev)
  {
    assert [ev][1..] == [];
  }

  /**
    The last `part_updated` of a part that exists divides its tokens: those before it are its text, with
    whatever it held when the log began, those after it its buffer, and the part is complete.
   */
  lemma UpdateDividesTheTokens<R, O>(reduce: (R, Event<O>) -> R, s: State<R>, before: seq<Event<O>>,
                                     later: seq<Event<O>>, t: Target)
    requires NoUpdate(later, t)
    requires PartAt(s.messages, t).Some? || TouchedBy(before, t)
    ensures var update: Event<O> := PartUpdated(t.session, t.message, t.part);
            var was := Base(ContentAt(s.messages, t));
            var now := PartAt(ApplyAll(reduce, s, before + [update] + later).messages, t);
            && now.Some? && now.value.status == Complete
            && now.value.text == Some(was.text + TextOf(before, t))
            && now.value.buffer == TextOf(later, t)
            && now.value.reasoning == was.reasoning + ReasoningOf(before, t) + ReasoningOf(later, t)
  {
    var update: Event<O> := PartUpdated(t.session, t.message, t.part);
    var mid := ApplyAll(reduce, s, before);
    var then' := Apply(reduce, mid, update);
    StoreTellsTheLog(reduce, s, before, t);
    ContentOfPart(s.messages, t);
    ContentOfPart(mid.messages, t);
    ApplyAllAppend(reduce, s, before, [update]);
    OneApply(reduce, mid, update);
    ApplyAllAppend(reduce, s, before + [update], later);
    OneUpdate(reduce, mid, t);
    TokensAreBuffered(reduce, then', later, t);
    hide ApplyAll, Apply, TextOf, ReasoningOf, TouchedBy, NoUpdate, PartAt, ContentAt, ApplyAll;
    assert "" + TextOf(later, t) == TextOf(later, t);
  }

  lemma ContentOfPart(ms: Messages, t: Target)
    ensures var p := PartAt(ms, t);
            ContentAt(ms, t) == if p.Some? then Some(PartContent(p.value)) else None
  {
  }

  // ----- one message after a log --------------------------------------------------------------

  /** Events that bring a message into being when it is not there. */
  predicate Enters<O>(ev: Event<O>, session: string, id: string)
  {
    match ev
    case MessageCreated(s, m) => s == session && m == id
    case PartCreated(s, m, _) => s == session && m == id
    case PartDelta(d) => d.session == session && d.message == id
    case _ => false
  }

  predicate EnteredBy<O>(evs: seq<Event<O>>, session: string, id: string)
  {
    exists i :: 0 <= i < |evs| && Enters(evs[i], session, id)
  }

  predicate Finishes<O>(ev: Event<O>, session: string, id: string)
  {
    ev.StepFinished? && ev.session == session && ev.message == id
  }

  predicate NoFinish<O>(evs: seq<Event<O>>, session: string, id: string)
  {
    forall i :: 0 <= i < |evs| ==> !Finishes(evs[i], session, id)
  }

  /** What one event does to the head of a message. */
  lemma HeadTold<O>(m: Option<Message>, ev: Event<O>, session: string, id: string)
    ensures var was, now := OrNew(m, session, id), Told(m, ev, session, id);
            && (now.Some? <==> m.Some? || Enters(ev, session, id))
            && (now.Some? ==> now.value.(parts := was.parts, stepFinish := was.stepFinish) == was)
            && (now.Some? && !Finishes(ev, session, id) ==> now.value.stepFinish == was.stepFinish)
            && (m.Some? && Finishes(ev, session, id) ==> now.value.stepFinish == Some(ev.finish))
  {
    hide UpsertPart, FinalizeIn;
  }

  lemma EnteredSnoc<O>(evs: seq<Event<O>>, ev: Event<O>, session: string, id: string)
    ensures EnteredBy(evs + [ev], session, id) <==> EnteredBy(evs, session, id) || Enters(ev, session, id)
    ensures NoFinish(evs + [ev], session, id) <==> NoFinish(evs, session, id) && !Finishes(ev, session, id)
  {
    hide Enters, Finishes;
    var all := evs + [ev];
    assert all[|evs|] == ev && forall i :: 0 <= i < |evs| ==> all[i] == evs[i];
    if EnteredBy(evs, session, id) {
      var i :| 0 <= i < |evs| && Enters(evs[i], session, id);
      assert Enters(all[i], session, id);
    }
    if NoFinish(all, session, id) {
      forall i | 0 <= i < |evs| ensures !Finishes(evs[i], session, id) { assert !Finishes(all[i], session, id); }
    }
  }

  lemma {:induction false} HeadsTold<O>(m: Option<Message>, evs: seq<Event<O>>, session: string, id: string)
    ensures var was, now := OrNew(m, session, id), ToldAll(m, evs, session, id);
            && (now.Some? <==> m.Some? || EnteredBy(evs, session, id))
            && (now.Some? ==> now.value.(parts := was.parts, stepFinish := was.stepFinish) == was)
            && (now.Some? && NoFinish(evs, session, id) ==> now.value.stepFinish == was.stepFinish)
  {
    if evs != [] {
      var front, ev := evs[..|evs| - 1], evs[|evs| - 1];
      assert evs == front + [ev];
      hide EnteredBy, NoFinish, Enters, Finishes, Told, NewMessage;
      HeadsTold(m, front, session, id);
      EnteredSnoc(front, ev, session, id);
      HeadTold(ToldAll(m, front, session, id), ev, session, id);
    }
  }

  /**
    A message is in the store once an event has addressed it, as an assistant's unless it was there
    before, and its step is finished by `step_finished` alone.
   */
  lemma MessagesEnter<R, O>(reduce: (R, Event<O>) -> R, s: State<R>, evs: seq<Event<O>>, session: string, id: string)
    ensures var was := MessageAt(s.messages, session, id);
            var now := MessageAt(ApplyAll(reduce, s, evs).messages, session, id);
            && (now.Some? <==> was.Some? || EnteredBy(evs, session, id))
            && (now.Some? ==> now.value.id == id)
            && (now.Some? ==> now.value.session == if was.Some? then was.value.session else session)
            && (now.Some? ==> now.value.role == if was.Some? then was.value.role else Assistant)
            && (now.Some? && NoFinish(evs, session, id) ==>
                  now.value.stepFinish == if was.Some? then was.value.stepFinish else None)
  {
    hide EnteredBy, NoFinish, ToldAll, ApplyAll, ListOf;
    LogTells(reduce, s, evs, session, id);
    HeadsTold(MessageAt(s.messages, session, id), evs, session, id);
  }

  /** The last `step_finished` of a message that is there is the one the message shows. */
  lemma LastFinishStands<R, O>(reduce: (R, Event<O>) -> R, s: State<R>, before: seq<Event<O>>, f: StepFinish,
                               later: seq<Event<O>>, session: string, id: string)
    requires NoFinish(later, session, id)
    requires MessageAt(s.messages, session, id).Some? || EnteredBy(before, session, id)
    ensures var all := before + [StepFinished(session, id, f)] + later;
            var now := MessageAt(ApplyAll(reduce, s, all).messages, session, id);
            now.Some? && now.value.stepFinish == Some(f)
  {
    var finish: Event<O> := StepFinished(session, id, f);
    var mid := ApplyAll(reduce, s, before);
    var then' := Apply(reduce, mid, finish);
    MessagesEnter(reduce, s, before, session, id);
    ApplyAllAppend(reduce, s, before, [finish]);
    OneApply(reduce, mid, finish);
    ApplyAllAppend(reduce, s, before + [finish], later);
    ApplyTells(reduce, mid, finish, session, id);
    MessagesEnter(reduce, then', later, session, id);
    hide ApplyAll, Apply, EnteredBy, NoFinish, MessageAt;
  }

  // ----- the order of messages and parts --------------------------------------------------------

  function Enter(ids: seq<string>, id: string): seq<string> { if id in ids then ids else ids + [id] }

  /** The message an event addresses in a session, if it brings one into being. */
  function Newcomer<O>(ev: Event<O>, session: string): Option<string>
  {
    match ev
    case MessageCreated(s, m) => if s == session then Some(m) else None
    case PartCreated(s, m, _) => if s == session then Some(m) else None
    case PartDelta(d) => if d.session == session then Some(d.message) else None
    case _ => None
  }

  /** Likewise the part it addresses in a message. */
  function NewPartOf<O>(ev: Event<O>, session: string, message: string): Option<string>
  {
    match ev
    case PartCreated(s, m, p) => if s == session && m == message then Some(p) else None
    case PartDelta(d) => if d.session == session && d.message == message then Some(d.part) else None
    case _ => None
  }

  function Arrive(ids: seq<string>, id: Option<string>): seq<string>
  {
    if id.Some? then Enter(ids, id.value) else ids
  }

  /** `ids` followed by every id the events name that is not yet there, in the order of first mention. */
  function MessagesNamed<O>(ids: seq<string>, evs: seq<Event<O>>, session: string): seq<string>
  {
    if evs == [] then ids
    else Arrive(MessagesNamed(ids, evs[..|evs| - 1], session), Newcomer(evs[|evs| - 1], session))
  }

  function PartsNamed<O>(ids: seq<string>, evs: seq<Event<O>>, session: string, message: string): seq<string>
  {
    if evs == [] then ids
    else Arrive(PartsNamed(ids, evs[..|evs| - 1], session, message), NewPartOf(evs[|evs| - 1], session, message))
  }

  function MessageIds(list: seq<Message>): seq<string> { seq(|list|, i requires 0 <= i < |list| => list[i].id) }

  function PartIds(parts: seq<Part>): seq<string> { seq(|parts|, i requires 0 <= i < |parts| => parts[i].id) }

  function PartIdsIn(m: Option<Message>): seq<string> { if m.Some? then PartIds(m.value.parts) else [] }

  lemma KnownMessage(list: seq<Message>, id: string)
    ensures id in MessageIds(list) <==> FindMessage(list, id) < |list|
  {
    var i := FindMessage(list, id);
    if i < |list| { assert MessageIds(list)[i] == id; }
  }

  lemma KnownPart(parts: seq<Part>, id: string)
    ensures id in PartIds(parts) <==> FindPart(parts, id) < |parts|
  {
    var i := FindPart(parts, id);
    if i < |parts| { assert PartIds(parts)[i] == id; }
  }

  lemma UpsertEnters(list: seq<Message>, s: string, m: string, p: string, e: Edit)
    ensures MessageIds(UpsertInList(list, s, m, p, e)) == Enter(MessageIds(list), m)
  {
    hide UpsertPart;
    KnownMessage(list, m);
  }

  lemma UpsertPartEnters(parts: seq<Part>, p: string, e: Edit)
    ensures PartIds(UpsertPart(parts, p, e)) == Enter(PartIds(parts), p)
  {
    hide Edited;
    KnownPart(parts, p);
  }

  lemma MessagesArrive<R, O>(reduce: (R, Event<O>) -> R, s: State<R>, ev: Event<O>, session: string)
    ensures MessageIds(ListOf(Apply(reduce, s, ev).messages, session))
         == Arrive(MessageIds(ListOf(s.messages, session)), Newcomer(ev, session))
  {
    hide UpsertInList, Finalized;
    var list := ListOf(s.messages, session);
    match ev
    case MessageCreated(sid, mid) => KnownMessage(ListOf(s.messages, sid), mid);
    case PartCreated(sid, mid, pid) => UpsertEnters(ListOf(s.messages, sid), sid, mid, pid, Keep);
    case PartDelta(d) =>
      UpsertEnters(ListOf(s.messages, d.session), d.session, d.message, d.part, EditOf(d.kind, d.text));
    case _ =>
      assert MessageIds(ListOf(Apply(reduce, s, ev).messages, session)) == MessageIds(list);
  }

  lemma PartsArrive<O>(m: Option<Message>, ev: Event<O>, session: string, id: string)
    ensures PartIdsIn(Told(m, ev, session, id)) == Arrive(PartIdsIn(m), NewPartOf(ev, session, id))
  {
    hide UpsertPart;
    var parts := OrNew(m, session, id).parts;
    match ev
    case PartCreated(sid, mid, pid) => UpsertPartEnters(parts, pid, Keep);
    case PartDelta(d) => UpsertPartEnters(parts, d.part, EditOf(d.kind, d.text));
    case PartUpdated(sid, mid, pid) => assert PartIds(FinalizeIn(parts, pid)) == PartIds(parts);
    case _ =>
  }

  /** A session lists its messages in the order in which events first spoke of them. */
  lemma {:induction false} MessagesStandInOrder<R, O>(reduce: (R, Event<O>) -> R, s: State<R>, evs: seq<Event<O>>,
                                                      session: string)
    ensures MessageIds(ListOf(ApplyAll(reduce, s, evs).messages, session))
         == MessagesNamed(MessageIds(ListOf(s.messages, session)), evs, session)
  {
    hide Apply, ListOf, Arrive, Newcomer;
    if evs != [] {
      var front, ev := evs[..|evs| - 1], evs[|evs| - 1];
      MessagesStandInOrder(reduce, s, front, session);
      assert evs == front + [ev];
      ApplyAllAppend(reduce, s, front, [ev]);
      OneApply(reduce, ApplyAll(reduce, s, front), ev);
      MessagesArrive(reduce, ApplyAll(reduce, s, front), ev, session);
    }
  }

  lemma {:induction false} PartsToldInOrder<O>(m: Option<Message>, evs: seq<Event<O>>, session: string, id: string)
    ensures PartIdsIn(ToldAll(m, evs, session, id)) == PartsNamed(PartIdsIn(m), evs, session, id)
  {
    hide Told, Arrive, NewPartOf;
    if evs != [] {
      var front, ev := evs[..|evs| - 1], evs[|evs| - 1];
      PartsToldInOrder(m, front, session, id);
      PartsArrive(ToldAll(m, front, session, id), ev, session, id);
    }
  }

  /** And a message its parts. */
  lemma PartsStandInOrder<R, O>(reduce: (R, Event<O>) -> R, s: State<R>, evs: seq<Event<O>>, session: string,
                                id: string)
    ensures PartIdsIn(MessageAt(ApplyAll(reduce, s, evs).messages, session, id))
         == PartsNamed(PartIdsIn(MessageAt(s.messages, session, id)), evs, session, id)
  {
    hide ApplyAll, ToldAll, PartsNamed, MessageAt, PartIdsIn;
    LogTells(reduce, s, evs, session, id);
    PartsToldInOrder(MessageAt(s.messages, session, id), evs, session, id);
  }
}
