/**
  The client store's message slice and the SSE reducer that feeds it.

  `State<R>` separates the streamed messages, modelled field by field, from every other slice of the
  store, which is a value of type `R` updated by a reducer the lemmas leave arbitrary.
 */
module Store {
  import opened Common
  import opened Transcript

  datatype DeltaKind = TextDelta | ReasoningDelta | ToolArgsDelta
  datatype PartStatus = Streaming | Complete | Errored

  datatype Part = Part(id: string, kind: string, text: Option<string>, buffer: string, reasoning: string,
                       status: PartStatus)
  datatype StepFinish = StepFinish(reason: string, usageTotal: Option<nat>, cost: Option<string>,
                                   contextTokens: Option<nat>)
  datatype Message = Message(id: string, session: string, role: Role, parts: seq<Part>, stepFinish: Option<StepFinish>)

  type Messages = map<string, seq<Message>>
  datatype State<R> = State(messages: Messages, rest: R)

  datatype Delta = Delta(session: string, message: string, part: string, kind: DeltaKind, text: string)

  datatype Event<O> =
    | MessageCreated(session: string, message: string)
    | PartCreated(session: string, message: string, part: string)
    | PartDelta(delta: Delta)
    | PartUpdated(session: string, message: string, part: string)
    | StepFinished(session: string, message: string, finish: StepFinish)
    | Other(payload: O)

  // ----- reducers.ts --------------------------------------------------------------------------

  /** The closures that callers hand to `upsertPartInMessage`. */
  datatype Edit = Keep | AddText(text: string) | AddReasoning(text: string)

  function Edited(p: Part, e: Edit): (r: Part)
    ensures r.id == p.id
  {
    match e
    case Keep => p
    case AddText(t) => p.(buffer := p.buffer + t)
    case AddReasoning(t) => p.(reasoning := p.reasoning + t)
  }

  function NewPart(id: string): Part { Part(id, "text", Some(""), "", "", Streaming) }

  function NewMessage(session: string, id: string): Message { Message(id, session, Assistant, [], None) }

  /** `findIndex` on parts, with the length standing for "absent". */
  function FindPart(parts: seq<Part>, id: string): (i: nat)
    ensures i <= |parts|
    ensures i < |parts| ==> parts[i].id == id
    ensures forall j :: 0 <= j < i ==> parts[j].id != id
  {
    if parts == [] || parts[0].id == id then 0 else 1 + FindPart(parts[1..], id)
  }

  function FindMessage(list: seq<Message>, id: string): (i: nat)
    ensures i <= |list|
    ensures i < |list| ==> list[i].id == id
    ensures forall j :: 0 <= j < i ==> list[j].id != id
  {
    if list == [] || list[0].id == id then 0 else 1 + FindMessage(list[1..], id)
  }

  function UpsertPart(parts: seq<Part>, id: string, e: Edit): seq<Part>
  {
    var i := FindPart(parts, id);
    if i < |parts| then parts[i := Edited(parts[i], e)] else parts + [Edited(NewPart(id), e)]
  }

  function EditMessage(m: Message, part: string, e: Edit): Message { m.(parts := UpsertPart(m.parts, part, e)) }

  function UpsertInList(list: seq<Message>, session: string, message: string, part: string, e: Edit): seq<Message>
  {
    var i := FindMessage(list, message);
    if i < |list| then list[i := EditMessage(list[i], part, e)]
    else list + [EditMessage(NewMessage(session, message), part, e)]
  }

  function ListOf(ms: Messages, session: string): seq<Message>
  {
    if session in ms then ms[session] else []
  }

  /** `upsertPartInMessage`: make sure message and part exist, then edit the part. */
  function UpsertPartInMessage(ms: Messages, session: string, message: string, part: string, e: Edit): Messages
  {
    ms[session := UpsertInList(ListOf(ms, session), session, message, part, e)]
  }

  // ----- apply-event.ts -----------------------------------------------------------------------

  function EditOf(kind: DeltaKind, text: string): Edit
  {
    match kind
    case TextDelta => AddText(text)
    case ReasoningDelta => AddReasoning(text)
    case ToolArgsDelta => Keep
  }

  function ApplyDelta(ms: Messages, d: Delta): Messages
  {
    UpsertPartInMessage(ms, d.session, d.message, d.part, EditOf(d.kind, d.text))
  }

  function TextOrEmpty(t: Option<string>): string { if t.Some? then t.value else "" }

  function Finalized(p: Part): Part
  {
    p.(text := Some(TextOrEmpty(p.text) + p.buffer), buffer := "", status := Complete)
  }

  /** `part_updated`: moves the buffer into the text; a no-op when the message or part is absent. */
  function FinalizePart(ms: Messages, session: string, message: string, part: string): Messages
  {
    var list := ListOf(ms, session);
    var i := FindMessage(list, message);
    if i == |list| then ms
    else
      var j := FindPart(list[i].parts, part);
      if j == |list[i].parts| then ms
      else ms[session := list[i := list[i].(parts := list[i].parts[j := Finalized(list[i].parts[j])])]]
  }

  function CreateMessage(ms: Messages, session: string, message: string): Messages
  {
    var list := ListOf(ms, session);
    if FindMessage(list, message) < |list| then ms else ms[session := list + [NewMessage(session, message)]]
  }

  function FinishStep(ms: Messages, session: string, message: string, finish: StepFinish): Messages
  {
    var list := ListOf(ms, session);
    var i := FindMessage(list, message);
    if i == |list| then ms else ms[session := list[i := list[i].(stepFinish := Some(finish))]]
  }

  /** `applyEvent`; `reduce` is the part of the reducer that touches the other slices. */
  function Apply<R, O>(reduce: (R, Event<O>) -> R, s: State<R>, ev: Event<O>): State<R>
  {
    match ev
    case MessageCreated(sid, mid) => s.(messages := CreateMessage(s.messages, sid, mid))
    case PartCreated(sid, mid, pid) => s.(messages := UpsertPartInMessage(s.messages, sid, mid, pid, Keep))
    case PartDelta(d) => s.(messages := ApplyDelta(s.messages, d))
    case PartUpdated(sid, mid, pid) => s.(messages := FinalizePart(s.messages, sid, mid, pid))
    case StepFinished(sid, mid, f) => State(FinishStep(s.messages, sid, mid, f), reduce(s.rest, ev))
    case Other(_) => s.(rest := reduce(s.rest, ev))
  }

  function ApplyAll<R, O>(reduce: (R, Event<O>) -> R, s: State<R>, evs: seq<Event<O>>): State<R>
    decreases |evs|
  {
    if evs == [] then s else ApplyAll(reduce, Apply(reduce, s, evs[0]), evs[1..])
  }

  lemma {:induction false} ApplyAllAppend<R, O>(reduce: (R, Event<O>) -> R, s: State<R>, xs: seq<Event<O>>,
                                                ys: seq<Event<O>>)
    ensures ApplyAll(reduce, s, xs + ys) == ApplyAll(reduce, ApplyAll(reduce, s, xs), ys)
    decreases |xs|
  {
    hide Apply;
    if xs == [] {
      assert xs + ys == ys;
    } else {
      assert (xs + ys)[1..] == xs[1..] + ys;
      ApplyAllAppend(reduce, Apply(reduce, s, xs[0]), xs[1..], ys);
    }
  }

  function ApplyDeltas(ms: Messages, ds: seq<Delta>): Messages
    decreases |ds|
  {
    if ds == [] then ms else ApplyDeltas(ApplyDelta(ms, ds[0]), ds[1..])
  }

  lemma {:induction false} ApplyDeltasAppend(ms: Messages, xs: seq<Delta>, ys: seq<Delta>)
    ensures ApplyDeltas(ms, xs + ys) == ApplyDeltas(ApplyDeltas(ms, xs), ys)
    decreases |xs|
  {
    hide ApplyDelta;
    if xs == [] {
      assert xs + ys == ys;
    } else {
      assert (xs + ys)[1..] == xs[1..] + ys;
      ApplyDeltasAppend(ApplyDelta(ms, xs[0]), xs[1..], ys);
    }
  }

  // ----- commutation of upserts ---------------------------------------------------------------

  predicate HasPart(parts: seq<Part>, id: string) { FindPart(parts, id) < |parts| }

  predicate HasMessage(list: seq<Message>, id: string) { FindMessage(list, id) < |list| }

  /** The part a delta addresses is already in the store. */
  predicate HasTarget(ms: Messages, d: Delta)
  {
    var list := ListOf(ms, d.session);
    HasMessage(list, d.message) && HasPart(list[FindMessage(list, d.message)].parts, d.part)
  }

  predicate SameTarget(d: Delta, e: Delta)
  {
    d.session == e.session && d.message == e.message && d.part == e.part
  }

  /** An index is the one `findIndex` returns as soon as it is the first with that id. */
  lemma FindPartIs(parts: seq<Part>, id: string, i: nat)
    requires i <= |parts| && (i < |parts| ==> parts[i].id == id)
    requires forall j :: 0 <= j < i ==> parts[j].id != id
    ensures FindPart(parts, id) == i
  {
  }

  lemma FindMessageIs(list: seq<Message>, id: string, i: nat)
    requires i <= |list| && (i < |list| ==> list[i].id == id)
    requires forall j :: 0 <= j < i ==> list[j].id != id
    ensures FindMessage(list, id) == i
  {
  }

  /** Upserting `q` never moves an existing part. */
  lemma FindPartStable(parts: seq<Part>, q: string, e: Edit, id: string)
    requires HasPart(parts, id)
    ensures HasPart(UpsertPart(parts, q, e), id)
    ensures FindPart(UpsertPart(parts, q, e), id) == FindPart(parts, id)
  {
    hide Edited;
    FindPartIs(UpsertPart(parts, q, e), id, FindPart(parts, id));
  }

  lemma FindPartAbsent(parts: seq<Part>, id: string, e: Edit, q: string)
    requires HasPart(parts, id) && !HasPart(parts, q)
    ensures !HasPart(UpsertPart(parts, id, e), q)
  {
    hide Edited;
    FindPartIs(UpsertPart(parts, id, e), q, |parts|);
  }

  lemma EditsCommute(p: Part, e: Edit, f: Edit)
    requires e.AddText? ==> !f.AddText?
    requires e.AddReasoning? ==> !f.AddReasoning?
    ensures Edited(Edited(p, e), f) == Edited(Edited(p, f), e)
  {
  }

  /** Writes to two places, or a write and a push, can change places. */
  lemma WritesCommute<X>(s: seq<X>, i: nat, x: X, j: nat, y: X)
    requires i < |s| && j < |s| && i != j
    ensures s[i := x][j := y] == s[j := y][i := x]
  {
  }

  lemma WritePushCommute<X>(s: seq<X>, i: nat, x: X, y: X)
    requires i < |s|
    ensures s[i := x] + [y] == (s + [y])[i := x]
  {
  }

  lemma PartUpsertsCommute(parts: seq<Part>, id: string, e: Edit, q: string, f: Edit)
    requires HasPart(parts, id)
    requires id == q ==> (e.AddText? ==> !f.AddText?) && (e.AddReasoning? ==> !f.AddReasoning?)
    ensures UpsertPart(UpsertPart(parts, q, f), id, e) == UpsertPart(UpsertPart(parts, id, e), q, f)
  {
    var i, j := FindPart(parts, id), FindPart(parts, q);
    FindPartStable(parts, q, f, id);
    hide Edited;
    if HasPart(parts, q) {
      FindPartStable(parts, id, e, q);
      hide FindPart;
      if id == q {
        EditsCommute(parts[i], e, f);
      } else {
        WritesCommute(parts, i, Edited(parts[i], e), j, Edited(parts[j], f));
      }
    } else {
      FindPartAbsent(parts, id, e, q);
      hide FindPart;
      WritePushCommute(parts, i, Edited(parts[i], e), Edited(NewPart(q), f));
    }
  }

  lemma FindMessageStable(list: seq<Message>, s: string, m: string, p: string, e: Edit, id: string)
    requires HasMessage(list, id)
    ensures HasMessage(UpsertInList(list, s, m, p, e), id)
    ensures FindMessage(UpsertInList(list, s, m, p, e), id) == FindMessage(list, id)
  {
    hide UpsertPart;
    FindMessageIs(UpsertInList(list, s, m, p, e), id, FindMessage(list, id));
  }

  lemma FindMessageAbsent(list: seq<Message>, s: string, m: string, p: string, e: Edit, q: string)
    requires HasMessage(list, m) && !HasMessage(list, q)
    ensures !HasMessage(UpsertInList(list, s, m, p, e), q)
  {
    hide UpsertPart;
    FindMessageIs(UpsertInList(list, s, m, p, e), q, |list|);
  }

  lemma ListUpsertsCommute(list: seq<Message>, s: string, m: string, p: string, e: Edit, m': string, p': string,
                           f: Edit)
    requires HasMessage(list, m) && HasPart(list[FindMessage(list, m)].parts, p)
    requires m == m' && p == p' ==> (e.AddText? ==> !f.AddText?) && (e.AddReasoning? ==> !f.AddReasoning?)
    ensures UpsertInList(UpsertInList(list, s, m', p', f), s, m, p, e)
         == UpsertInList(UpsertInList(list, s, m, p, e), s, m', p', f)
  {
    hide UpsertPart, HasPart;
    var i, j := FindMessage(list, m), FindMessage(list, m');
    FindMessageStable(list, s, m', p', f, m);
    if HasMessage(list, m') {
      FindMessageStable(list, s, m, p, e, m');
      hide FindMessage;
      if m == m' {
        PartUpsertsCommute(list[i].parts, p, e, p', f);
      } else {
        hide EditMessage;
        WritesCommute(list, i, EditMessage(list[i], p, e), j, EditMessage(list[j], p', f));
      }
    } else {
      FindMessageAbsent(list, s, m, p, e, m');
      hide FindMessage, EditMessage;
      WritePushCommute(list, i, EditMessage(list[i], p, e), EditMessage(NewMessage(s, m'), p', f));
    }
  }

  /** A delta whose part exists commutes with any delta to another part or of another kind. */
  lemma DeltasCommute(ms: Messages, d: Delta, e: Delta)
    requires HasTarget(ms, d)
    requires SameTarget(d, e) ==> d.kind != e.kind
    ensures ApplyDelta(ApplyDelta(ms, e), d) == ApplyDelta(ApplyDelta(ms, d), e)
  {
    hide UpsertInList, HasMessage, HasPart;
    if d.session == e.session {
      ListUpsertsCommute(ListOf(ms, d.session), d.session, d.message, d.part, EditOf(d.kind, d.text),
                         e.message, e.part, EditOf(e.kind, e.text));
    }
    assert ApplyDelta(ApplyDelta(ms, e), d) == ApplyDelta(ApplyDelta(ms, d), e);
  }

  /** Deltas keep what is there: a target that exists goes on existing. */
  lemma TargetPersists(ms: Messages, d: Delta, e: Delta)
    requires HasTarget(ms, d)
    ensures HasTarget(ApplyDelta(ms, e), d)
  {
    if d.session == e.session {
      var list := ListOf(ms, d.session);
      var f := EditOf(e.kind, e.text);
      FindMessageStable(list, e.session, e.message, e.part, f, d.message);
      if d.message == e.message {
        FindPartStable(list[FindMessage(list, d.message)].parts, e.part, f, d.part);
      }
    }
  }

  /** A delta creates its own target. */
  lemma TargetCreated(ms: Messages, d: Delta)
    ensures HasTarget(ApplyDelta(ms, d), d)
  {
    var list := ListOf(ms, d.session);
    var e := EditOf(d.kind, d.text);
    var i := FindMessage(list, d.message);
    var m := if i < |list| then list[i] else NewMessage(d.session, d.message);
    FindMessageIs(UpsertInList(list, d.session, d.message, d.part, e), d.message, i);
    FindPartIs(UpsertPart(m.parts, d.part, e), d.part, FindPart(m.parts, d.part));
  }

  lemma EditsMerge(p: Part, kind: DeltaKind, t: string, u: string)
    ensures Edited(Edited(p, EditOf(kind, t)), EditOf(kind, u)) == Edited(p, EditOf(kind, t + u))
  {
    assert p.buffer + t + u == p.buffer + (t + u);
    assert p.reasoning + t + u == p.reasoning + (t + u);
  }

  lemma PartUpsertsMerge(parts: seq<Part>, id: string, kind: DeltaKind, t: string, u: string)
    ensures UpsertPart(UpsertPart(parts, id, EditOf(kind, t)), id, EditOf(kind, u))
         == UpsertPart(parts, id, EditOf(kind, t + u))
  {
    var i := FindPart(parts, id);
    EditsMerge(if i < |parts| then parts[i] else NewPart(id), kind, t, u);
    FindPartIs(UpsertPart(parts, id, EditOf(kind, t)), id, i);
    hide Edited;
    assert UpsertPart(UpsertPart(parts, id, EditOf(kind, t)), id, EditOf(kind, u))
        == UpsertPart(parts, id, EditOf(kind, t + u));
  }

  /** Two deltas to one part and kind are one delta with the texts joined. */
  lemma DeltasMerge(ms: Messages, d: Delta, u: string)
    ensures ApplyDelta(ApplyDelta(ms, d), d.(text := u)) == ApplyDelta(ms, d.(text := d.text + u))
  {
    hide UpsertPart;
    var list := ListOf(ms, d.session);
    var i := FindMessage(list, d.message);
    var m := if i < |list| then list[i] else NewMessage(d.session, d.message);
    PartUpsertsMerge(m.parts, d.part, d.kind, d.text, u);
    var once := UpsertInList(list, d.session, d.message, d.part, EditOf(d.kind, d.text));
    FindMessageIs(once, d.message, i);
    assert UpsertInList(once, d.session, d.message, d.part, EditOf(d.kind, u))
        == UpsertInList(list, d.session, d.message, d.part, EditOf(d.kind, d.text + u));
    assert ApplyDelta(ApplyDelta(ms, d), d.(text := u)) == ApplyDelta(ms, d.(text := d.text + u));
  }
}
