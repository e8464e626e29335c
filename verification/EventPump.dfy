/**
  The coalescing pump between the SSE stream and the store.  Deltas accumulate in `pending`, keyed by
  message, part and kind; a timer, a non-delta event or teardown flushes them in first-appearance order.
 */
module EventPump {
  import opened Store

  function KindName(k: DeltaKind): string
  {
    match k
    case TextDelta => "text"
    case ReasoningDelta => "reasoning"
    case ToolArgsDelta => "tool_args"
  }

  /** The template-string key of the pending map. */
  function KeyOf(d: Delta): string { d.message + ":" + (d.part + ":" + KindName(d.kind)) }

  // ----- the key ------------------------------------------------------------------------------

  lemma ColonStands(a: string, x: string)
    ensures var s := a + ":" + x;
            && s[|a|] == ':' && s[..|a|] == a && s[|a| + 1..] == x
            && (forall i :: 0 <= i < |a| ==> s[i] == a[i])
            && forall i :: |a| < i < |s| ==> s[i] == x[i - |a| - 1]
  {
  }

  /** Two strings cut at their first colon. */
  lemma FirstColonCuts(a: string, x: string, b: string, y: string)
    requires ':' !in a && ':' !in b
    requires a + ":" + x == b + ":" + y
    ensures a == b && x == y
  {
    ColonStands(a, x);
    ColonStands(b, y);
    assert |a| == |b|;
  }

  /** Two strings cut at their last colon. */
  lemma LastColonCuts(x: string, a: string, y: string, b: string)
    requires ':' !in a && ':' !in b
    requires x + ":" + a == y + ":" + b
    ensures x == y && a == b
  {
    ColonStands(x, a);
    ColonStands(y, b);
    assert |x| == |y|;
  }

  /** Part ids may contain colons; the key still separates deltas as soon as message ids do not. */
  lemma KeyIsInjective(d: Delta, e: Delta)
    requires ':' !in d.message && ':' !in e.message
    requires KeyOf(d) == KeyOf(e)
    ensures d.message == e.message && d.part == e.part && d.kind == e.kind
  {
    FirstColonCuts(d.message, d.part + ":" + KindName(d.kind), e.message, e.part + ":" + KindName(e.kind));
    LastColonCuts(d.part, KindName(d.kind), e.part, KindName(e.kind));
    assert "text"[0] == 't' && "reasoning"[0] == 'r' && |"text"| != |"tool_args"|;
  }

  // ----- the pending map ----------------------------------------------------------------------

  /** A JavaScript `Map` in insertion order; the index of `key`, or the size when absent. */
  function FindKey(pending: seq<Delta>, key: string): (i: nat)
    ensures i <= |pending|
    ensures i < |pending| ==> KeyOf(pending[i]) == key
    ensures forall j :: 0 <= j < i ==> KeyOf(pending[j]) != key
  {
    if pending == [] || KeyOf(pending[0]) == key then 0 else 1 + FindKey(pending[1..], key)
  }

  function Accumulate(pending: seq<Delta>, d: Delta): seq<Delta>
  {
    var i := FindKey(pending, KeyOf(d));
    if i < |pending| then pending[i := pending[i].(text := pending[i].text + d.text)] else pending + [d]
  }

  predicate DistinctKeys(pending: seq<Delta>)
  {
    forall i, j :: 0 <= i < j < |pending| ==> KeyOf(pending[i]) != KeyOf(pending[j])
  }

  /**
    What the pump needs of the deltas it may merge: equal keys mean the same part.
   */
  predicate Compatible(d: Delta, e: Delta) { KeyOf(d) == KeyOf(e) ==> SameTarget(d, e) }

  /** Ids without a colon, and a session that the message determines, are enough. */
  lemma PlainIdsAreCompatible(d: Delta, e: Delta)
    requires ':' !in d.message && ':' !in e.message && (d.message == e.message ==> d.session == e.session)
    ensures Compatible(d, e)
  {
    if KeyOf(d) == KeyOf(e) { KeyIsInjective(d, e); }
  }

  /** With a colon in a message id two parts can share a key. */
  lemma ColonsCollide(session: string, kind: DeltaKind, x: string, y: string)
    ensures var d, e := Delta(session, "a:b", "c", kind, x), Delta(session, "a", "b:c", kind, y);
            KeyOf(d) == KeyOf(e) && !Compatible(d, e)
  {
    var name := KindName(kind);
    assert "a:b" + ":" + ("c" + ":" + name) == "a" + ":" + ("b:c" + ":" + name);
    assert |"a:b"| != |"a"|;
  }

  predicate CompatibleWith(ds: seq<Delta>, d: Delta)
  {
    forall i :: 0 <= i < |ds| ==> Compatible(ds[i], d)
  }

  lemma AccumulateKeepsKeysDistinct(pending: seq<Delta>, d: Delta)
    requires DistinctKeys(pending)
    ensures DistinctKeys(Accumulate(pending, d))
  {
    hide KeyOf;
    var i := FindKey(pending, KeyOf(d));
    if i < |pending| {
      TextIsNotInKey(pending[i], pending[i].text + d.text);
    }
  }

  lemma TextIsNotInKey(d: Delta, t: string)
    ensures KeyOf(d.(text := t)) == KeyOf(d)
  {
  }

  /** A delta moves back past pending deltas with other keys, once its part exists. */
  lemma {:induction false} CommuteAll(ms: Messages, d: Delta, ds: seq<Delta>)
    requires HasTarget(ms, d)
    requires forall i :: 0 <= i < |ds| ==> KeyOf(ds[i]) != KeyOf(d)
    ensures ApplyDeltas(ApplyDelta(ms, d), ds) == ApplyDelta(ApplyDeltas(ms, ds), d)
    decreases |ds|
  {
    hide ApplyDelta, HasTarget;
    if ds != [] {
      assert SameTarget(d, ds[0]) ==> d.kind != ds[0].kind;
      DeltasCommute(ms, d, ds[0]);
      TargetPersists(ms, d, ds[0]);
      CommuteAll(ApplyDelta(ms, ds[0]), d, ds[1..]);
    }
  }

  /** Merging a delta into the pending map is applying it after the map is flushed. */
  lemma AccumulateIsApply(ms: Messages, pending: seq<Delta>, d: Delta)
    requires DistinctKeys(pending)
    requires CompatibleWith(pending, d)
    ensures ApplyDeltas(ms, Accumulate(pending, d)) == ApplyDelta(ApplyDeltas(ms, pending), d)
  {
    hide ApplyDelta, KeyOf, Compatible;
    var i := FindKey(pending, KeyOf(d));
    if i == |pending| {
      ApplyDeltasAppend(ms, pending, [d]);
      assert [d][1..] == [];
    } else {
      var a, p, b := pending[..i], pending[i], pending[i + 1..];
      MergeIntoKey(p, d);
      var merged := p.(text := p.text + d.text);
      assert Accumulate(pending, d) == a + ([merged] + b);
      assert pending == a + ([p] + b);
      var before := ApplyDeltas(ms, a);
      ApplyDeltasAppend(ms, a, [merged] + b);
      ApplyDeltasAppend(ms, a, [p] + b);
      assert ([merged] + b)[1..] == b && ([p] + b)[1..] == b;
      DeltasMerge(before, p, d.text);
      TargetCreated(before, p);
      TargetIsSame(ApplyDelta(before, p), p, d);
      CommuteAll(ApplyDelta(before, p), d, b);
    }
  }

  lemma MergeIntoKey(p: Delta, d: Delta)
    requires Compatible(p, d)
    requires KeyOf(p) == KeyOf(d)
    ensures d == p.(text := d.text) && SameTarget(p, d)
  {
    KindIsInKey(p, d);
  }

  lemma TargetIsSame(ms: Messages, p: Delta, d: Delta)
    requires SameTarget(p, d) && HasTarget(ms, p)
    ensures HasTarget(ms, d)
  {
  }

  // ----- runs ---------------------------------------------------------------------------------

  datatype Pump<R> = Pump(pending: seq<Delta>, timer: bool, state: State<R>)

  /** What can happen to a pump: an event arrives, the frame timer fires, the owner tears it down. */
  datatype Action<O> = Push(ev: Event<O>) | TimerFires | Dispose

  function Flushed<R>(p: Pump<R>): Pump<R>
  {
    Pump([], false, p.state.(messages := ApplyDeltas(p.state.messages, p.pending)))
  }

  function Step<R, O>(reduce: (R, Event<O>) -> R, p: Pump<R>, a: Action<O>): Pump<R>
  {
    match a
    case Push(ev) =>
      if ev.PartDelta? then p.(pending := Accumulate(p.pending, ev.delta), timer := true)
      else Flushed(p).(state := Apply(reduce, Flushed(p).state, ev))
    case TimerFires => if p.timer then Flushed(p) else p
    case Dispose => Flushed(p)
  }

  function Run<R, O>(reduce: (R, Event<O>) -> R, p: Pump<R>, actions: seq<Action<O>>): Pump<R>
  {
    if actions == [] then p
    else Step(reduce, Run(reduce, p, actions[..|actions| - 1]), actions[|actions| - 1])
  }

  /** The raw stream: the events of a run without its timers. */
  function EventsOf<O>(actions: seq<Action<O>>): seq<Event<O>>
  {
    if actions == [] then []
    else
      var front := EventsOf(actions[..|actions| - 1]);
      var last := actions[|actions| - 1];
      if last.Push? then front + [last.ev] else front
  }

  predicate CompatibleEvents<O>(evs: seq<Event<O>>)
  {
    forall i, j :: 0 <= i < |evs| && 0 <= j < |evs| && evs[i].PartDelta? && evs[j].PartDelta?
      ==> Compatible(evs[i].delta, evs[j].delta)
  }

  /** Every pending delta has the key and the part of some pushed delta. */
  predicate ComesFrom<O>(pending: seq<Delta>, evs: seq<Event<O>>)
  {
    forall i :: 0 <= i < |pending| ==> Addressed(pending[i], evs)
  }

  predicate Addressed<O>(d: Delta, evs: seq<Event<O>>)
  {
    exists j :: 0 <= j < |evs| && evs[j].PartDelta? && KeyOf(d) == KeyOf(evs[j].delta) && SameTarget(d, evs[j].delta)
  }

  /** What holds between the pump and the raw stream at every point of every run. */
  ghost predicate Tracks<R, O>(reduce: (R, Event<O>) -> R, s: State<R>, p: Pump<R>, evs: seq<Event<O>>)
  {
    && Flushed(p).state == ApplyAll(reduce, s, evs)
    && DistinctKeys(p.pending)
    && ComesFrom(p.pending, evs)
    && (p.timer <==> p.pending != [])
  }

  lemma PendingIsCompatible<O>(pending: seq<Delta>, evs: seq<Event<O>>, d: Delta)
    requires ComesFrom(pending, evs)
    requires CompatibleEvents(evs + [PartDelta(d)])
    ensures CompatibleWith(pending, d)
  {
    var all := evs + [PartDelta(d)];
    forall i | 0 <= i < |pending|
      ensures Compatible(pending[i], d)
    {
      assert Addressed(pending[i], evs);
      var j :| 0 <= j < |evs| && evs[j].PartDelta? && KeyOf(pending[i]) == KeyOf(evs[j].delta)
               && SameTarget(pending[i], evs[j].delta);
      assert all[j] == evs[j] && all[|evs|] == PartDelta(d);
      assert Compatible(all[j].delta, all[|evs|].delta);
    }
  }

  lemma AccumulateComesFrom<O>(pending: seq<Delta>, evs: seq<Event<O>>, d: Delta)
    requires ComesFrom(pending, evs)
    ensures ComesFrom(Accumulate(pending, d), evs + [PartDelta(d)])
  {
    hide KeyOf;
    var all := evs + [PartDelta(d)];
    var next := Accumulate(pending, d);
    forall i | 0 <= i < |next|
      ensures Addressed(next[i], all)
    {
      if i < |pending| {
        assert Addressed(pending[i], evs);
        var j :| 0 <= j < |evs| && evs[j].PartDelta? && KeyOf(pending[i]) == KeyOf(evs[j].delta)
                 && SameTarget(pending[i], evs[j].delta);
        TextIsNotInKey(pending[i], next[i].text);
        assert all[j] == evs[j] && KeyOf(next[i]) == KeyOf(all[j].delta) && SameTarget(next[i], all[j].delta);
      } else {
        assert SameTarget(next[i], all[|evs|].delta);
      }
    }
  }

  lemma ApplyOne<R, O>(reduce: (R, Event<O>) -> R, s: State<R>, evs: seq<Event<O>>, ev: Event<O>)
    ensures ApplyAll(reduce, s, evs + [ev]) == Apply(reduce, ApplyAll(reduce, s, evs), ev)
  {
    hide Apply;
    ApplyAllAppend(reduce, s, evs, [ev]);
    assert [ev][1..] == [];
  }

  lemma PushDeltaTracks<R, O>(reduce: (R, Event<O>) -> R, s: State<R>, p: Pump<R>, evs: seq<Event<O>>, d: Delta)
    requires Tracks(reduce, s, p, evs)
    requires CompatibleEvents(evs + [PartDelta(d)])
    ensures Tracks(reduce, s, Step(reduce, p, Push(PartDelta(d))), evs + [PartDelta(d)])
  {
    hide ApplyDelta, KeyOf, Accumulate, ApplyAll, ComesFrom, DistinctKeys, CompatibleEvents, CompatibleWith;
    PendingIsCompatible(p.pending, evs, d);
    AccumulateIsApply(p.state.messages, p.pending, d);
    AccumulateKeepsKeysDistinct(p.pending, d);
    AccumulateComesFrom(p.pending, evs, d);
    AccumulateIsNotEmpty(p.pending, d);
    ApplyOne(reduce, s, evs, PartDelta(d));
  }

  lemma AccumulateIsNotEmpty(pending: seq<Delta>, d: Delta)
    ensures Accumulate(pending, d) != []
  {
  }

  lemma FlushTracks<R, O>(reduce: (R, Event<O>) -> R, s: State<R>, p: Pump<R>, evs: seq<Event<O>>)
    requires Tracks(reduce, s, p, evs)
    ensures Tracks(reduce, s, Flushed(p), evs)
    ensures Flushed(p).state == ApplyAll(reduce, s, evs)
  {
    hide ApplyAll;
  }

  lemma PushOtherTracks<R, O>(reduce: (R, Event<O>) -> R, s: State<R>, p: Pump<R>, evs: seq<Event<O>>, ev: Event<O>)
    requires Tracks(reduce, s, p, evs) && !ev.PartDelta?
    ensures Tracks(reduce, s, Step(reduce, p, Push(ev)), evs + [ev])
  {
    hide ApplyAll, Apply;
    FlushTracks(reduce, s, p, evs);
    ApplyOne(reduce, s, evs, ev);
  }

  lemma {:induction false} RunTracks<R, O>(reduce: (R, Event<O>) -> R, s: State<R>, actions: seq<Action<O>>)
    requires CompatibleEvents(EventsOf(actions))
    ensures Tracks(reduce, s, Run(reduce, Pump([], false, s), actions), EventsOf(actions))
  {
    hide Step, Tracks;
    if actions == [] {
      StartTracks(reduce, s);
    } else {
      var front, last := actions[..|actions| - 1], actions[|actions| - 1];
      CompatiblePrefix(EventsOf(front), EventsOf(actions));
      RunTracks(reduce, s, front);
      StepTracks(reduce, s, Run(reduce, Pump([], false, s), front), EventsOf(front), last);
    }
  }

  lemma StartTracks<R, O>(reduce: (R, Event<O>) -> R, s: State<R>)
    ensures Tracks(reduce, s, Pump([], false, s), [])
  {
  }

  lemma CompatiblePrefix<O>(xs: seq<Event<O>>, ys: seq<Event<O>>)
    requires xs <= ys && CompatibleEvents(ys)
    ensures CompatibleEvents(xs)
  {
    assert forall i :: 0 <= i < |xs| ==> xs[i] == ys[i];
  }

  lemma StepTracks<R, O>(reduce: (R, Event<O>) -> R, s: State<R>, p: Pump<R>, evs: seq<Event<O>>, a: Action<O>)
    requires Tracks(reduce, s, p, evs)
    requires a.Push? ==> CompatibleEvents(evs + [a.ev])
    ensures Tracks(reduce, s, Step(reduce, p, a), if a.Push? then evs + [a.ev] else evs)
  {
    hide Tracks, Flushed, CompatibleEvents, Apply, Accumulate;
    match a
    case Push(ev) =>
      if ev.PartDelta? {
        PushDeltaTracks(reduce, s, p, evs, ev.delta);
      } else {
        PushOtherTracks(reduce, s, p, evs, ev);
      }
    case TimerFires => FlushTracks(reduce, s, p, evs);
    case Dispose => FlushTracks(reduce, s, p, evs);
  }

  /**
    The merged stream means what the raw stream means: after any run of events, timers and teardowns
    that ends in a flush, the store is exactly the one the raw events give, messages and parts in the
    same order; and between flushes a timer is armed exactly while something is buffered.
   */
  lemma MergedStreamIsRawStream<R, O>(reduce: (R, Event<O>) -> R, s: State<R>, actions: seq<Action<O>>)
    requires CompatibleEvents(EventsOf(actions))
    ensures Run(reduce, Pump([], false, s), actions + [Dispose])
         == Pump([], false, ApplyAll(reduce, s, EventsOf(actions)))
    ensures var p := Run(reduce, Pump([], false, s), actions);
            && (p.timer <==> p.pending != [])
            && (p.pending == [] ==> p.state == ApplyAll(reduce, s, EventsOf(actions)))
  {
    hide ApplyAll;
    RunTracks(reduce, s, actions);
    assert (actions + [Dispose])[..|actions|] == actions;
  }

  /** The store is up to date after the timer as well, and after every event that is not a delta. */
  lemma EveryFlushIsCurrent<R, O>(reduce: (R, Event<O>) -> R, s: State<R>, actions: seq<Action<O>>, a: Action<O>)
    requires CompatibleEvents(EventsOf(actions + [a])) && !(a.Push? && a.ev.PartDelta?)
    ensures Run(reduce, Pump([], false, s), actions + [a])
         == Pump([], false, ApplyAll(reduce, s, EventsOf(actions + [a])))
  {
    var all := actions + [a];
    assert all[..|actions|] == actions && all[|actions|] == a;
    CompatiblePrefix(EventsOf(actions), EventsOf(all));
    hide ApplyAll, Apply;
    RunTracks(reduce, s, actions);
    if a.Push? { ApplyOne(reduce, s, EventsOf(actions), a.ev); }
  }

  /** In an otherwise empty store a delta creates its own target and no other. */
  lemma OnlyTarget(d: Delta, e: Delta)
    requires !SameTarget(d, e)
    ensures !HasTarget(ApplyDelta(map[], d), e)
  {
    var f := EditOf(d.kind, d.text);
    assert UpsertPart([], d.part, f) == [Edited(NewPart(d.part), f)];
  }

  /**
    The condition is exact.  Two deltas that collide on a key may be merged, in every store, if and only
    if they address the same part: an id with a colon in it, or a message id seen under two sessions,
    sends the second token to the first one's part.
   */
  lemma CollisionIsSafeIffSameTarget(d: Delta, e: Delta)
    requires KeyOf(d) == KeyOf(e)
    ensures (forall ms: Messages :: ApplyDeltas(ms, Accumulate([d], e)) == ApplyDeltas(ms, [d, e]))
       <==> SameTarget(d, e)
  {
    var merged := d.(text := d.text + e.text);
    forall ms: Messages
      ensures ApplyDeltas(ms, Accumulate([d], e)) == ApplyDelta(ms, merged)
      ensures ApplyDeltas(ms, [d, e]) == ApplyDelta(ApplyDelta(ms, d), e)
    {
      MergedPair(ms, d, e);
    }
    KindIsInKey(d, e);
    hide KeyOf, ApplyDelta, HasTarget;
    if SameTarget(d, e) {
      assert e == d.(text := e.text);
      forall ms: Messages
        ensures ApplyDeltas(ms, Accumulate([d], e)) == ApplyDeltas(ms, [d, e])
      {
        DeltasMerge(ms, d, e.text);
      }
    } else {
      OnlyTarget(merged, e);
      TargetCreated(ApplyDelta(map[], d), e);
      assert ApplyDeltas(map[], Accumulate([d], e)) != ApplyDeltas(map[], [d, e]);
    }
  }

  lemma MergedPair(ms: Messages, d: Delta, e: Delta)
    requires KeyOf(d) == KeyOf(e)
    ensures ApplyDeltas(ms, Accumulate([d], e)) == ApplyDelta(ms, d.(text := d.text + e.text))
    ensures ApplyDeltas(ms, [d, e]) == ApplyDelta(ApplyDelta(ms, d), e)
  {
    hide ApplyDelta, KeyOf;
    var merged := d.(text := d.text + e.text);
    assert FindKey([d], KeyOf(e)) == 0;
    assert Accumulate([d], e) == [merged];
    assert [merged][1..] == [] && [d, e][1..] == [e] && [e][1..] == [];
    var one := ApplyDelta(ms, d);
    assert ApplyDeltas(one, [e]) == ApplyDeltas(ApplyDelta(one, e), [e][1..]);
    assert ApplyDeltas(ms, [d, e]) == ApplyDeltas(one, [d, e][1..]);
  }

  lemma KindIsInKey(d: Delta, e: Delta)
    requires KeyOf(d) == KeyOf(e)
    ensures d.kind == e.kind
  {
    assert KeyOf(d) == (d.message + ":" + d.part) + ":" + KindName(d.kind);
    assert KeyOf(e) == (e.message + ":" + e.part) + ":" + KindName(e.kind);
    LastColonCuts(d.message + ":" + d.part, KindName(d.kind), e.message + ":" + e.part, KindName(e.kind));
    assert "text"[0] == 't' && "reasoning"[0] == 'r' && |"text"| != |"tool_args"|;
  }

  // ----- the pump object ----------------------------------------------------------------------

  class EventPump<R, O> {
    const reduce: (R, Event<O>) -> R
    var pending: seq<Delta>
    var timer: bool
    var state: State<R>

    function Value(): Pump<R>
      reads this
    {
      Pump(pending, timer, state)
    }

    constructor (reduce: (R, Event<O>) -> R, state: State<R>)
      ensures Value() == Pump([], false, state) && this.reduce == reduce
    {
      this.reduce := reduce;
      this.pending, this.timer, this.state := [], false, state;
    }

    /** Snapshot, clear, then hand the merged deltas to `applyEvent` in insertion order. */
    method Flush()
      modifies this
      ensures Value() == Flushed(old(Value()))
    {
      hide ApplyDelta;
      timer := false;
      if pending == [] {
        return;
      }
      var batch := pending;
      pending := [];
      for i := 0 to |batch|
        invariant pending == [] && !timer && state.rest == old(state.rest)
        invariant ApplyDeltas(state.messages, batch[i..]) == ApplyDeltas(old(state.messages), batch)
      {
        assert batch[i..][1..] == batch[i + 1..];
        state := Apply(reduce, state, PartDelta(batch[i]));
      }
    }

    method PushEvent(ev: Event<O>)
      modifies this
      ensures Value() == Step(reduce, old(Value()), Push(ev))
    {
      hide Apply;
      if ev.PartDelta? {
        var d := ev.delta;
        var i := FindKey(pending, KeyOf(d));
        if i < |pending| {
          pending := pending[i := pending[i].(text := pending[i].text + d.text)];
        } else {
          pending := pending + [d];
        }
        timer := true;
        return;
      }
      Flush();
      state := Apply(reduce, state, ev);
    }

    method Teardown()
      modifies this
      ensures Value() == Step(reduce, old(Value()), Dispose)
    {
      Flush();
    }
  }
}
