/**
  Merging the server's message list into the store's streaming view: the server's messages, mapped and
  folded, replace the store's copies, except those still streaming and those the user typed; messages the
  server does not have yet stay behind them.
 */
module MessageHydration {
  import opened Common
  import opened Transcript
  import opened ToolFolding

  datatype ServerPart =
    | TextBody(id: string, text: string)
    | ReasoningBody(id: string, text: string)
    | CallBody(id: string, callId: string, body: string)
    | ResultBody(id: string, callId: string, ok: bool, output: Option<string>, error: Option<string>)
    | PlanBody(id: string, plan: string)
    | RequestBody(id: string, state: AttemptState, summaryMessage: Option<string>)
    | SummaryBody(id: string)
    | ReminderBody(id: string, content: string)
    | OtherBody(id: string)

  datatype ServerMessage = ServerMessage(id: string, role: Role, parts: seq<ServerPart>)

  // ----- mapping ------------------------------------------------------------------------------

  function Shown(id: string, kind: PartKind, body: string): PartView { PartView(id, kind, None, body, "", "", false) }

  /** The view of a server part; `None` for parts without an inline body. */
  function ToView(p: ServerPart): (r: Option<PartView>)
    ensures r.Some? ==> r.value.buffer == "" && r.value.reasoning == ""
  {
    match p
    case TextBody(id, t) => Some(Shown(id, TextPart, t))
    case ReasoningBody(id, t) => Some(Shown(id, ReasoningPart, t))
    case CallBody(id, c, b) => Some(Shown(id, ToolCallPart, b).(callId := Some(c)))
    case ResultBody(id, c, ok, t, e) =>
      var body := if ok then (if t.Some? then t.value else "") else if e.Some? then e.value else "error";
      Some(Shown(id, ToolResultPart, body).(callId := Some(c), errored := !ok))
    case PlanBody(id, t) => Some(Shown(id, TextPart, t))
    case RequestBody(id, st, _) => if st.Failed? then None else Some(Shown(id, CompactionPart, ""))
    case SummaryBody(_) => None
    case ReminderBody(id, t) => Some(Shown(id, ReminderPart, t))
    case OtherBody(_) => None
  }

  function Views(ps: seq<ServerPart>): (r: seq<PartView>)
    ensures forall p :: p in r ==> p.buffer == "" && p.reasoning == ""
  {
    if ps == [] then []
    else
      var front := Views(ps[..|ps| - 1]);
      var last := ToView(ps[|ps| - 1]);
      if last.Some? then front + [last.value] else front
  }

  function MapMessage<B, F>(m: ServerMessage): MessageView<B, F>
  {
    MessageView(m.id, m.role, Views(m.parts), None, None)
  }


  // ----- which server messages are shown ------------------------------------------------------

  predicate IsFailedRequest(p: ServerPart) { p.RequestBody? && p.state.Failed? }

  predicate HasFailedRequest(m: ServerMessage) { exists i :: 0 <= i < |m.parts| && IsFailedRequest(m.parts[i]) }

  /** The message that was to hold the summary of a failed request, if the request names one. */
  function NamedBy(p: ServerPart): set<string>
  {
    if IsFailedRequest(p) && Truthy(p.summaryMessage) then {p.summaryMessage.value} else {}
  }

  function FailedIn(ps: seq<ServerPart>): set<string>
  {
    if ps == [] then {} else FailedIn(ps[..|ps| - 1]) + NamedBy(ps[|ps| - 1])
  }

  function FailedIds(ms: seq<ServerMessage>): set<string>
  {
    if ms == [] then {} else FailedIds(ms[..|ms| - 1]) + FailedIn(ms[|ms| - 1].parts)
  }

  predicate IsShown(failed: set<string>, m: ServerMessage) { m.id !in failed && !HasFailedRequest(m) }

  /** The shown messages among `ms`, mapped. */
  function Mapped<B, F>(failed: set<string>, ms: seq<ServerMessage>): (r: seq<View<B, F>>)
    ensures forall k :: 0 <= k < |r| ==>
              r[k].id in Ids(ms) && !IsStreaming(r[k]) && r[k].badges.None? && r[k].stepFinish.None?
    ensures Distinct(Ids(ms)) ==> Distinct(ViewIds(r))
  {
    if ms == [] then []
    else
      var front: seq<View<B, F>> := Mapped(failed, ms[..|ms| - 1]);
      assert Ids(ms)[..|ms| - 1] == Ids(ms[..|ms| - 1]);
      if IsShown(failed, ms[|ms| - 1]) then front + [MapMessage(ms[|ms| - 1])] else front
  }

  function Ids(ms: seq<ServerMessage>): (r: seq<string>)
    ensures |r| == |ms| && forall i :: 0 <= i < |r| ==> r[i] == ms[i].id
  {
    seq(|ms|, i requires 0 <= i < |ms| => ms[i].id)
  }

  function ViewIds<B, F>(ms: seq<View<B, F>>): (r: seq<string>)
    ensures |r| == |ms| && forall i :: 0 <= i < |r| ==> r[i] == ms[i].id
  {
    seq(|ms|, i requires 0 <= i < |ms| => ms[i].id)
  }

  // ----- merging ------------------------------------------------------------------------------

  predicate IsStreaming<B, F>(m: View<B, F>)
  {
    exists i :: 0 <= i < |m.parts| && (m.parts[i].buffer != "" || m.parts[i].reasoning != "")
  }

  /** The store's copy is the better one: it holds live deltas, or the text as typed. */
  predicate StoreWins<B, F>(m: View<B, F>) { IsStreaming(m) || m.role.User? }

  /** The store's message with that id, the last one if there are several. */
  function StoreCopy<B, F>(existing: seq<View<B, F>>, id: string): (r: Option<View<B, F>>)
    ensures r.Some? ==> r.value in existing && r.value.id == id
    ensures r.None? ==> id !in ViewIds(existing)
  {
    if existing == [] then None
    else
      var last := existing[|existing| - 1];
      if last.id == id then Some(last) else StoreCopy(existing[..|existing| - 1], id)
  }

  function Settle<B, F>(store: Option<View<B, F>>, m: View<B, F>): View<B, F>
  {
    if store.Some? && StoreWins(store.value) then store.value
    else if store.Some? then
      m.(badges := if store.value.badges.Some? then store.value.badges else m.badges,
         stepFinish := if store.value.stepFinish.Some? then store.value.stepFinish else m.stepFinish)
    else m
  }

  function Settled<B, F>(existing: seq<View<B, F>>, folded: seq<View<B, F>>): (r: seq<View<B, F>>)
    ensures |r| == |folded|
    ensures forall k :: 0 <= k < |r| ==> r[k] == Settle(StoreCopy(existing, folded[k].id), folded[k])
  {
    seq(|folded|, k requires 0 <= k < |folded| => Settle(StoreCopy(existing, folded[k].id), folded[k]))
  }

  /** The messages of `existing` that the server does not have. */
  function Inflight<B, F>(existing: seq<View<B, F>>, ids: seq<string>): (r: seq<View<B, F>>)
    ensures forall m :: m in r ==> m in existing && m.id !in ids
    ensures forall m :: m in existing && m.id !in ids ==> m in r
  {
    if existing == [] then []
    else
      var front := Inflight(existing[..|existing| - 1], ids);
      var last := existing[|existing| - 1];
      assert existing == existing[..|existing| - 1] + [last];
      if last.id in ids then front else front + [last]
  }

  function Folded<B, F>(server: seq<ServerMessage>): seq<View<B, F>> { Fold(Mapped(FailedIds(server), server)) }

  /** `hydrateMessages`, as a value. */
  function Hydrate<B, F>(existing: seq<View<B, F>>, server: seq<ServerMessage>): seq<View<B, F>>
  {
    Settled(existing, Folded(server)) + Inflight(existing, Ids(server))
  }

  // ----- the pass -----------------------------------------------------------------------------

  method CollectFailed(server: seq<ServerMessage>) returns (failed: set<string>)
    ensures failed == FailedIds(server)
  {
    failed := {};
    for i := 0 to |server|
      invariant failed == FailedIds(server[..i])
    {
      var parts := server[i].parts;
      for k := 0 to |parts|
        invariant failed == FailedIds(server[..i]) + FailedIn(parts[..k])
      {
        assert parts[..k + 1][..k] == parts[..k];
        if IsFailedRequest(parts[k]) && Truthy(parts[k].summaryMessage) {
          failed := failed + {parts[k].summaryMessage.value};
        }
      }
      assert parts[..|parts|] == parts;
      assert server[..i + 1][..i] == server[..i];
    }
    assert server[..|server|] == server;
  }

  /** Filters and maps the server's messages into fresh objects. */
  method MapShown<B, F>(server: seq<ServerMessage>, failed: set<string>) returns (objs: seq<Obj<B, F>>)
    ensures Values(objs) == Mapped(failed, server)
    ensures Distinct(objs) && fresh(objs)
  {
    objs := [];
    assert Values(objs) == Mapped(failed, server[..0]);
    hide Mapped, MapMessage, IsShown;
    for i := 0 to |server|
      invariant Values(objs) == Mapped(failed, server[..i])
      invariant Distinct(objs) && fresh(objs)
    {
      MappedSnoc<B, F>(failed, server, i);
      if IsShown(failed, server[i]) {
        var m := new MessageObject(MapMessage(server[i]));
        objs := objs + [m];
      }
    }
    assert server[..|server|] == server;
  }

  lemma MappedSnoc<B, F>(failed: set<string>, ms: seq<ServerMessage>, i: nat)
    requires i < |ms|
    ensures Mapped<B, F>(failed, ms[..i + 1])
         == Mapped<B, F>(failed, ms[..i]) + if IsShown(failed, ms[i]) then [MapMessage<B, F>(ms[i])] else []
  {
    assert ms[..i + 1][..i] == ms[..i];
  }

  method IndexStore<B, F>(existing: seq<View<B, F>>) returns (byId: map<string, View<B, F>>)
    ensures forall id :: id in byId <==> StoreCopy(existing, id).Some?
    ensures forall id :: id in byId ==> StoreCopy(existing, id) == Some(byId[id])
  {
    byId := map[];
    for i := 0 to |existing|
      invariant forall id :: id in byId <==> StoreCopy(existing[..i], id).Some?
      invariant forall id :: id in byId ==> StoreCopy(existing[..i], id) == Some(byId[id])
    {
      assert existing[..i + 1][..i] == existing[..i];
      byId := byId[existing[i].id := existing[i]];
    }
    assert existing[..|existing|] == existing;
  }

  method HydrateMessages<B, F>(existing: seq<View<B, F>>, server: seq<ServerMessage>) returns (r: seq<View<B, F>>)
    ensures r == Hydrate(existing, server)
  {
    hide FailedIds, Mapped, Fold, Settled, Inflight, Resolve, Entries;
    var failed := CollectFailed(server);
    var objs: seq<Obj<B, F>> := MapShown(server, failed);
    var out := FoldToolResults(objs);
    r := SettleAll(existing, out);
    var inflight := FilterInflight(existing, Ids(server));
    r := r + inflight;
  }

  method SettleAll<B, F>(existing: seq<View<B, F>>, folded: seq<Obj<B, F>>) returns (r: seq<View<B, F>>)
    ensures r == Settled(existing, Values(folded))
  {
    hide Settle, StoreCopy;
    var byId := IndexStore(existing);
    r := [];
    for k := 0 to |folded|
      invariant r == Settled(existing, Values(folded))[..k]
    {
      var m := folded[k].Value();
      r := r + [Settle(if m.id in byId then Some(byId[m.id]) else None, m)];
    }
  }

  method FilterInflight<B, F>(existing: seq<View<B, F>>, ids: seq<string>) returns (r: seq<View<B, F>>)
    ensures r == Inflight(existing, ids)
  {
    r := [];
    for i := 0 to |existing|
      invariant r == Inflight(existing[..i], ids)
    {
      assert existing[..i + 1][..i] == existing[..i];
      if existing[i].id !in ids { r := r + [existing[i]]; }
    }
    assert existing[..|existing|] == existing;
  }

  // ----- ids of the result --------------------------------------------------------------------

  lemma FoldedIds<B, F>(server: seq<ServerMessage>)
    ensures forall k :: 0 <= k < |Folded<B, F>(server)| ==> Folded<B, F>(server)[k].id in Ids(server)
    ensures Distinct(Ids(server)) ==> Distinct(ViewIds(Folded<B, F>(server)))
  {
    hide Mapped, FailedIds, Entries, Resolve;
    var msgs: seq<View<B, F>> := Mapped(FailedIds(server), server);
    var es := Entries(msgs, |msgs|);
    forall k | 0 <= k < |es|
      ensures es[k].i < |msgs| && Fold(msgs)[k].id == msgs[es[k].i].id
    {
      assert es[k] in es;
      ResolveKeepsId(msgs, es[k]);
    }
    forall j, k | 0 <= j < k < |es| && Distinct(Ids(server))
      ensures Fold(msgs)[j].id != Fold(msgs)[k].id
    {
      assert ViewIds(msgs)[es[j].i] != ViewIds(msgs)[es[k].i];
    }
  }

  lemma ResolveKeepsId<B, F>(msgs: seq<View<B, F>>, e: Entry)
    requires e.i < |msgs|
    ensures Resolve(msgs, e).id == msgs[e.i].id
  {
  }

  lemma SettleKeepsId<B, F>(existing: seq<View<B, F>>, m: View<B, F>)
    ensures Settle(StoreCopy(existing, m.id), m).id == m.id
  {
  }

  lemma {:induction false} InflightDistinct<B, F>(existing: seq<View<B, F>>, ids: seq<string>)
    requires Distinct(ViewIds(existing))
    ensures Distinct(ViewIds(Inflight(existing, ids)))
  {
    if existing != [] {
      var rest, last := existing[..|existing| - 1], existing[|existing| - 1];
      assert ViewIds(rest) == ViewIds(existing)[..|rest|];
      InflightDistinct(rest, ids);
      forall m | m in Inflight(rest, ids)
        ensures m.id != last.id
      {
        var i :| 0 <= i < |rest| && rest[i] == m;
        assert ViewIds(existing)[i] != ViewIds(existing)[|rest|];
      }
    }
  }

  /** Ids in the result are those of the folded list, then those of the messages in flight. */
  lemma HydratedIds<B, F>(existing: seq<View<B, F>>, server: seq<ServerMessage>)
    ensures ViewIds(Hydrate(existing, server))
         == ViewIds(Folded<B, F>(server)) + ViewIds(Inflight(existing, Ids(server)))
  {
    hide Folded, Settle, StoreCopy, Inflight;
    var folded: seq<View<B, F>> := Folded(server);
    forall k | 0 <= k < |folded|
      ensures Settled(existing, folded)[k].id == folded[k].id
    {
      SettleKeepsId(existing, folded[k]);
    }
  }

  /** No message is shown twice. */
  lemma HydratedIdsAreDistinct<B, F>(existing: seq<View<B, F>>, server: seq<ServerMessage>)
    requires Distinct(ViewIds(existing)) && Distinct(Ids(server))
    ensures Distinct(ViewIds(Hydrate(existing, server)))
  {
    hide Hydrate, Folded, Inflight;
    HydratedIds(existing, server);
    FoldedIds<B, F>(server);
    InflightDistinct(existing, Ids(server));
    var a, b := ViewIds(Folded<B, F>(server)), ViewIds(Inflight(existing, Ids(server)));
    forall j, k | 0 <= j < |a| && 0 <= k < |b|
      ensures a[j] != b[k]
    {
      assert Inflight(existing, Ids(server))[k] in Inflight(existing, Ids(server));
    }
  }

  // ----- what hydration keeps -----------------------------------------------------------------

  /** A copy that no later one shadows is the one found. */
  lemma {:induction false} StoreCopyAt<B, F>(existing: seq<View<B, F>>, k: nat)
    requires k < |existing| && forall j :: k < j < |existing| ==> existing[j].id != existing[k].id
    ensures StoreCopy(existing, existing[k].id) == Some(existing[k])
  {
    if k < |existing| - 1 { StoreCopyAt(existing[..|existing| - 1], k); }
  }

  lemma StoreCopyIs<B, F>(existing: seq<View<B, F>>, m: View<B, F>)
    requires m in existing && Distinct(ViewIds(existing))
    ensures StoreCopy(existing, m.id) == Some(m)
  {
    hide StoreCopy;
    var k :| 0 <= k < |existing| && existing[k] == m;
    forall j | k < j < |existing|
      ensures existing[j].id != existing[k].id
    {
      assert ViewIds(existing)[k] != ViewIds(existing)[j];
    }
    StoreCopyAt(existing, k);
  }

  /**
    Live text and typed text survive: a store copy that is streaming or the user's is in the result
    exactly when its id is, that is unless the server has the message and its fold does not show it.
   */
  lemma LiveCopiesAreKept<B, F>(existing: seq<View<B, F>>, server: seq<ServerMessage>, m: View<B, F>)
    requires m in existing && Distinct(ViewIds(existing)) && StoreWins(m)
    ensures m in Hydrate(existing, server) <==> m.id !in Ids(server) || m.id in ViewIds(Folded<B, F>(server))
  {
    hide Folded, StoreCopy, StoreWins;
    var folded: seq<View<B, F>> := Folded(server);
    var settled := Settled(existing, folded);
    FoldedIds<B, F>(server);
    StoreCopyIs(existing, m);
    forall k | 0 <= k < |folded|
      ensures settled[k].id in ViewIds(folded)
    {
      SettleKeepsId(existing, folded[k]);
      assert settled[k].id == ViewIds(folded)[k];
    }
    if m.id in ViewIds(folded) {
      var k :| 0 <= k < |folded| && folded[k].id == m.id;
      assert settled[k] == m;
      assert Hydrate(existing, server)[k] == m;
    }
  }

  lemma {:induction false} MappedHas<B, F>(failed: set<string>, ms: seq<ServerMessage>, i: nat) returns (k: nat)
    requires i < |ms| && IsShown(failed, ms[i])
    ensures k < |Mapped<B, F>(failed, ms)| && Mapped<B, F>(failed, ms)[k] == MapMessage(ms[i])
  {
    hide MapMessage, IsShown;
    if i < |ms| - 1 {
      k := MappedHas<B, F>(failed, ms[..|ms| - 1], i);
    } else {
      k := |Mapped<B, F>(failed, ms[..|ms| - 1])|;
    }
  }

  lemma {:induction false} MappedFrom<B, F>(failed: set<string>, ms: seq<ServerMessage>, k: nat) returns (i: nat)
    requires k < |Mapped<B, F>(failed, ms)|
    ensures i < |ms| && IsShown(failed, ms[i]) && Mapped<B, F>(failed, ms)[k] == MapMessage(ms[i])
  {
    hide MapMessage, IsShown;
    if k < |Mapped<B, F>(failed, ms[..|ms| - 1])| {
      i := MappedFrom<B, F>(failed, ms[..|ms| - 1], k);
    } else {
      i := |ms| - 1;
    }
  }

  /** Where a message kept by the fold stands in it. */
  lemma KeptStands<B, F>(msgs: seq<View<B, F>>, k: nat) returns (j: nat)
    requires k < |msgs| && !msgs[k].role.Tool?
    ensures j < |Fold(msgs)| && Fold(msgs)[j].id == msgs[k].id
  {
    hide Entries, Resolve;
    var es := Entries(msgs, |msgs|);
    assert Kept(k) in es;
    j :| 0 <= j < |es| && es[j] == Kept(k);
    ResolveKeepsId(msgs, es[j]);
  }

  lemma StandsFrom<B, F>(msgs: seq<View<B, F>>, j: nat) returns (k: nat)
    requires j < |Fold(msgs)|
    ensures k < |msgs| && Fold(msgs)[j].id == msgs[k].id
  {
    hide Entries, Resolve;
    var es := Entries(msgs, |msgs|);
    assert es[j] in es;
    k := es[j].i;
    ResolveKeepsId(msgs, es[j]);
  }

  lemma ShownStands<B, F>(server: seq<ServerMessage>, i: nat)
    requires i < |server| && !server[i].role.Tool? && IsShown(FailedIds(server), server[i])
    ensures server[i].id in ViewIds(Folded<B, F>(server))
  {
    var msgs: seq<View<B, F>> := Mapped(FailedIds(server), server);
    assert Folded<B, F>(server) == Fold(msgs);
    hide FailedIds, Mapped, Fold, IsShown, Folded;
    var k := MappedHas<B, F>(FailedIds(server), server, i);
    var j := KeptStands(msgs, k);
    assert ViewIds(Folded<B, F>(server))[j] == server[i].id;
  }

  lemma StandsShown<B, F>(server: seq<ServerMessage>, j: nat) returns (i: nat)
    requires j < |Folded<B, F>(server)|
    ensures i < |server| && IsShown(FailedIds(server), server[i]) && Folded<B, F>(server)[j].id == server[i].id
  {
    hide FailedIds, Mapped, Fold, IsShown;
    var msgs: seq<View<B, F>> := Mapped(FailedIds(server), server);
    var k := StandsFrom(msgs, j);
    i := MappedFrom<B, F>(FailedIds(server), server, k);
  }

  lemma SameIndex<T>(s: seq<T>, i: nat, j: nat)
    requires Distinct(s) && i < |s| && j < |s| && s[i] == s[j]
    ensures i == j
  {
  }

  /** The server's messages of roles other than tool are shown unless a failed compaction hides them. */
  lemma OnlyFailedCompactionsHide<B, F>(server: seq<ServerMessage>, i: nat)
    requires i < |server| && Distinct(Ids(server)) && !server[i].role.Tool?
    ensures server[i].id in ViewIds(Folded<B, F>(server)) <==> IsShown(FailedIds(server), server[i])
  {
    hide FailedIds, IsShown, Folded;
    if IsShown(FailedIds(server), server[i]) { ShownStands<B, F>(server, i); }
    var ids := ViewIds(Folded<B, F>(server));
    if server[i].id in ids {
      var j :| 0 <= j < |ids| && ids[j] == server[i].id;
      var o := StandsShown<B, F>(server, j);
      SameIndex(Ids(server), o, i);
    }
  }

  /** Where message `i` of the store stands among those in flight. */
  function Rank<B, F>(existing: seq<View<B, F>>, ids: seq<string>, i: nat): nat
    requires i <= |existing|
  {
    |Inflight(existing[..i], ids)|
  }

  lemma InflightAt<B, F>(existing: seq<View<B, F>>, ids: seq<string>, i: nat)
    requires i < |existing| && existing[i].id !in ids
    ensures Rank(existing, ids, i + 1) == Rank(existing, ids, i) + 1
    ensures Rank(existing, ids, i) < |Inflight(existing, ids)|
    ensures Inflight(existing, ids)[Rank(existing, ids, i)] == existing[i]
  {
    hide Inflight;
    var front, later := existing[..i + 1], existing[i + 1..];
    InflightSnoc(existing[..i], existing[i], ids);
    assert front == existing[..i] + [existing[i]];
    InflightAppend(front, later, ids);
    assert front + later == existing;
  }

  lemma InflightSnoc<B, F>(ms: seq<View<B, F>>, m: View<B, F>, ids: seq<string>)
    requires m.id !in ids
    ensures Inflight(ms + [m], ids) == Inflight(ms, ids) + [m]
  {
    assert (ms + [m])[..|ms|] == ms;
  }

  lemma RankGrows<B, F>(existing: seq<View<B, F>>, ids: seq<string>, i: nat, j: nat)
    requires i <= j <= |existing|
    ensures Rank(existing, ids, i) <= Rank(existing, ids, j)
  {
    hide Inflight;
    assert existing[..j] == existing[..i] + existing[i..j];
    InflightAppend(existing[..i], existing[i..j], ids);
  }

  /** The messages the server does not have all stay, untouched, and close the list. */
  lemma InflightIsKept<B, F>(existing: seq<View<B, F>>, server: seq<ServerMessage>)
    ensures var r, n, ids := Hydrate(existing, server), |Folded<B, F>(server)|, Ids(server);
            && |r| == n + Rank(existing, ids, |existing|) && r[n..] == Inflight(existing, ids)
            && forall i: nat | i < |existing| && existing[i].id !in ids ::
                 n + Rank(existing, ids, i) < |r| && r[n + Rank(existing, ids, i)] == existing[i]
  {
    var ids := Ids(server);
    assert existing[..|existing|] == existing;
    assert Rank(existing, ids, |existing|) == |Inflight(existing, ids)|;
    hide Inflight, Rank, Folded;
    forall i: nat | i < |existing| && existing[i].id !in ids
      ensures Rank(existing, ids, i) < |Inflight(existing, ids)|
      ensures Inflight(existing, ids)[Rank(existing, ids, i)] == existing[i]
    {
      InflightAt(existing, ids, i);
    }
  }

  /** They keep their order. */
  lemma InflightStaysInOrder<B, F>(existing: seq<View<B, F>>, server: seq<ServerMessage>, i: nat, j: nat)
    requires i < j < |existing| && existing[i].id !in Ids(server)
    ensures Rank(existing, Ids(server), i) < Rank(existing, Ids(server), j)
  {
    hide Inflight, Rank;
    InflightAt(existing, Ids(server), i);
    RankGrows(existing, Ids(server), i + 1, j);
  }

  // ----- idempotence --------------------------------------------------------------------------

  /** As the server's messages are: nothing streaming, nothing carried over. */
  predicate Quiet<B, F>(m: View<B, F>) { !IsStreaming(m) && m.badges.None? && m.stepFinish.None? }

  lemma {:induction false} PartsInHas<B, F>(msgs: seq<View<B, F>>, k: nat, p: PartView)
    requires k < |msgs| && p in msgs[k].parts
    ensures p in PartsIn(msgs)
  {
    if k < |msgs| - 1 { PartsInHas(msgs[..|msgs| - 1], k, p); }
  }

  lemma {:induction false} PartsInFrom<B, F>(msgs: seq<View<B, F>>, p: PartView) returns (k: nat)
    requires p in PartsIn(msgs)
    ensures k < |msgs| && p in msgs[k].parts
  {
    k := |msgs| - 1;
    if p !in msgs[k].parts { k := PartsInFrom(msgs[..k], p); }
  }

  /** Folding only moves parts, so what it shows of the server streams no more than the server does. */
  lemma FoldedIsQuiet<B, F>(server: seq<ServerMessage>, k: nat)
    requires k < |Folded<B, F>(server)|
    ensures Quiet(Folded<B, F>(server)[k])
  {
    hide Mapped, FailedIds, Entries, PartsIn;
    var msgs: seq<View<B, F>> := Mapped(FailedIds(server), server);
    FoldConserves(msgs);
    var e := Entries(msgs, |msgs|)[k];
    assert e in Entries(msgs, |msgs|);
    assert Fold(msgs)[k].badges == msgs[e.i].badges && Fold(msgs)[k].stepFinish == msgs[e.i].stepFinish;
    hide Fold, Resolve;
    forall p | p in Fold(msgs)[k].parts
      ensures p.buffer == "" && p.reasoning == ""
    {
      PartsInHas(Fold(msgs), k, p);
      var i := PartsInFrom(msgs, p);
      assert !IsStreaming(msgs[i]);
    }
  }

  lemma SettleTwice<B, F>(store: Option<View<B, F>>, m: View<B, F>)
    requires Quiet(m)
    ensures Settle(Some(Settle(store, m)), m) == Settle(store, m)
  {
  }

  lemma {:induction false} InflightAppend<B, F>(a: seq<View<B, F>>, b: seq<View<B, F>>, ids: seq<string>)
    ensures Inflight(a + b, ids) == Inflight(a, ids) + Inflight(b, ids)
  {
    if b == [] {
      assert a + b == a;
    } else {
      assert (a + b)[..|a + b| - 1] == a + b[..|b| - 1];
      InflightAppend(a, b[..|b| - 1], ids);
    }
  }

  lemma {:induction false} InflightAll<B, F>(ms: seq<View<B, F>>, ids: seq<string>)
    requires forall k :: 0 <= k < |ms| ==> ms[k].id !in ids
    ensures Inflight(ms, ids) == ms
  {
    if ms != [] {
      var front, last := ms[..|ms| - 1], ms[|ms| - 1];
      assert last.id !in ids;
      InflightAll(front, ids);
      assert ms == front + [last];
    }
  }

  lemma {:induction false} InflightNone<B, F>(ms: seq<View<B, F>>, ids: seq<string>)
    requires forall k :: 0 <= k < |ms| ==> ms[k].id in ids
    ensures Inflight(ms, ids) == []
  {
    if ms != [] { InflightNone(ms[..|ms| - 1], ids); }
  }

  lemma SettledTwice<B, F>(existing: seq<View<B, F>>, server: seq<ServerMessage>, k: nat)
    requires Distinct(Ids(server)) && k < |Folded<B, F>(server)|
    ensures var once := Hydrate(existing, server);
            var g := Folded<B, F>(server)[k];
            && once[k] == Settle(StoreCopy(existing, g.id), g)
            && Settle(StoreCopy(once, g.id), g) == once[k]
            && once[k].id in Ids(server)
  {
    hide Folded, StoreCopy, Settle, Inflight;
    var folded: seq<View<B, F>> := Folded(server);
    var once := Hydrate(existing, server);
    assert once[k] == Settle(StoreCopy(existing, folded[k].id), folded[k]);
    FoldedIds<B, F>(server);
    HydratedIds(existing, server);
    var inflight := Inflight(existing, Ids(server));
    forall j | k < j < |once|
      ensures once[j].id != once[k].id
    {
      assert once[j].id == ViewIds(once)[j] && once[k].id == ViewIds(once)[k];
      if j >= |folded| { assert inflight[j - |folded|] in inflight; }
    }
    assert ViewIds(once)[k] == folded[k].id;
    StoreCopyAt(once, k);
    FoldedIsQuiet<B, F>(server, k);
    SettleTwice(StoreCopy(existing, folded[k].id), folded[k]);
  }

  /** Hydrating again with the same server list changes nothing. */
  lemma HydrateIsIdempotent<B, F>(existing: seq<View<B, F>>, server: seq<ServerMessage>)
    requires Distinct(Ids(server))
    ensures Hydrate(Hydrate(existing, server), server) == Hydrate(existing, server)
  {
    hide Folded, StoreCopy, Settle, Inflight;
    var folded: seq<View<B, F>> := Folded(server);
    var once, ids := Hydrate(existing, server), Ids(server);
    var settled, inflight := Settled(existing, folded), Inflight(existing, ids);
    forall k: nat | k < |folded|
      ensures Settled(once, folded)[k] == settled[k] && settled[k].id in ids
    {
      SettledTwice(existing, server, k);
    }
    assert Settled(once, folded) == settled;
    InflightAppend(settled, inflight, ids);
    InflightNone(settled, ids);
    forall k | 0 <= k < |inflight|
      ensures inflight[k].id !in ids
    {
      assert inflight[k] in inflight;
    }
    InflightAll(inflight, ids);
    assert [] + inflight == inflight;
  }
}
