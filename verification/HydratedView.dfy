/**
  What hydration shows, told from the server's list and the store alone: which messages appear, whose
  body they carry, which text each part shows and in which message it stands.
 */
module HydratedView {
  import opened Common
  import opened Transcript
  import opened ToolFolding
  import opened MessageHydration

  // ----- whose body a message carries ---------------------------------------------------------

  /** The store's copy holds live text, or is what the user typed. */
  predicate Live<B, F>(m: View<B, F>)
  {
    m.role == User || exists i :: 0 <= i < |m.parts| && !(m.parts[i].buffer == "" && m.parts[i].reasoning == "")
  }

  lemma LiveWins<B, F>(m: View<B, F>)
    ensures StoreWins(m) <==> Live(m)
  {
  }

  /** A copy that is not live gives way to the server's body, and leaves it its badges and its footer. */
  lemma ServerBodyReplaces<B, F>(existing: seq<View<B, F>>, server: seq<ServerMessage>, k: nat)
    requires k < |Folded<B, F>(server)| && Distinct(ViewIds(existing))
    requires forall m | m in existing && m.id == Folded<B, F>(server)[k].id :: !Live(m)
    ensures var now, got := Hydrate(existing, server)[k], Folded<B, F>(server)[k];
            && now.id == got.id && now.role == got.role && now.parts == got.parts
            && (forall m | m in existing && m.id == got.id :: now.badges == m.badges && now.stepFinish == m.stepFinish)
            && ((forall m | m in existing :: m.id != got.id) ==> now.badges.None? && now.stepFinish.None?)
  {
    var got := Folded<B, F>(server)[k];
    FoldedIsQuiet<B, F>(server, k);
    hide Folded, StoreCopy, Live, StoreWins, Inflight;
    var copy := StoreCopy(existing, got.id);
    assert Hydrate(existing, server)[k] == Settle(copy, got);
    if copy.Some? { LiveWins(copy.value); }
    forall m | m in existing && m.id == got.id
      ensures copy == Some(m)
    {
      StoreCopyIs(existing, m);
    }
  }

  /** A live copy stands where the server's message would. */
  lemma LiveCopyStands<B, F>(existing: seq<View<B, F>>, server: seq<ServerMessage>, m: View<B, F>, k: nat)
    requires k < |Folded<B, F>(server)| && Distinct(ViewIds(existing))
    requires m in existing && m.id == Folded<B, F>(server)[k].id && Live(m)
    ensures Hydrate(existing, server)[k] == m
  {
    hide Folded, StoreCopy, Live, StoreWins, Inflight;
    LiveWins(m);
    StoreCopyIs(existing, m);
  }

  // ----- which messages are shown -------------------------------------------------------------

  /** Part `b` of message `a` is a compaction attempt that failed and that had message `i` in hand. */
  predicate Spoils(server: seq<ServerMessage>, a: nat, b: nat, i: nat)
    requires a < |server| && b < |server[a].parts| && i < |server|
  {
    var p := server[a].parts[b];
    && p.RequestBody? && p.state == Failed
    && (a == i || (server[i].id != "" && p.summaryMessage == Some(server[i].id)))
  }

  predicate Hidden(server: seq<ServerMessage>, i: nat)
    requires i < |server|
  {
    exists a: nat, b: nat :: a < |server| && b < |server[a].parts| && Spoils(server, a, b, i)
  }

  lemma {:induction false} FailedInHas(ps: seq<ServerPart>, id: string)
    ensures id in FailedIn(ps) <==> exists b :: 0 <= b < |ps| && id in NamedBy(ps[b])
  {
    hide NamedBy;
    if ps != [] {
      var front := ps[..|ps| - 1];
      FailedInHas(front, id);
      assert ps == front + [ps[|ps| - 1]];
      if id in FailedIn(front) {
        var b :| 0 <= b < |front| && id in NamedBy(front[b]);
        assert id in NamedBy(ps[b]);
      }
      if b :| 0 <= b < |ps| && id in NamedBy(ps[b]) {
        if b < |front| { assert id in NamedBy(front[b]); }
      }
    }
  }

  lemma {:induction false} FailedIdsHas(ms: seq<ServerMessage>, id: string)
    ensures id in FailedIds(ms) <==> exists a :: 0 <= a < |ms| && id in FailedIn(ms[a].parts)
  {
    hide FailedIn;
    if ms != [] {
      var front := ms[..|ms| - 1];
      FailedIdsHas(front, id);
      assert ms == front + [ms[|ms| - 1]];
      if id in FailedIds(front) {
        var a :| 0 <= a < |front| && id in FailedIn(front[a].parts);
        assert id in FailedIn(ms[a].parts);
      }
      if a :| 0 <= a < |ms| && id in FailedIn(ms[a].parts) {
        if a < |front| { assert id in FailedIn(front[a].parts); }
      }
    }
  }

  /** A message named by no failed attempt, and by each that stands there. */
  lemma FailedIdIff(server: seq<ServerMessage>, i: nat)
    requires i < |server|
    ensures server[i].id in FailedIds(server) ==> Hidden(server, i)
    ensures forall a: nat, b: nat | a < |server| && b < |server[a].parts| && Spoils(server, a, b, i) ::
              a == i || server[i].id in FailedIds(server)
  {
    var id := server[i].id;
    FailedIdsHas(server, id);
    hide FailedIds, FailedIn;
    if id in FailedIds(server) {
      var a :| 0 <= a < |server| && id in FailedIn(server[a].parts);
      FailedInHas(server[a].parts, id);
      var b :| 0 <= b < |server[a].parts| && id in NamedBy(server[a].parts[b]);
      assert Spoils(server, a, b, i);
    }
    forall a: nat, b: nat | a < |server| && b < |server[a].parts| && Spoils(server, a, b, i)
      ensures a == i || id in FailedIds(server)
    {
      FailedInHas(server[a].parts, id);
      assert a == i || id in NamedBy(server[a].parts[b]);
    }
  }

  /** A message is left out exactly if a failed attempt stands in it or names it as its summary. */
  lemma ShownIffNotHidden(server: seq<ServerMessage>, i: nat)
    requires i < |server|
    ensures IsShown(FailedIds(server), server[i]) <==> !Hidden(server, i)
  {
    var m := server[i];
    FailedIdIff(server, i);
    hide FailedIds;
    if HasFailedRequest(m) {
      var b :| 0 <= b < |m.parts| && IsFailedRequest(m.parts[b]);
      assert Spoils(server, i, b, i);
    }
    if Hidden(server, i) {
      var a: nat, b: nat :| a < |server| && b < |server[a].parts| && Spoils(server, a, b, i);
      assert a == i ==> IsFailedRequest(m.parts[b]);
    }
  }

  /** The indices of the shown messages among the first `n`. */
  ghost function Timeline(server: seq<ServerMessage>, n: nat): (r: seq<nat>)
    requires n <= |server|
    ensures forall k :: 0 <= k < |r| ==> r[k] < n && !Hidden(server, r[k])
    ensures forall i: nat :: i < n && !Hidden(server, i) ==> i in r
    ensures forall j, k :: 0 <= j < k < |r| ==> r[j] < r[k]
  {
    if n == 0 then []
    else
      var front := Timeline(server, n - 1);
      if Hidden(server, n - 1) then front else front + [n - 1]
  }

  lemma {:induction false} MappedIsTimeline<B, F>(server: seq<ServerMessage>, n: nat)
    requires n <= |server|
    ensures var msgs := Mapped<B, F>(FailedIds(server), server[..n]);
            && |msgs| == |Timeline(server, n)|
            && forall k :: 0 <= k < |msgs| ==> msgs[k] == MapMessage(server[Timeline(server, n)[k]])
  {
    hide FailedIds, IsShown, MapMessage, Hidden, Timeline, Mapped;
    if n == 0 {
      assert server[..0] == [];
      NothingShown<B, F>(server);
    } else {
      MappedIsTimeline<B, F>(server, n - 1);
      MappedSnoc<B, F>(FailedIds(server), server, n - 1);
      TimelineSnoc(server, n - 1);
      ShownIffNotHidden(server, n - 1);
    }
  }

  lemma NothingShown<B, F>(server: seq<ServerMessage>)
    ensures Timeline(server, 0) == [] && Mapped<B, F>(FailedIds(server), []) == []
  {
  }

  lemma TimelineSnoc(server: seq<ServerMessage>, n: nat)
    requires n < |server|
    ensures Timeline(server, n + 1) == Timeline(server, n) + if Hidden(server, n) then [] else [n]
  {
    hide Hidden;
    assert Timeline(server, n) + [] == Timeline(server, n);
  }

  // ----- what a part shows --------------------------------------------------------------------

  /** Parts with a body to show. */
  predicate Visible(p: ServerPart)
  {
    !p.SummaryBody? && !p.OtherBody? && !(p.RequestBody? && p.state == Failed)
  }

  function OrElse(t: Option<string>, default: string): string { if t.Some? then t.value else default }

  /** What the reader sees of a server part. */
  predicate Shows(v: PartView, p: ServerPart)
  {
    && v.id == p.id && v.buffer == "" && v.reasoning == ""
    && (p.TextBody? ==> v.kind == TextPart && v.body == p.text)
    && (p.ReasoningBody? ==> v.kind == ReasoningPart && v.body == p.text)
    && (p.CallBody? ==> v.kind == ToolCallPart && v.callId == Some(p.callId) && v.body == p.body)
    && (p.ResultBody? ==> v.kind == ToolResultPart && v.callId == Some(p.callId) && (v.errored <==> !p.ok))
    && (p.ResultBody? && p.ok ==> v.body == OrElse(p.output, ""))
    && (p.ResultBody? && !p.ok ==> v.body == OrElse(p.error, "error"))
    && (p.PlanBody? ==> v.kind == TextPart && v.body == p.plan)
    && (p.RequestBody? ==> v.kind == CompactionPart && v.body == "")
    && (p.ReminderBody? ==> v.kind == ReminderPart && v.body == p.content)
    && (v.errored ==> p.ResultBody?)
    && (v.callId.Some? ==> p.CallBody? || p.ResultBody?)
  }

  function VisibleOf(ps: seq<ServerPart>): seq<ServerPart>
  {
    if ps == [] then [] else (if Visible(ps[0]) then [ps[0]] else []) + VisibleOf(ps[1..])
  }

  lemma ViewShows(p: ServerPart)
    ensures ToView(p).Some? <==> Visible(p)
    ensures Visible(p) ==> Shows(ToView(p).value, p)
  {
  }

  lemma {:induction false} VisibleSnoc(ps: seq<ServerPart>, p: ServerPart)
    ensures VisibleOf(ps + [p]) == VisibleOf(ps) + if Visible(p) then [p] else []
  {
    if ps == [] {
      assert ps + [p] == [p] && [p][1..] == [];
    } else {
      assert (ps + [p])[1..] == ps[1..] + [p];
      VisibleSnoc(ps[1..], p);
    }
  }

  /** A message's views are its visible parts, one for one and in order. */
  lemma {:induction false} ViewsShow(ps: seq<ServerPart>)
    ensures |Views(ps)| == |VisibleOf(ps)|
    ensures forall k :: 0 <= k < |Views(ps)| ==> Shows(Views(ps)[k], VisibleOf(ps)[k])
  {
    hide Visible, Shows, ToView, VisibleOf;
    if ps == [] {
      NothingVisible();
    } else {
      var front, last := ps[..|ps| - 1], ps[|ps| - 1];
      assert ps == front + [last];
      ViewsShow(front);
      VisibleSnoc(front, last);
      ViewShows(last);
    }
  }

  lemma NothingVisible()
    ensures VisibleOf([]) == []
  {
  }

  lemma {:induction false} VisibleIsThere(ps: seq<ServerPart>, j: nat) returns (k: nat)
    requires j < |ps| && Visible(ps[j])
    ensures k < |VisibleOf(ps)| && VisibleOf(ps)[k] == ps[j]
  {
    hide Visible;
    if j == 0 {
      k := 0;
    } else {
      k := VisibleIsThere(ps[1..], j - 1);
      if Visible(ps[0]) { k := k + 1; }
    }
  }

  lemma {:induction false} VisibleFrom(ps: seq<ServerPart>, k: nat) returns (j: nat)
    requires k < |VisibleOf(ps)|
    ensures j < |ps| && Visible(ps[j]) && VisibleOf(ps)[k] == ps[j]
  {
    hide Visible;
    if Visible(ps[0]) && k == 0 {
      j := 0;
    } else {
      j := VisibleFrom(ps[1..], if Visible(ps[0]) then k - 1 else k);
      j := j + 1;
    }
  }

  // ----- where a part stands ------------------------------------------------------------------

  predicate Calls(m: ServerMessage, c: string)
  {
    exists j :: 0 <= j < |m.parts| && m.parts[j].CallBody? && m.parts[j].callId == c
  }

  /** A call with that id stands in the views exactly if the server's message makes it. */
  lemma CallShows(m: ServerMessage, c: string)
    ensures HasCall(Views(m.parts), c) <==> Calls(m, c)
  {
    hide Views, VisibleOf;
    var vs := Views(m.parts);
    ViewsShow(m.parts);
    if HasCall(vs, c) {
      var k :| 0 <= k < |vs| && IsCall(vs[k], c);
      var j := VisibleFrom(m.parts, k);
      assert Shows(vs[k], m.parts[j]);
      assert m.parts[j].CallBody?;
    }
    if Calls(m, c) {
      var j :| 0 <= j < |m.parts| && m.parts[j].CallBody? && m.parts[j].callId == c;
      var k := VisibleIsThere(m.parts, j);
      assert IsCall(vs[k], c);
    }
  }

  /** Message `o` answers for call `c`: the last shown message, no tool's, that makes it. */
  predicate Answers(server: seq<ServerMessage>, o: nat, c: string)
  {
    && o < |server| && !Hidden(server, o) && server[o].role != Tool && Calls(server[o], c)
    && forall l: nat | o < l < |server| && !Hidden(server, l) && server[l].role != Tool :: !Calls(server[l], c)
  }

  ghost predicate Answered(server: seq<ServerMessage>, c: string) { exists o: nat :: Answers(server, o, c) }

  /** Message `o` shows part `j` of message `i`: a result goes to the message that made its call. */
  ghost predicate Houses(server: seq<ServerMessage>, i: nat, j: nat, o: nat)
    requires i < |server| && j < |server[i].parts|
  {
    var p := server[i].parts[j];
    if server[i].role == Tool && p.ResultBody? && p.callId != "" && Answered(server, p.callId)
    then Answers(server, o, p.callId)
    else o == i
  }

  lemma {:induction false} OwnerIsLast<B, F>(msgs: seq<View<B, F>>, n: nat, c: string)
    requires n <= |msgs| && OwnerOf(msgs, n, c).Some?
    ensures forall l | OwnerOf(msgs, n, c).value < l < n && !msgs[l].role.Tool? :: !HasCall(msgs[l].parts, c)
  {
    hide HasCall;
    if msgs[n - 1].role.Tool? || !HasCall(msgs[n - 1].parts, c) { OwnerIsLast(msgs, n - 1, c); }
  }

  lemma {:induction false} RoutedHas<B, F>(msgs: seq<View<B, F>>, parts: seq<PartView>, p: PartView)
    requires p in parts
    ensures Route(msgs, p).Some? ==> p in RoutedTo(msgs, parts, Route(msgs, p).value)
    ensures Route(msgs, p).None? <==> p in Orphans(msgs, parts)
  {
    hide Route;
    var front, last := parts[..|parts| - 1], parts[|parts| - 1];
    assert parts == front + [last];
    if p in front { RoutedHas(msgs, front, p); } else { OrphansAmong(msgs, front); }
  }

  lemma {:induction false} OrphansAmong<B, F>(msgs: seq<View<B, F>>, parts: seq<PartView>)
    ensures forall p | p in Orphans(msgs, parts) :: p in parts
  {
    hide Route;
    if parts != [] {
      OrphansAmong(msgs, parts[..|parts| - 1]);
    }
  }

  lemma {:induction false} ResultsHave<B, F>(msgs: seq<View<B, F>>, n: nat, i: nat, p: PartView)
    requires i < n <= |msgs| && msgs[i].role.Tool? && p in msgs[i].parts && Route(msgs, p).Some?
    ensures p in ResultsFor(msgs, n, Route(msgs, p).value)
  {
    hide RoutedTo, Route;
    if i == n - 1 { RoutedHas(msgs, msgs[i].parts, p); } else { ResultsHave(msgs, n - 1, i, p); }
  }

  lemma {:induction false} EntryStands<B, F>(msgs: seq<View<B, F>>, n: nat, i: nat)
    requires i < n <= |msgs| && msgs[i].role.Tool? && Orphans(msgs, msgs[i].parts) != []
    ensures Orphaned(i) in Entries(msgs, n)
  {
    hide Entries, Orphans;
    EntriesGrow(msgs, n - 1);
    if i < n - 1 { EntryStands(msgs, n - 1, i); }
  }

  lemma EntriesGrow<B, F>(msgs: seq<View<B, F>>, n: nat)
    requires n < |msgs|
    ensures forall e :: e in Entries(msgs, n) ==> e in Entries(msgs, n + 1)
    ensures msgs[n].role.Tool? && Orphans(msgs, msgs[n].parts) != [] ==> Orphaned(n) in Entries(msgs, n + 1)
  {
    hide Orphans;
  }

  /** The message that shows part `p` of message `i` once results are folded. */
  function HomeOf<B, F>(msgs: seq<View<B, F>>, i: nat, p: PartView): nat
    requires i < |msgs|
  {
    if msgs[i].role.Tool? && Route(msgs, p).Some? then Route(msgs, p).value else i
  }

  lemma FoldLands<B, F>(msgs: seq<View<B, F>>, i: nat, p: PartView) returns (k: nat)
    requires i < |msgs| && p in msgs[i].parts
    ensures var o := HomeOf(msgs, i, p);
            && o < |msgs| && k < |Fold(msgs)| && Fold(msgs)[k].id == msgs[o].id && Fold(msgs)[k].role == msgs[o].role
            && p in Fold(msgs)[k].parts
  {
    hide Route, InsertAll, ResultsFor, Orphans;
    var o := HomeOf(msgs, i, p);
    var es := Entries(msgs, |msgs|);
    if msgs[i].role.Tool? { RoutedHas(msgs, msgs[i].parts, p); }
    if msgs[o].role.Tool? {
      EntryStands(msgs, |msgs|, i);
      k :| 0 <= k < |es| && es[k] == Orphaned(i);
    } else {
      k :| 0 <= k < |es| && es[k] == Kept(o);
      var rs := ResultsFor(msgs, |msgs|, o);
      if o != i || msgs[i].role.Tool? { ResultsHave(msgs, |msgs|, i, p); }
      InsertedHas(msgs[o].parts, rs, p);
    }
  }

  lemma InsertedHas(parts: seq<PartView>, rs: seq<PartView>, p: PartView)
    requires p in parts || p in rs
    ensures p in InsertAll(parts, rs)
  {
    InsertAllConserves(parts, rs);
    assert p in multiset(parts) || p in multiset(rs);
    assert p in multiset(InsertAll(parts, rs));
  }

  /** `Mapped` of the whole list, by the timeline. */
  lemma MappedAt<B, F>(server: seq<ServerMessage>)
    ensures var msgs, shown := Mapped<B, F>(FailedIds(server), server), Timeline(server, |server|);
            && |msgs| == |shown|
            && forall k :: 0 <= k < |msgs| ==> msgs[k] == MapMessage(server[shown[k]])
  {
    MappedIsTimeline<B, F>(server, |server|);
    assert server[..|server|] == server;
  }

  /** `msgs` are the shown messages of the server, as far as roles and calls of `c` go. */
  ghost predicate Mirrors<B, F>(server: seq<ServerMessage>, msgs: seq<View<B, F>>, c: string)
  {
    var shown := Timeline(server, |server|);
    && |msgs| == |shown|
    && forall k | 0 <= k < |msgs| ::
         msgs[k].role == server[shown[k]].role && (HasCall(msgs[k].parts, c) <==> Calls(server[shown[k]], c))
  }

  lemma MappedMirrors<B, F>(server: seq<ServerMessage>, c: string)
    ensures Mirrors(server, Mapped<B, F>(FailedIds(server), server), c)
  {
    var msgs, shown := Mapped<B, F>(FailedIds(server), server), Timeline(server, |server|);
    MappedAt<B, F>(server);
    hide FailedIds, Mapped, Timeline, Views, Calls, HasCall;
    forall k | 0 <= k < |msgs|
      ensures msgs[k].role == server[shown[k]].role && (HasCall(msgs[k].parts, c) <==> Calls(server[shown[k]], c))
    {
      CallShows(server[shown[k]], c);
    }
  }

  lemma OwnerAnswers<B, F>(server: seq<ServerMessage>, msgs: seq<View<B, F>>, c: string)
    requires Mirrors(server, msgs, c) && OwnerOf(msgs, |msgs|, c).Some?
    ensures |msgs| == |Timeline(server, |server|)|
    ensures Answers(server, Timeline(server, |server|)[OwnerOf(msgs, |msgs|, c).value], c) && Answered(server, c)
  {
    var shown := Timeline(server, |server|);
    OwnerIsLast(msgs, |msgs|, c);
    hide Timeline, Hidden, Calls, OwnerOf, HasCall;
    var o := OwnerOf(msgs, |msgs|, c).value;
    forall l: nat | shown[o] < l < |server| && !Hidden(server, l) && server[l].role != Tool
      ensures !Calls(server[l], c)
    {
      var k := ShownAt(server, l);
      ShownInOrder(server, o, k);
      assert !HasCall(msgs[k].parts, c);
    }
  }

  lemma ShownAt(server: seq<ServerMessage>, l: nat) returns (k: nat)
    requires l < |server| && !Hidden(server, l)
    ensures k < |Timeline(server, |server|)| && Timeline(server, |server|)[k] == l
  {
    hide Timeline, Hidden;
    var shown := Timeline(server, |server|);
    k :| 0 <= k < |shown| && shown[k] == l;
  }

  lemma ShownInOrder(server: seq<ServerMessage>, o: nat, k: nat)
    requires o < |Timeline(server, |server|)| && k < |Timeline(server, |server|)|
    requires Timeline(server, |server|)[o] < Timeline(server, |server|)[k]
    ensures o < k
  {
    hide Timeline, Hidden;
  }

  lemma AnsweredHasOwner<B, F>(server: seq<ServerMessage>, msgs: seq<View<B, F>>, c: string)
    requires Mirrors(server, msgs, c) && Answered(server, c)
    ensures OwnerOf(msgs, |msgs|, c).Some?
  {
    var shown := Timeline(server, |server|);
    hide Timeline, Hidden, Calls, OwnerOf, HasCall;
    var o: nat :| Answers(server, o, c);
    var k := ShownAt(server, o);
    assert HasCall(msgs[k].parts, c);
  }

  /** The fold's home of a part is the message that houses it. */
  lemma HomeHouses<B, F>(server: seq<ServerMessage>, msgs: seq<View<B, F>>, n: nat, j: nat, v: PartView)
    requires n < |Timeline(server, |server|)| && forall c :: Mirrors(server, msgs, c)
    requires var i := Timeline(server, |server|)[n]; j < |server[i].parts| && Shows(v, server[i].parts[j])
    requires Visible(server[Timeline(server, |server|)[n]].parts[j])
    ensures var shown := Timeline(server, |server|);
            && |msgs| == |shown| && HomeOf(msgs, n, v) < |shown|
            && Houses(server, shown[n], j, shown[HomeOf(msgs, n, v)])
  {
    hide Timeline, Mirrors, Hidden, OwnerOf, Answers, Answered, Shows, Visible, HasCall;
    var shown := Timeline(server, |server|);
    var p := server[shown[n]].parts[j];
    MirrorsRole(server, msgs, n);
    ShownResult(v, p);
    if p.ResultBody? {
      var c := p.callId;
      if OwnerOf(msgs, |msgs|, c).Some? { OwnerAnswers(server, msgs, c); }
      if Answered(server, c) { AnsweredHasOwner(server, msgs, c); }
    }
  }

  lemma ShownResult(v: PartView, p: ServerPart)
    requires Shows(v, p) && Visible(p)
    ensures v.kind.ToolResultPart? <==> p.ResultBody?
    ensures p.ResultBody? ==> v.callId == Some(p.callId)
  {
  }

  lemma MirrorsRole<B, F>(server: seq<ServerMessage>, msgs: seq<View<B, F>>, n: nat)
    requires Mirrors(server, msgs, "") && n < |Timeline(server, |server|)|
    ensures |msgs| == |Timeline(server, |server|)| && msgs[n].role == server[Timeline(server, |server|)[n]].role
  {
    hide Timeline;
  }

  /**
    Every part the server has something to show of is shown: it stands, with its text, in the message that
    houses it, unless the store's copy of that message is live.
   */
  lemma ServerPartsAreShown<B, F>(existing: seq<View<B, F>>, server: seq<ServerMessage>, i: nat, j: nat)
      returns (o: nat, k: nat, v: PartView)
    requires Distinct(ViewIds(existing)) && Distinct(Ids(server))
    requires i < |server| && j < |server[i].parts| && !Hidden(server, i) && Visible(server[i].parts[j])
    ensures o < |server| && Houses(server, i, j, o) && !Hidden(server, o)
    ensures k < |Hydrate(existing, server)| && Hydrate(existing, server)[k].id == server[o].id
    ensures Shows(v, server[i].parts[j])
    ensures (forall m | m in existing && m.id == server[o].id :: !Live(m)) ==>
              v in Hydrate(existing, server)[k].parts && Hydrate(existing, server)[k].role == server[o].role
  {
    var msgs, shown := Mapped<B, F>(FailedIds(server), server), Timeline(server, |server|);
    MappedAt<B, F>(server);
    var n :| 0 <= n < |shown| && shown[n] == i;
    ViewsShow(server[i].parts);
    var x := VisibleIsThere(server[i].parts, j);
    v := Views(server[i].parts)[x];
    forall c ensures Mirrors(server, msgs, c) { MappedMirrors<B, F>(server, c); }
    HomeHouses(server, msgs, n, j, v);
    o := shown[HomeOf(msgs, n, v)];
    assert v in msgs[n].parts;
    k := FoldLands(msgs, n, v);
    assert Folded<B, F>(server) == Fold(msgs);
    hide FailedIds, Mapped, Timeline, Hidden, Views, VisibleOf, HomeOf, Houses, Shows, Fold, Live, Folded, Inflight;
    HydratedIds(existing, server);
    assert ViewIds(Hydrate(existing, server))[k] == ViewIds(Folded<B, F>(server))[k];
    if forall m | m in existing && m.id == server[o].id :: !Live(m) { ServerBodyReplaces(existing, server, k); }
  }

  /** And nothing else is: what the result shows of a message whose store copy is not live is the server's. */
  lemma OnlyServerPartsAreShown<B, F>(existing: seq<View<B, F>>, server: seq<ServerMessage>, k: nat, v: PartView)
      returns (i: nat, j: nat)
    requires k < |Folded<B, F>(server)| && Distinct(ViewIds(existing))
    requires forall m | m in existing && m.id == Folded<B, F>(server)[k].id :: !Live(m)
    requires v in Hydrate(existing, server)[k].parts
    ensures i < |server| && j < |server[i].parts| && !Hidden(server, i)
    ensures Visible(server[i].parts[j]) && Shows(v, server[i].parts[j])
  {
    var msgs, shown := Mapped<B, F>(FailedIds(server), server), Timeline(server, |server|);
    MappedAt<B, F>(server);
    ServerBodyReplaces(existing, server, k);
    assert Folded<B, F>(server) == Fold(msgs);
    hide FailedIds, Mapped, Timeline, Hidden, Views, VisibleOf, Shows, Visible, Fold, Live, Folded, Hydrate, PartsIn;
    PartsInHas(Fold(msgs), k, v);
    FoldConserves(msgs);
    var n := PartsInFrom(msgs, v);
    i := shown[n];
    var x :| 0 <= x < |Views(server[i].parts)| && Views(server[i].parts)[x] == v;
    ViewsShow(server[i].parts);
    j := VisibleFrom(server[i].parts, x);
  }
}
