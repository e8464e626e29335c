/**
  Folding tool results into the messages that made the calls: each result of a `tool` message moves
  right behind its call, in place, while owners and tool messages are walked in one pass.
 */
module ToolFolding {
  import opened Common
  import opened Transcript

  datatype PartKind = TextPart | ReasoningPart | ToolCallPart | ToolResultPart | CompactionPart | ReminderPart

  /** `body` stands for the fields that only rendering looks at. */
  datatype PartView = PartView(id: string, kind: PartKind, callId: Option<string>, body: string, buffer: string,
                               reasoning: string, errored: bool)

  /** `B` and `F` are the badge list and the step footer, carried across hydration unread. */
  datatype MessageView<B, F> = MessageView(id: string, role: Role, parts: seq<PartView>, badges: Option<B>,
                                           stepFinish: Option<F>)

  // ----- folding one owner --------------------------------------------------------------------

  /** A call id that JavaScript counts as true. */
  predicate Truthy(c: Option<string>) { c.Some? && c.value != "" }

  predicate IsCall(p: PartView, c: string) { p.kind.ToolCallPart? && p.callId == Some(c) }

  predicate IsResult(p: PartView, c: string) { p.kind.ToolResultPart? && p.callId == Some(c) }

  predicate HasCall(parts: seq<PartView>, c: string) { exists i :: 0 <= i < |parts| && IsCall(parts[i], c) }

  function FindCall(parts: seq<PartView>, c: string): (i: nat)
    ensures i <= |parts|
    ensures i < |parts| ==> IsCall(parts[i], c)
    ensures forall j :: 0 <= j < i ==> !IsCall(parts[j], c)
  {
    if parts == [] || IsCall(parts[0], c) then 0 else 1 + FindCall(parts[1..], c)
  }

  /** Where `splice` puts a result: right after its call, or at the end when the call is not there. */
  function Place(parts: seq<PartView>, r: PartView): (k: nat)
    ensures k <= |parts|
  {
    var at := FindCall(parts, if r.callId.Some? then r.callId.value else "");
    if at < |parts| then at + 1 else |parts|
  }

  function Insert(parts: seq<PartView>, r: PartView): seq<PartView>
  {
    parts[..Place(parts, r)] + [r] + parts[Place(parts, r)..]
  }

  function InsertAll(parts: seq<PartView>, rs: seq<PartView>): seq<PartView>
  {
    if rs == [] then parts else Insert(InsertAll(parts, rs[..|rs| - 1]), rs[|rs| - 1])
  }

  lemma SpliceConserves<T>(s: seq<T>, k: nat, x: T)
    requires k <= |s|
    ensures multiset(s[..k] + [x] + s[k..]) == multiset(s) + multiset{x}
  {
    var a, b := s[..k], s[k..];
    assert s == a + b;
    assert multiset(a + [x] + b) == multiset(a) + multiset{x} + multiset(b);
  }

  lemma {:induction false} InsertAllConserves(parts: seq<PartView>, rs: seq<PartView>)
    ensures multiset(InsertAll(parts, rs)) == multiset(parts) + multiset(rs)
  {
    hide Place;
    if rs != [] {
      var front, r := rs[..|rs| - 1], rs[|rs| - 1];
      InsertAllConserves(parts, front);
      var before := InsertAll(parts, front);
      SpliceConserves(before, Place(before, r), r);
      assert rs == front + [r];
      assert multiset(rs) == multiset(front) + multiset{r};
    }
  }

  // ----- where the results land ---------------------------------------------------------------

  /** A part of a folded message, and whether folding put it there. */
  datatype Placed = Placed(part: PartView, moved: bool)

  function Parts(ps: seq<Placed>): (r: seq<PartView>)
    ensures |r| == |ps| && forall i :: 0 <= i < |r| ==> r[i] == ps[i].part
  {
    seq(|ps|, i requires 0 <= i < |ps| => ps[i].part)
  }

  function Stay(parts: seq<PartView>): (r: seq<Placed>)
    ensures |r| == |parts| && forall i :: 0 <= i < |r| ==> r[i] == Placed(parts[i], false)
  {
    seq(|parts|, i requires 0 <= i < |parts| => Placed(parts[i], false))
  }

  /** The folding with the moved parts marked. */
  function PlaceAll(parts: seq<PartView>, rs: seq<PartView>): seq<Placed>
  {
    if rs == [] then Stay(parts)
    else
      var before := PlaceAll(parts, rs[..|rs| - 1]);
      var k := Place(Parts(before), rs[|rs| - 1]);
      before[..k] + [Placed(rs[|rs| - 1], true)] + before[k..]
  }

  /** Right after its own call, or after another result of that call. */
  predicate FollowsItsCall(ps: seq<Placed>, k: nat)
    requires k < |ps|
  {
    && ps[k].part.callId.Some?
    && 0 < k
    && var c := ps[k].part.callId.value;
    (IsCall(ps[k - 1].part, c) || (ps[k - 1].moved && IsResult(ps[k - 1].part, c)))
  }

  /** The parts that were not moved, in order. */
  function Unmoved(ps: seq<Placed>): seq<PartView>
  {
    if ps == [] then [] else (if ps[0].moved then [] else [ps[0].part]) + Unmoved(ps[1..])
  }

  lemma {:induction false} UnmovedAppend(xs: seq<Placed>, ys: seq<Placed>)
    ensures Unmoved(xs + ys) == Unmoved(xs) + Unmoved(ys)
  {
    if xs == [] {
      assert xs + ys == ys;
    } else {
      assert (xs + ys)[1..] == xs[1..] + ys;
      UnmovedAppend(xs[1..], ys);
    }
  }

  lemma {:induction false} UnmovedStay(parts: seq<PartView>)
    ensures Unmoved(Stay(parts)) == parts
  {
    if parts != [] {
      assert Stay(parts)[1..] == Stay(parts[1..]);
      UnmovedStay(parts[1..]);
    }
  }

  predicate ResultsOfCallsIn(parts: seq<PartView>, rs: seq<PartView>)
  {
    forall i :: 0 <= i < |rs| ==> rs[i].kind.ToolResultPart? && rs[i].callId.Some? && HasCall(parts, rs[i].callId.value)
  }

  /**
    However many results an owner collects and however its list shifts meanwhile: the marked folding is
    the folding, the owner's own parts keep their order, every moved part follows its call, and the call
    of every result still to come is still there.
   */
  lemma {:induction false} PlacementHolds(parts: seq<PartView>, rs: seq<PartView>)
    requires ResultsOfCallsIn(parts, rs)
    ensures Parts(PlaceAll(parts, rs)) == InsertAll(parts, rs)
    ensures Unmoved(PlaceAll(parts, rs)) == parts
    ensures forall k :: 0 <= k < |PlaceAll(parts, rs)| && PlaceAll(parts, rs)[k].moved ==>
              FollowsItsCall(PlaceAll(parts, rs), k)
    ensures forall c :: HasCall(parts, c) ==> HasCall(InsertAll(parts, rs), c)
  {
    if rs == [] {
      UnmovedStay(parts);
    } else {
      var front, r := rs[..|rs| - 1], rs[|rs| - 1];
      PlacementHolds(parts, front);
      var before := PlaceAll(parts, front);
      assert rs[|rs| - 1] == r;
      PlaceOneMore(before, r);
      var k := Place(Parts(before), r);
      UnmovedInsert(before, k, r);
      InsertKeepsCalls(InsertAll(parts, front), r);
    }
  }

  lemma MovedAlone(r: PartView)
    ensures Unmoved([Placed(r, true)]) == []
  {
    assert [Placed(r, true)][1..] == [];
  }

  lemma UnmovedInsert(before: seq<Placed>, k: nat, r: PartView)
    requires k <= |before|
    ensures Unmoved(before[..k] + [Placed(r, true)] + before[k..]) == Unmoved(before)
  {
    hide Unmoved;
    var a, m, b := before[..k], [Placed(r, true)], before[k..];
    MovedAlone(r);
    UnmovedAppend(a + m, b);
    UnmovedAppend(a, m);
    UnmovedAppend(a, b);
    assert a + b == before;
    assert Unmoved(a) + [] == Unmoved(a);
  }

  lemma InsertKeepsCalls(parts: seq<PartView>, r: PartView)
    ensures forall c :: HasCall(parts, c) ==> HasCall(Insert(parts, r), c)
  {
    hide IsCall, Place;
    var k := Place(parts, r);
    forall c | HasCall(parts, c)
      ensures HasCall(Insert(parts, r), c)
    {
      var i :| 0 <= i < |parts| && IsCall(parts[i], c);
      assert Insert(parts, r)[if i < k then i else i + 1] == parts[i];
    }
  }

  /** A splice right after the call at `at` leaves every moved part behind its call. */
  lemma SpliceFollows(before: seq<Placed>, at: nat, r: PartView, after: seq<Placed>, j: nat)
    requires at < |before| && r.kind.ToolResultPart? && r.callId.Some? && IsCall(before[at].part, r.callId.value)
    requires forall k :: 0 <= k < |before| && before[k].moved ==> FollowsItsCall(before, k)
    requires |after| == |before| + 1 && after[at + 1] == Placed(r, true)
    requires forall i :: 0 <= i <= at ==> after[i] == before[i]
    requires forall i :: at < i < |before| ==> after[i + 1] == before[i]
    requires j < |after| && after[j].moved
    ensures FollowsItsCall(after, j)
  {
    if j <= at {
      assert FollowsItsCall(before, j);
    } else if j == at + 1 {
      assert after[j - 1] == before[at];
    } else {
      assert after[j] == before[j - 1] && FollowsItsCall(before, j - 1);
      if j == at + 2 {
        assert after[j - 1].part == r;
      } else {
        assert after[j - 1] == before[j - 2];
      }
    }
  }

  lemma PartsOfSplice(before: seq<Placed>, k: nat, r: PartView)
    requires k <= |before|
    ensures Parts(before[..k] + [Placed(r, true)] + before[k..]) == Parts(before)[..k] + [r] + Parts(before)[k..]
  {
  }

  lemma PlaceOneMore(before: seq<Placed>, r: PartView)
    requires r.kind.ToolResultPart? && r.callId.Some? && HasCall(Parts(before), r.callId.value)
    requires forall k :: 0 <= k < |before| && before[k].moved ==> FollowsItsCall(before, k)
    ensures var k := Place(Parts(before), r);
            var after := before[..k] + [Placed(r, true)] + before[k..];
            && Parts(after) == Insert(Parts(before), r)
            && forall j :: 0 <= j < |after| && after[j].moved ==> FollowsItsCall(after, j)
  {
    var at := FoundCall(Parts(before), r.callId.value);
    assert Place(Parts(before), r) == at + 1;
    hide Place, FindCall, HasCall, IsCall, FollowsItsCall;
    PartsOfSplice(before, at + 1, r);
    SpliceAllFollow(before, at, r);
  }

  lemma SpliceAllFollow(before: seq<Placed>, at: nat, r: PartView)
    requires at < |before| && r.kind.ToolResultPart? && r.callId.Some? && IsCall(before[at].part, r.callId.value)
    requires forall k :: 0 <= k < |before| && before[k].moved ==> FollowsItsCall(before, k)
    ensures var after := before[..at + 1] + [Placed(r, true)] + before[at + 1..];
            forall j :: 0 <= j < |after| && after[j].moved ==> FollowsItsCall(after, j)
  {
    hide IsCall, FollowsItsCall;
    var after := before[..at + 1] + [Placed(r, true)] + before[at + 1..];
    forall j | 0 <= j < |after| && after[j].moved
      ensures FollowsItsCall(after, j)
    {
      SpliceFollows(before, at, r, after, j);
    }
  }

  lemma FoundCall(parts: seq<PartView>, c: string) returns (at: nat)
    requires HasCall(parts, c)
    ensures at == FindCall(parts, c) && at < |parts| && IsCall(parts[at], c)
  {
    at := FindCall(parts, c);
    var i :| 0 <= i < |parts| && IsCall(parts[i], c);
  }

  /** Of several results of one call the latest stands first, right behind the first part making the call. */
  lemma LatestStandsFirst(parts: seq<PartView>, rs: seq<PartView>, r: PartView) returns (at: nat)
    requires ResultsOfCallsIn(parts, rs)
    requires r.kind.ToolResultPart? && r.callId.Some? && HasCall(parts, r.callId.value)
    ensures var c, now := r.callId.value, InsertAll(parts, rs + [r]);
            && at + 1 < |now| && IsCall(now[at], c) && now[at + 1] == r
            && forall j :: 0 <= j < at ==> !IsCall(now[j], c)
  {
    hide HasCall, IsCall, InsertAll;
    PlacementHolds(parts, rs);
    InsertAllSnoc(parts, rs, r);
    var before := InsertAll(parts, rs);
    at := FoundCall(before, r.callId.value);
    assert Place(before, r) == at + 1;
  }

  // ----- routing ------------------------------------------------------------------------------

  type View<B, F> = MessageView<B, F>

  /** The last non-tool message among the first `n` that made call `c`. */
  function OwnerOf<B, F>(msgs: seq<View<B, F>>, n: nat, c: string): (r: Option<nat>)
    requires n <= |msgs|
    ensures r.Some? ==> r.value < n && !msgs[r.value].role.Tool? && HasCall(msgs[r.value].parts, c)
    ensures r.None? ==> forall i :: 0 <= i < n && !msgs[i].role.Tool? ==> !HasCall(msgs[i].parts, c)
  {
    if n == 0 then None
    else if !msgs[n - 1].role.Tool? && HasCall(msgs[n - 1].parts, c) then Some(n - 1)
    else OwnerOf(msgs, n - 1, c)
  }

  /** Where a part of a tool message goes: to an owner, or nowhere. */
  function Route<B, F>(msgs: seq<View<B, F>>, p: PartView): (r: Option<nat>)
    ensures r.Some? ==> r.value < |msgs| && !msgs[r.value].role.Tool?
    ensures r.Some? ==> p.kind.ToolResultPart? && p.callId.Some? && HasCall(msgs[r.value].parts, p.callId.value)
  {
    if p.kind.ToolResultPart? && Truthy(p.callId) then OwnerOf(msgs, |msgs|, p.callId.value) else None
  }

  /** The parts routed to message `i`, in order. */
  function RoutedTo<B, F>(msgs: seq<View<B, F>>, parts: seq<PartView>, i: nat): seq<PartView>
  {
    if parts == [] then []
    else
      var front := RoutedTo(msgs, parts[..|parts| - 1], i);
      if Route(msgs, parts[|parts| - 1]) == Some(i) then front + [parts[|parts| - 1]] else front
  }

  /** The parts that no call claims, in order. */
  function Orphans<B, F>(msgs: seq<View<B, F>>, parts: seq<PartView>): seq<PartView>
  {
    if parts == [] then []
    else
      var front := Orphans(msgs, parts[..|parts| - 1]);
      if Route(msgs, parts[|parts| - 1]).None? then front + [parts[|parts| - 1]] else front
  }

  /** The results that the tool messages among the first `n` send to message `i`. */
  function ResultsFor<B, F>(msgs: seq<View<B, F>>, n: nat, i: nat): seq<PartView>
    requires n <= |msgs|
  {
    if n == 0 then []
    else ResultsFor(msgs, n - 1, i) + if msgs[n - 1].role.Tool? then RoutedTo(msgs, msgs[n - 1].parts, i) else []
  }

  function FoldedParts<B, F>(msgs: seq<View<B, F>>, i: nat): seq<PartView>
    requires i < |msgs|
  {
    InsertAll(msgs[i].parts, ResultsFor(msgs, |msgs|, i))
  }

  /** An entry of the output: an owner as it will be at the end, or a tool message cut down to its orphans. */
  datatype Entry = Kept(i: nat) | Orphaned(i: nat)

  function Entries<B, F>(msgs: seq<View<B, F>>, n: nat): (r: seq<Entry>)
    requires n <= |msgs|
    ensures forall e :: e in r ==> e.i < n && (e.Kept? <==> !msgs[e.i].role.Tool?)
    ensures forall e :: e in r && e.Orphaned? ==> Orphans(msgs, msgs[e.i].parts) != []
    ensures forall j, k :: 0 <= j < k < |r| ==> r[j].i < r[k].i
    ensures forall i :: 0 <= i < n && !msgs[i].role.Tool? ==> Kept(i) in r
  {
    if n == 0 then []
    else
      var front := Entries(msgs, n - 1);
      if !msgs[n - 1].role.Tool? then front + [Kept(n - 1)]
      else if Orphans(msgs, msgs[n - 1].parts) != [] then front + [Orphaned(n - 1)]
      else front
  }

  function Resolve<B, F>(msgs: seq<View<B, F>>, e: Entry): View<B, F>
    requires e.i < |msgs|
  {
    match e
    case Kept(i) => msgs[i].(parts := FoldedParts(msgs, i))
    case Orphaned(i) => msgs[i].(parts := Orphans(msgs, msgs[i].parts))
  }

  /** `foldToolResults`, as a value. */
  function Fold<B, F>(msgs: seq<View<B, F>>): (r: seq<View<B, F>>)
    ensures |r| == |Entries(msgs, |msgs|)|
    ensures forall k :: 0 <= k < |r| ==> r[k] == Resolve(msgs, Entries(msgs, |msgs|)[k])
  {
    seq(|Entries(msgs, |msgs|)|, k requires 0 <= k < |Entries(msgs, |msgs|)| => Resolve(msgs, Entries(msgs, |msgs|)[k]))
  }

  // ----- the pass over the message objects ----------------------------------------------------

  /** A message object whose part list is spliced in place. */
  class MessageObject<B, F> {
    const id: string
    const role: Role
    const badges: Option<B>
    const stepFinish: Option<F>
    var parts: seq<PartView>

    function Value(): View<B, F>
      reads this
    {
      MessageView(id, role, parts, badges, stepFinish)
    }

    constructor (v: View<B, F>)
      ensures Value() == v
    {
      this.id, this.role, this.parts, this.badges, this.stepFinish := v.id, v.role, v.parts, v.badges, v.stepFinish;
    }
  }

  type Obj<B, F> = MessageObject<B, F>

  function Values<B, F>(objs: seq<Obj<B, F>>): (r: seq<View<B, F>>)
    reads objs
    ensures |r| == |objs| && forall i :: 0 <= i < |r| ==> r[i] == objs[i].Value()
  {
    seq(|objs|, i requires 0 <= i < |objs| reads objs => objs[i].Value())
  }

  /** Enters the calls of one owner, over what was there. */
  method CollectCalls(parts: seq<PartView>, i: nat, before: map<string, nat>) returns (owner: map<string, nat>)
    requires "" !in before
    ensures forall c :: c in owner <==> c in before || (c != "" && HasCall(parts, c))
    ensures forall c :: c in owner ==> owner[c] == if HasCall(parts, c) then i else before[c]
  {
    owner := before;
    for k := 0 to |parts|
      invariant forall c :: c in owner <==> c in before || (c != "" && HasCall(parts[..k], c))
      invariant forall c :: c in owner ==> owner[c] == if HasCall(parts[..k], c) then i else before[c]
    {
      hide HasCall;
      var p := parts[k];
      HasCallSnoc(parts, k);
      if p.kind.ToolCallPart? && Truthy(p.callId) {
        owner := owner[p.callId.value := i];
      }
    }
    assert parts[..|parts|] == parts;
  }

  /** The first loop: which object owns each call, the later message winning. */
  method CollectOwners<B, F>(objs: seq<Obj<B, F>>) returns (owner: map<string, nat>)
    ensures forall c :: c in owner <==> c != "" && OwnerOf(Values(objs), |objs|, c).Some?
    ensures forall c :: c in owner ==> OwnerOf(Values(objs), |objs|, c) == Some(owner[c])
  {
    owner := map[];
    ghost var msgs := Values(objs);
    for i := 0 to |objs|
      invariant forall c :: c in owner <==> c != "" && OwnerOf(msgs, i, c).Some?
      invariant forall c :: c in owner ==> OwnerOf(msgs, i, c) == Some(owner[c])
    {
      hide HasCall, OwnerOf;
      OwnerStep(msgs, i);
      if !objs[i].role.Tool? {
        owner := CollectCalls(objs[i].parts, i, owner);
      }
    }
  }

  lemma OwnerStep<B, F>(msgs: seq<View<B, F>>, i: nat)
    requires i < |msgs|
    ensures forall c | !msgs[i].role.Tool? && HasCall(msgs[i].parts, c) :: OwnerOf(msgs, i + 1, c) == Some(i)
    ensures forall c | msgs[i].role.Tool? || !HasCall(msgs[i].parts, c) ::
              OwnerOf(msgs, i + 1, c) == OwnerOf(msgs, i, c)
  {
    hide HasCall;
  }

  lemma HasCallSnoc(parts: seq<PartView>, k: nat)
    requires k < |parts|
    ensures forall c :: HasCall(parts[..k + 1], c) <==> HasCall(parts[..k], c) || IsCall(parts[k], c)
  {
    forall c
      ensures HasCall(parts[..k + 1], c) <==> HasCall(parts[..k], c) || IsCall(parts[k], c)
    {
      if HasCall(parts[..k], c) {
        var i :| 0 <= i < |parts[..k]| && IsCall(parts[..k][i], c);
        assert IsCall(parts[..k + 1][i], c);
      }
      if IsCall(parts[k], c) { assert parts[..k + 1][k] == parts[k]; }
    }
  }

  /** The objects mid-pass: owners hold the results of the tool messages already walked. */
  ghost predicate Folding<B, F>(msgs: seq<View<B, F>>, objs: seq<Obj<B, F>>, n: nat, partial: seq<PartView>)
    requires n <= |msgs| == |objs|
    reads objs
  {
    forall j :: 0 <= j < |objs| ==>
      objs[j].Value() == if msgs[j].role.Tool? then msgs[j]
                         else
                           var results := ResultsFor(msgs, n, j) + RoutedTo(msgs, partial, j);
                           msgs[j].(parts := InsertAll(msgs[j].parts, results))
  }

  lemma RoutedSnoc<B, F>(msgs: seq<View<B, F>>, parts: seq<PartView>, k: nat, j: nat)
    requires k < |parts|
    ensures RoutedTo(msgs, parts[..k + 1], j)
         == RoutedTo(msgs, parts[..k], j) + if Route(msgs, parts[k]) == Some(j) then [parts[k]] else []
    ensures Orphans(msgs, parts[..k + 1])
         == Orphans(msgs, parts[..k]) + if Route(msgs, parts[k]).None? then [parts[k]] else []
  {
    assert parts[..k + 1][..k] == parts[..k];
  }

  lemma InsertAllSnoc(parts: seq<PartView>, rs: seq<PartView>, r: PartView)
    ensures InsertAll(parts, rs + [r]) == Insert(InsertAll(parts, rs), r)
  {
    assert (rs + [r])[..|rs|] == rs;
  }

  /** One part of a tool message: spliced into its owner, or kept as an orphan. */
  method FoldPart<B, F>(ghost msgs: seq<View<B, F>>, objs: seq<Obj<B, F>>, ghost n: nat, owner: map<string, nat>,
                        ghost parts: seq<PartView>, ghost k: nat, part: PartView, orphans0: seq<PartView>)
      returns (orphans: seq<PartView>)
    requires n <= |msgs| == |objs| && Distinct(objs)
    requires forall c :: c in owner <==> c != "" && OwnerOf(msgs, |msgs|, c).Some?
    requires forall c :: c in owner ==> OwnerOf(msgs, |msgs|, c) == Some(owner[c])
    requires k < |parts| && part == parts[k]
    requires Folding(msgs, objs, n, parts[..k]) && orphans0 == Orphans(msgs, parts[..k])
    modifies objs
    ensures Folding(msgs, objs, n, parts[..k + 1]) && orphans == Orphans(msgs, parts[..k + 1])
  {
    hide RoutedTo, Orphans, ResultsFor, InsertAll, Place;
    forall j: nat | j < |objs|
      ensures RoutedTo(msgs, parts[..k + 1], j)
           == RoutedTo(msgs, parts[..k], j) + if Route(msgs, part) == Some(j) then [part] else []
    {
      RoutedSnoc(msgs, parts, k, j);
    }
    RoutedSnoc(msgs, parts, k, 0);
    if part.kind.ToolResultPart? && part.callId.Some? && part.callId.value in owner {
      var o := owner[part.callId.value];
      assert Route(msgs, part) == Some(o);
      hide Route, OwnerOf;
      orphans := orphans0;
      assert orphans0 + [] == orphans0;
      ghost var rs := ResultsFor(msgs, n, o) + RoutedTo(msgs, parts[..k], o);
      InsertAllSnoc(msgs[o].parts, rs, part);
      assert rs + [part] == ResultsFor(msgs, n, o) + (RoutedTo(msgs, parts[..k], o) + [part]);
      var at := Place(objs[o].parts, part);
      objs[o].parts := objs[o].parts[..at] + [part] + objs[o].parts[at..];
      assert forall j | 0 <= j < |objs| && j != o ::
               RoutedTo(msgs, parts[..k], j) + [] == RoutedTo(msgs, parts[..k], j);
    } else {
      assert Route(msgs, part).None?;
      hide Route, OwnerOf;
      orphans := orphans0 + [part];
      assert forall j :: 0 <= j < |objs| ==> RoutedTo(msgs, parts[..k], j) + [] == RoutedTo(msgs, parts[..k], j);
    }
  }

  /** The inner loop over one tool message. */
  method FoldMessage<B, F>(ghost msgs: seq<View<B, F>>, objs: seq<Obj<B, F>>, n: nat, owner: map<string, nat>)
      returns (orphans: seq<PartView>)
    requires n < |msgs| == |objs| && Distinct(objs) && msgs[n].role.Tool?
    requires forall c :: c in owner <==> c != "" && OwnerOf(msgs, |msgs|, c).Some?
    requires forall c :: c in owner ==> OwnerOf(msgs, |msgs|, c) == Some(owner[c])
    requires Folding(msgs, objs, n, [])
    modifies objs
    ensures Folding(msgs, objs, n + 1, []) && orphans == Orphans(msgs, msgs[n].parts)
  {
    hide RoutedTo, Orphans, InsertAll, Route, OwnerOf;
    var parts := objs[n].parts;
    assert parts == msgs[n].parts;
    orphans := [];
    NothingYet(msgs, parts);
    for k := 0 to |parts|
      invariant Folding(msgs, objs, n, parts[..k]) && orphans == Orphans(msgs, parts[..k])
    {
      orphans := FoldPart(msgs, objs, n, owner, parts, k, parts[k], orphans);
    }
    assert parts[..|parts|] == parts;
    NextMessage(msgs, objs, n);
  }

  lemma NothingYet<B, F>(msgs: seq<View<B, F>>, parts: seq<PartView>)
    ensures parts[..0] == [] && Orphans(msgs, []) == []
  {
  }

  /** Folding every part of tool message `n` is folding the first `n + 1` messages. */
  lemma NextMessage<B, F>(msgs: seq<View<B, F>>, objs: seq<Obj<B, F>>, n: nat)
    requires n < |msgs| == |objs|
    requires Folding(msgs, objs, n, if msgs[n].role.Tool? then msgs[n].parts else [])
    ensures Folding(msgs, objs, n + 1, [])
  {
    hide InsertAll, Route;
    forall j: nat | j < |objs|
      ensures ResultsFor(msgs, n + 1, j) + RoutedTo(msgs, [], j)
           == ResultsFor(msgs, n, j) + RoutedTo(msgs, if msgs[n].role.Tool? then msgs[n].parts else [], j)
    {
    }
  }

  /** What has been pushed to `out`: references to owners, and fresh copies for orphans. */
  ghost predicate Pushed<B, F>(msgs: seq<View<B, F>>, objs: seq<Obj<B, F>>, n: nat, out: seq<Obj<B, F>>)
    requires n <= |msgs| == |objs|
    reads set o | o in out && o !in objs
  {
    var es := Entries(msgs, n);
    && |out| == |es|
    && forall k :: 0 <= k < |out| ==>
         match es[k]
         case Kept(i) => out[k] == objs[i]
         case Orphaned(i) => out[k] !in objs && out[k].Value() == Resolve(msgs, es[k])
  }

  lemma PushOwner<B, F>(msgs: seq<View<B, F>>, objs: seq<Obj<B, F>>, n: nat, out: seq<Obj<B, F>>)
    requires n < |msgs| == |objs| && !msgs[n].role.Tool? && Pushed(msgs, objs, n, out)
    ensures Pushed(msgs, objs, n + 1, out + [objs[n]])
  {
    hide Resolve, Orphans;
  }

  lemma PushOrphans<B, F>(msgs: seq<View<B, F>>, objs: seq<Obj<B, F>>, n: nat, out: seq<Obj<B, F>>, copy: Obj<B, F>)
    requires n < |msgs| == |objs| && msgs[n].role.Tool? && Pushed(msgs, objs, n, out)
    requires Orphans(msgs, msgs[n].parts) != []
    requires copy !in objs && copy.Value() == Resolve(msgs, Orphaned(n))
    ensures Pushed(msgs, objs, n + 1, out + [copy])
  {
    hide Resolve, Orphans;
  }

  lemma PushNothing<B, F>(msgs: seq<View<B, F>>, objs: seq<Obj<B, F>>, n: nat, out: seq<Obj<B, F>>)
    requires n < |msgs| == |objs| && msgs[n].role.Tool? && Pushed(msgs, objs, n, out)
    requires Orphans(msgs, msgs[n].parts) == []
    ensures Pushed(msgs, objs, n + 1, out)
  {
    hide Resolve, Orphans;
  }

  /**
    `foldToolResults` on the objects themselves.  The output holds references to owners that later tool
    messages go on mutating, and still its final value is the fold of the initial one.
   */
  method FoldToolResults<B, F>(objs: seq<Obj<B, F>>) returns (out: seq<Obj<B, F>>)
    requires Distinct(objs)
    modifies objs
    ensures Values(out) == Fold(old(Values(objs)))
  {
    hide Orphans, InsertAll, Route, OwnerOf, Fold, Pushed, Folding, Entries;
    ghost var msgs := Values(objs);
    var owner := CollectOwners(objs);
    out := [];
    StartFolding(msgs, objs);
    for n := 0 to |objs|
      invariant Folding(msgs, objs, n, [])
      invariant Pushed(msgs, objs, n, out)
    {
      if !objs[n].role.Tool? {
        NextMessage(msgs, objs, n);
        PushOwner(msgs, objs, n, out);
        out := out + [objs[n]];
        continue;
      }
      var orphans := FoldMessage(msgs, objs, n, owner);
      if orphans != [] {
        var copy := new MessageObject(objs[n].Value().(parts := orphans));
        PushOrphans(msgs, objs, n, out, copy);
        out := out + [copy];
      } else {
        PushNothing(msgs, objs, n, out);
      }
    }
    FinishFolding(msgs, objs, out);
  }

  lemma StartFolding<B, F>(msgs: seq<View<B, F>>, objs: seq<Obj<B, F>>)
    requires msgs == Values(objs)
    ensures Folding(msgs, objs, 0, []) && Pushed(msgs, objs, 0, [])
  {
    var none: seq<PartView> := [];
    assert none + none == none;
  }

  lemma FinishFolding<B, F>(msgs: seq<View<B, F>>, objs: seq<Obj<B, F>>, out: seq<Obj<B, F>>)
    requires |msgs| == |objs|
    requires Folding(msgs, objs, |msgs|, []) && Pushed(msgs, objs, |msgs|, out)
    ensures Values(out) == Fold(msgs)
  {
    hide Orphans, InsertAll, Route, OwnerOf;
    var es := Entries(msgs, |msgs|);
    forall k | 0 <= k < |out|
      ensures out[k].Value() == Resolve(msgs, es[k])
    {
      assert es[k] in es;
      if es[k].Kept? {
        var i := es[k].i;
        assert ResultsFor(msgs, |msgs|, i) + [] == ResultsFor(msgs, |msgs|, i);
      }
    }
    assert Values(out) == Fold(msgs);
  }

  // ----- conservation -------------------------------------------------------------------------

  /** All parts of a list of messages. */
  function PartsIn<B, F>(msgs: seq<View<B, F>>): multiset<PartView>
  {
    if msgs == [] then multiset{} else PartsIn(msgs[..|msgs| - 1]) + multiset(msgs[|msgs| - 1].parts)
  }

  /** The parts routed to one of the first `n` messages. */
  function RoutedBelow<B, F>(msgs: seq<View<B, F>>, parts: seq<PartView>, n: nat): multiset<PartView>
  {
    if n == 0 then multiset{} else RoutedBelow(msgs, parts, n - 1) + multiset(RoutedTo(msgs, parts, n - 1))
  }

  lemma {:induction false} RoutedBelowSnoc<B, F>(msgs: seq<View<B, F>>, parts: seq<PartView>, p: PartView, n: nat)
    ensures RoutedBelow(msgs, parts + [p], n)
         == RoutedBelow(msgs, parts, n)
            + if Route(msgs, p).Some? && Route(msgs, p).value < n then multiset{p} else multiset{}
  {
    hide Route;
    assert (parts + [p])[..|parts|] == parts;
    if n > 0 { RoutedBelowSnoc(msgs, parts, p, n - 1); }
  }

  lemma {:induction false} RoutedBelowNone<B, F>(msgs: seq<View<B, F>>, n: nat)
    ensures RoutedBelow(msgs, [], n) == multiset{}
  {
    if n > 0 { RoutedBelowNone(msgs, n - 1); }
  }

  lemma OrphansSnoc<B, F>(msgs: seq<View<B, F>>, parts: seq<PartView>, p: PartView)
    ensures multiset(Orphans(msgs, parts + [p]))
         == multiset(Orphans(msgs, parts)) + if Route(msgs, p).None? then multiset{p} else multiset{}
  {
    hide Route;
    assert (parts + [p])[..|parts|] == parts;
  }

  /** A tool message's parts: each an orphan or routed to exactly one message. */
  lemma {:induction false} PartsSplit<B, F>(msgs: seq<View<B, F>>, parts: seq<PartView>)
    ensures multiset(parts) == multiset(Orphans(msgs, parts)) + RoutedBelow(msgs, parts, |msgs|)
  {
    if parts == [] {
      RoutedBelowNone(msgs, |msgs|);
    } else {
      var front, p := parts[..|parts| - 1], parts[|parts| - 1];
      PartsSplit(msgs, front);
      RoutedBelowSnoc(msgs, front, p, |msgs|);
      assert parts == front + [p];
      assert Route(msgs, p).Some? ==> Route(msgs, p).value < |msgs|;
      hide Route, RoutedBelow;
      OrphansSnoc(msgs, front, p);
      hide Orphans;
      var at := Route(msgs, p);
      Chain(multiset(front), multiset(Orphans(msgs, front)), RoutedBelow(msgs, front, |msgs|),
            if at.None? then multiset{p} else multiset{}, if at.Some? then multiset{p} else multiset{});
      assert multiset(parts) == multiset(front) + multiset{p};
      assert (if at.None? then multiset{p} else multiset{}) + (if at.Some? then multiset{p} else multiset{})
          == multiset{p};
    }
  }

  /** What the tool messages among the first `n` send to the first `m` messages. */
  function SentBelow<B, F>(msgs: seq<View<B, F>>, n: nat, m: nat): multiset<PartView>
    requires n <= |msgs|
  {
    if m == 0 then multiset{} else SentBelow(msgs, n, m - 1) + multiset(ResultsFor(msgs, n, m - 1))
  }

  lemma Regroup<T>(a: multiset<T>, b: multiset<T>, c: multiset<T>, d: multiset<T>)
    ensures (a + b) + (c + d) == (a + c) + (b + d)
  {
  }

  /** What message `n` adds to the results of message `i`. */
  lemma ResultsStep<B, F>(msgs: seq<View<B, F>>, n: nat, i: nat)
    requires n < |msgs|
    ensures multiset(ResultsFor(msgs, n + 1, i))
         == multiset(ResultsFor(msgs, n, i))
            + if msgs[n].role.Tool? then multiset(RoutedTo(msgs, msgs[n].parts, i)) else multiset{}
  {
    hide RoutedTo;
  }

  lemma {:induction false} SentBelowStep<B, F>(msgs: seq<View<B, F>>, n: nat, m: nat)
    requires n < |msgs|
    ensures SentBelow(msgs, n + 1, m)
         == SentBelow(msgs, n, m) + if msgs[n].role.Tool? then RoutedBelow(msgs, msgs[n].parts, m) else multiset{}
  {
    hide RoutedTo, ResultsFor;
    if m > 0 {
      SentBelowStep(msgs, n, m - 1);
      ResultsStep(msgs, n, m - 1);
      if msgs[n].role.Tool? {
        Regroup(SentBelow(msgs, n, m - 1), RoutedBelow(msgs, msgs[n].parts, m - 1),
                multiset(ResultsFor(msgs, n, m - 1)), multiset(RoutedTo(msgs, msgs[n].parts, m - 1)));
      }
    }
  }

  lemma {:induction false} SentBelowStart<B, F>(msgs: seq<View<B, F>>, m: nat)
    ensures SentBelow(msgs, 0, m) == multiset{}
  {
    if m > 0 { SentBelowStart(msgs, m - 1); }
  }

  /** Own parts of owners, orphans of tool messages: what stays where it was, up to entry `n`. */
  function Staying<B, F>(msgs: seq<View<B, F>>, n: nat): multiset<PartView>
    requires n <= |msgs|
  {
    if n == 0 then multiset{}
    else Staying(msgs, n - 1) + StayingAt(msgs, n - 1)
  }

  function StayingAt<B, F>(msgs: seq<View<B, F>>, i: nat): multiset<PartView>
    requires i < |msgs|
  {
    if msgs[i].role.Tool? then multiset(Orphans(msgs, msgs[i].parts)) else multiset(msgs[i].parts)
  }

  lemma Chain<T>(before: multiset<T>, stay: multiset<T>, sent: multiset<T>, a: multiset<T>, b: multiset<T>)
    requires before == stay + sent
    ensures before + (a + b) == (stay + a) + (sent + b)
  {
  }

  lemma InputStep<B, F>(msgs: seq<View<B, F>>, n: nat)
    requires n < |msgs|
    ensures PartsIn(msgs[..n + 1]) == PartsIn(msgs[..n]) + multiset(msgs[n].parts)
  {
    assert msgs[..n + 1] == msgs[..n] + [msgs[n]];
    PartsInSnoc(msgs[..n], msgs[n]);
  }

  /** A message's parts are those that stay and, in a tool message, those routed to some owner. */
  lemma MessageSplits<B, F>(msgs: seq<View<B, F>>, n: nat)
    requires n < |msgs|
    ensures multiset(msgs[n].parts)
         == StayingAt(msgs, n) + if msgs[n].role.Tool? then RoutedBelow(msgs, msgs[n].parts, |msgs|) else multiset{}
  {
    hide Orphans, RoutedBelow;
    PartsSplit(msgs, msgs[n].parts);
  }

  lemma {:induction false} InputSplits<B, F>(msgs: seq<View<B, F>>, n: nat)
    requires n <= |msgs|
    ensures PartsIn(msgs[..n]) == Staying(msgs, n) + SentBelow(msgs, n, |msgs|)
  {
    if n == 0 {
      SentBelowStart(msgs, |msgs|);
    } else {
      hide *;
      var k := n - 1;
      InputSplits(msgs, k);
      InputStep(msgs, k);
      StayingStep(msgs, k);
      SentBelowStep(msgs, k, |msgs|);
      MessageSplits(msgs, k);
      Chain(PartsIn(msgs[..k]), Staying(msgs, k), SentBelow(msgs, k, |msgs|), StayingAt(msgs, k),
            if msgs[k].role.Tool? then RoutedBelow(msgs, msgs[k].parts, |msgs|) else multiset{});
    }
  }

  /** Nothing is ever routed to a tool message. */
  lemma {:induction false} ToolsReceiveNothing<B, F>(msgs: seq<View<B, F>>, n: nat, i: nat)
    requires n <= |msgs| && i < |msgs| && msgs[i].role.Tool?
    ensures ResultsFor(msgs, n, i) == []
  {
    hide RoutedTo;
    if n > 0 {
      ToolsReceiveNothing(msgs, n - 1, i);
      NoRouteNoParts(msgs, msgs[n - 1].parts, i);
    }
  }

  lemma {:induction false} NoRouteNoParts<B, F>(msgs: seq<View<B, F>>, parts: seq<PartView>, i: nat)
    requires i < |msgs| && msgs[i].role.Tool?
    ensures RoutedTo(msgs, parts, i) == []
  {
    if parts != [] { NoRouteNoParts(msgs, parts[..|parts| - 1], i); }
  }

  /** The output as built from the first `n` entries. */
  function FoldTo<B, F>(msgs: seq<View<B, F>>, n: nat): (r: seq<View<B, F>>)
    requires n <= |msgs|
    ensures |r| == |Entries(msgs, n)|
  {
    var es := Entries(msgs, n);
    seq(|es|, k requires 0 <= k < |es| => (assert es[k] in es; Resolve(msgs, es[k])))
  }

  /** What entry `n` adds to the output. */
  lemma FoldToStep<B, F>(msgs: seq<View<B, F>>, n: nat)
    requires n < |msgs|
    ensures FoldTo(msgs, n + 1) == FoldTo(msgs, n) +
              (if !msgs[n].role.Tool? then [Resolve(msgs, Kept(n))]
               else if Orphans(msgs, msgs[n].parts) != [] then [Resolve(msgs, Orphaned(n))] else [])
  {
    hide Orphans, Resolve;
  }

  lemma PartsInSnoc<B, F>(msgs: seq<View<B, F>>, m: View<B, F>)
    ensures PartsIn(msgs + [m]) == PartsIn(msgs) + multiset(m.parts)
  {
    assert (msgs + [m])[..|msgs|] == msgs;
  }

  /** The parts in the output of the first `n` entries. */
  function Output<B, F>(msgs: seq<View<B, F>>, n: nat): multiset<PartView>
    requires n <= |msgs|
  {
    PartsIn(FoldTo(msgs, n))
  }

  lemma OutputStep<B, F>(msgs: seq<View<B, F>>, n: nat)
    requires n < |msgs|
    ensures Output(msgs, n + 1)
         == Output(msgs, n) + (StayingAt(msgs, n) + multiset(ResultsFor(msgs, |msgs|, n)))
  {
    hide Orphans, InsertAll, Entries, ResultsFor, FoldTo, PartsIn;
    FoldToStep(msgs, n);
    var front := FoldTo(msgs, n);
    if msgs[n].role.Tool? {
      ToolsReceiveNothing(msgs, |msgs|, n);
      PartsInSnoc(front, Resolve(msgs, Orphaned(n)));
      assert front + [] == front;
    } else {
      InsertAllConserves(msgs[n].parts, ResultsFor(msgs, |msgs|, n));
      PartsInSnoc(front, Resolve(msgs, Kept(n)));
    }
  }

  lemma StayingStep<B, F>(msgs: seq<View<B, F>>, n: nat)
    requires n < |msgs|
    ensures Staying(msgs, n + 1) == Staying(msgs, n) + StayingAt(msgs, n)
  {
  }

  lemma SentBelowGrows<B, F>(msgs: seq<View<B, F>>, n: nat, m: nat)
    requires n <= |msgs|
    ensures SentBelow(msgs, n, m + 1) == SentBelow(msgs, n, m) + multiset(ResultsFor(msgs, n, m))
  {
  }

  lemma {:induction false} OutputSplits<B, F>(msgs: seq<View<B, F>>, n: nat)
    requires n <= |msgs|
    ensures Output(msgs, n) == Staying(msgs, n) + SentBelow(msgs, |msgs|, n)
  {
    hide *;
    if n == 0 {
      OutputStart(msgs);
    } else {
      OutputSplits(msgs, n - 1);
      OutputStep(msgs, n - 1);
      StayingStep(msgs, n - 1);
      SentBelowGrows(msgs, |msgs|, n - 1);
      var k := n - 1;
      Chain(Output(msgs, k), Staying(msgs, k), SentBelow(msgs, |msgs|, k),
            StayingAt(msgs, k), multiset(ResultsFor(msgs, |msgs|, k)));
    }
  }

  lemma OutputStart<B, F>(msgs: seq<View<B, F>>)
    ensures Output(msgs, 0) == Staying(msgs, 0) + SentBelow(msgs, |msgs|, 0)
  {
    EmptyOutput(msgs);
  }

  lemma EmptyOutput<B, F>(msgs: seq<View<B, F>>)
    ensures FoldTo(msgs, 0) == []
  {
  }

  /** Folding neither loses nor doubles a part. */
  lemma FoldConserves<B, F>(msgs: seq<View<B, F>>)
    ensures PartsIn(Fold(msgs)) == PartsIn(msgs)
  {
    hide PartsIn, Staying, SentBelow, Resolve;
    InputSplits(msgs, |msgs|);
    OutputSplits(msgs, |msgs|);
    assert msgs[..|msgs|] == msgs;
    assert FoldTo(msgs, |msgs|) == Fold(msgs);
  }

  // ----- shape of the output ------------------------------------------------------------------

  lemma {:induction false} RoutedHaveCalls<B, F>(msgs: seq<View<B, F>>, parts: seq<PartView>, i: nat)
    requires i < |msgs|
    ensures ResultsOfCallsIn(msgs[i].parts, RoutedTo(msgs, parts, i))
  {
    hide OwnerOf, HasCall;
    if parts != [] { RoutedHaveCalls(msgs, parts[..|parts| - 1], i); }
  }

  lemma {:induction false} ResultsHaveCalls<B, F>(msgs: seq<View<B, F>>, n: nat, i: nat)
    requires n <= |msgs| && i < |msgs|
    ensures ResultsOfCallsIn(msgs[i].parts, ResultsFor(msgs, n, i))
  {
    hide HasCall, RoutedTo;
    if n > 0 {
      ResultsHaveCalls(msgs, n - 1, i);
      RoutedHaveCalls(msgs, msgs[n - 1].parts, i);
    }
  }

  /**
    The shape of every message of the output: no tool message is left empty; and an owner is its own
    parts in their old order with every result that moved standing behind its call, or behind another
    moved result of that call.
   */
  lemma FoldShape<B, F>(msgs: seq<View<B, F>>, k: nat)
    requires k < |Fold(msgs)|
    ensures Fold(msgs)[k].role.Tool? ==> Fold(msgs)[k].parts != []
    ensures !Fold(msgs)[k].role.Tool? ==>
              var i := Entries(msgs, |msgs|)[k].i;
              && i < |msgs|
              && var placed := PlaceAll(msgs[i].parts, ResultsFor(msgs, |msgs|, i));
              && Parts(placed) == Fold(msgs)[k].parts
              && Unmoved(placed) == msgs[i].parts
              && forall j :: 0 <= j < |placed| && placed[j].moved ==> FollowsItsCall(placed, j)
  {
    hide PlaceAll, Unmoved, FollowsItsCall, InsertAll, ResultsFor, Orphans;
    var e := Entries(msgs, |msgs|)[k];
    assert e in Entries(msgs, |msgs|);
    if e.Kept? {
      ResultsHaveCalls(msgs, |msgs|, e.i);
      PlacementHolds(msgs[e.i].parts, ResultsFor(msgs, |msgs|, e.i));
    }
  }
}
