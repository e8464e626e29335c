/**
  What becomes of an earlier projection when a part is appended to a message already logged.
 */
module ProjectionGrowth {
  import opened Common
  import opened Transcript
  import opened Escaping
  import opened UserProjection
  import opened Projection

  // ----- appending a part ---------------------------------------------------------------------

  predicate DistinctIds<Id(==)>(msgs: Log<Id>) { forall i, j :: 0 <= i < j < |msgs| ==> msgs[i].id != msgs[j].id }

  /** The table with `x` appended to the parts of `id`. */
  function Grown<Id>(table: PartTable<Id>, id: Id, x: Part): PartTable<Id> { table[id := PartsOf(table, id) + [x]] }

  /** What an appended part lists. */
  function NewListings<Id>(parse: string -> Option<Id>, x: Part, owner: Id): seq<Listing<Id>>
  {
    if x.Compaction? then ParsedIds(parse, x.compactedIds, owner) else []
  }

  lemma {:induction false} ListingsAppend<Id>(parse: string -> Option<Id>, xs: Log<Id>, ys: Log<Id>,
                                              table: PartTable<Id>)
    ensures Listings(parse, xs + ys, table) == Listings(parse, xs, table) + Listings(parse, ys, table)
  {
    hide PartListings;
    if ys == [] {
      assert xs + ys == xs;
    } else {
      assert (xs + ys)[..|xs + ys| - 1] == xs + ys[..|ys| - 1];
      ListingsAppend(parse, xs, ys[..|ys| - 1], table);
    }
  }

  lemma PartListingsSnoc<Id>(parse: string -> Option<Id>, parts: seq<Part>, x: Part, owner: Id)
    ensures PartListings(parse, parts + [x], owner) == PartListings(parse, parts, owner) + NewListings(parse, x, owner)
  {
    hide ParsedIds;
    assert (parts + [x])[..|parts|] == parts;
  }

  /** The listings up to entry `i` and those behind it. */
  lemma ListingsCut<Id>(parse: string -> Option<Id>, msgs: Log<Id>, table: PartTable<Id>, i: nat)
    requires i < |msgs|
    ensures Listings(parse, msgs, table)
         == Listings(parse, msgs[..i + 1], table) + Listings(parse, msgs[i + 1..], table)
  {
    hide Listings;
    assert msgs == msgs[..i + 1] + msgs[i + 1..];
    ListingsAppend(parse, msgs[..i + 1], msgs[i + 1..], table);
  }

  /** Appending a part inserts its listings behind those of its message. */
  lemma ListingsGrown<Id>(parse: string -> Option<Id>, msgs: Log<Id>, table: PartTable<Id>, i: nat, x: Part)
    requires DistinctIds(msgs) && i < |msgs|
    ensures Listings(parse, msgs, Grown(table, msgs[i].id, x))
         == Listings(parse, msgs[..i + 1], table) + NewListings(parse, x, msgs[i].id)
            + Listings(parse, msgs[i + 1..], table)
  {
    var id := msgs[i].id;
    var table' := Grown(table, id, x);
    GrownElsewhere(msgs, table, i, x);
    hide *;
    ListingsCut(parse, msgs, table', i);
    ListingsSnoc(parse, msgs, table, i);
    ListingsSnoc(parse, msgs, table', i);
    PartListingsSnoc(parse, PartsOf(table, id), x, id);
    ListingsDependOnParts(parse, msgs[..i], table, table');
    ListingsDependOnParts(parse, msgs[i + 1..], table, table');
    Regroup(Listings(parse, msgs[..i], table), PartListings(parse, PartsOf(table, id), id), NewListings(parse, x, id));
  }

  lemma Regroup<T>(a: seq<T>, b: seq<T>, c: seq<T>)
    ensures a + (b + c) == a + b + c
  {
  }

  lemma GrownElsewhere<Id>(msgs: Log<Id>, table: PartTable<Id>, i: nat, x: Part)
    requires DistinctIds(msgs) && i < |msgs|
    ensures var table' := Grown(table, msgs[i].id, x);
            var front, later := msgs[..i], msgs[i + 1..];
            && PartsOf(table', msgs[i].id) == PartsOf(table, msgs[i].id) + [x]
            && (forall k :: 0 <= k < |front| ==> PartsOf(table', front[k].id) == PartsOf(table, front[k].id))
            && (forall k :: 0 <= k < |later| ==> PartsOf(table', later[k].id) == PartsOf(table, later[k].id))
  {
  }

  /** Exactly the ids that the part lists, unless a later message lists them, change hands. */
  lemma AppendedPartOwnersIff<Id>(parse: string -> Option<Id>, msgs: Log<Id>, table: PartTable<Id>, i: nat, x: Part,
                                  id: Id)
    requires DistinctIds(msgs) && i < |msgs|
    ensures var before := OwnerIn(Listings(parse, msgs, table), id);
            var after := OwnerIn(Listings(parse, msgs, Grown(table, msgs[i].id, x)), id);
            var listed := exists l :: l in NewListings(parse, x, msgs[i].id) && l.id == id;
            var relisted := OwnerIn(Listings(parse, msgs[i + 1..], table), id).Some?;
            && (after == before || after == Some(msgs[i].id))
            && (after == before <==> before == Some(msgs[i].id) || relisted || !listed)
  {
    hide Listings, OwnerIn, NewListings;
    var upto, later := Listings(parse, msgs[..i + 1], table), Listings(parse, msgs[i + 1..], table);
    var added := NewListings(parse, x, msgs[i].id);
    ListingsCut(parse, msgs, table, i);
    ListingsGrown(parse, msgs, table, i, x);
    OwnerInAppend(upto, later, id);
    OwnerInAppend(upto + added, later, id);
    OwnerInAppend(upto, added, id);
    OwnerInMeans(added, id);
    NewListingsOwner(parse, x, msgs[i].id);
  }

  lemma NewListingsOwner<Id>(parse: string -> Option<Id>, x: Part, owner: Id)
    ensures forall l :: l in NewListings(parse, x, owner) ==> l.owner == owner
  {
    if x.Compaction? { ParsedIdsOwner(parse, x.compactedIds, owner); }
  }

  /**
    The part leaves every logged message with its owner, and if it is a compaction its message owns none,
    so that no summary already shown is replaced.
   */
  ghost predicate Neutral<Id>(parse: string -> Option<Id>, msgs: Log<Id>, table: PartTable<Id>, i: nat, x: Part)
    requires i < |msgs|
  {
    var ls, ls' := Listings(parse, msgs, table), Listings(parse, msgs, Grown(table, msgs[i].id, x));
    && (forall k :: 0 <= k < |msgs| ==> OwnerIn(ls', msgs[k].id) == OwnerIn(ls, msgs[k].id))
    && (x.Compaction? ==> forall k :: 0 <= k < |msgs| ==> OwnerIn(ls, msgs[k].id) != Some(msgs[i].id))
  }

  lemma PlainPartIsNeutral<Id>(parse: string -> Option<Id>, msgs: Log<Id>, table: PartTable<Id>, i: nat, x: Part)
    requires DistinctIds(msgs) && i < |msgs| && !x.Compaction?
    ensures Neutral(parse, msgs, table, i, x)
  {
    hide Listings, OwnerIn;
    ListingsCut(parse, msgs, table, i);
    ListingsGrown(parse, msgs, table, i, x);
    assert Listings(parse, msgs[..i + 1], table) + [] == Listings(parse, msgs[..i + 1], table);
  }

  /** Every contribution but that of entry `i` is as it was. */
  lemma OtherPiecesStay<Id>(parse: string -> Option<Id>, msgs: Log<Id>, table: PartTable<Id>, caps: Caps,
                            request: Option<string>,
                            i: nat, x: Part, k: nat)
    requires DistinctIds(msgs) && i < |msgs| && Neutral(parse, msgs, table, i, x) && k < |msgs|
    requires k != i || OwnerIn(Listings(parse, msgs, table), msgs[k].id).Some?
    ensures var table' := Grown(table, msgs[i].id, x);
            var ls, ls' := Listings(parse, msgs, table), Listings(parse, msgs, table');
            Piece(msgs, table', caps, request, ls', k) == Piece(msgs, table, caps, request, ls, k)
  {
    hide Listings, OwnerIn, ProjectMessage, SummaryMessage;
    var table' := Grown(table, msgs[i].id, x);
    var ls, ls' := Listings(parse, msgs, table), Listings(parse, msgs, table');
    assert IsFirstOf(msgs, ls', k) <==> IsFirstOf(msgs, ls, k);
    if OwnerIn(ls, msgs[k].id).Some? {
      SummaryStays(table, msgs[i].id, x, OwnerIn(ls, msgs[k].id).value);
    } else {
      assert msgs[k].id != msgs[i].id;
    }
  }

  lemma SummaryStays<Id>(table: PartTable<Id>, id: Id, x: Part, o: Id)
    requires x.Compaction? ==> o != id
    ensures SummaryIn(PartsOf(Grown(table, id, x), o)) == SummaryIn(PartsOf(table, o))
  {
    assert (PartsOf(table, id) + [x])[..|PartsOf(table, id)|] == PartsOf(table, id);
  }

  /** The contributions behind entry `i`, up to entry `n`. */
  function Behind<Id(==)>(msgs: Log<Id>, table: PartTable<Id>, caps: Caps, request: Option<string>,
                          ls: seq<Listing<Id>>, i: nat, n: nat): seq<LlmMessage>
    requires n <= |msgs|
  {
    if n <= i + 1 then []
    else Behind(msgs, table, caps, request, ls, i, n - 1) + Piece(msgs, table, caps, request, ls, n - 1)
  }

  lemma {:induction false} PiecesCut<Id>(msgs: Log<Id>, table: PartTable<Id>, caps: Caps, request: Option<string>,
                                         ls: seq<Listing<Id>>, i: nat, n: nat)
    requires i < n <= |msgs|
    ensures PiecesTo(msgs, table, caps, request, ls, n)
         == PiecesTo(msgs, table, caps, request, ls, i) + Piece(msgs, table, caps, request, ls, i)
            + Behind(msgs, table, caps, request, ls, i, n)
  {
    hide Piece;
    if n == i + 1 {
      var here := PiecesTo(msgs, table, caps, request, ls, i) + Piece(msgs, table, caps, request, ls, i);
      assert here + [] == here;
    } else {
      PiecesCut(msgs, table, caps, request, ls, i, n - 1);
    }
  }

  /** Logs with the same contributions before and behind entry `i`. */
  lemma {:induction false} SameAround<Id>(parse: string -> Option<Id>, msgs: Log<Id>, table: PartTable<Id>,
                                          caps: Caps, request: Option<string>,
                                          i: nat, x: Part, n: nat)
    requires DistinctIds(msgs) && i < |msgs| && Neutral(parse, msgs, table, i, x) && n <= |msgs|
    ensures var table' := Grown(table, msgs[i].id, x);
            var ls, ls' := Listings(parse, msgs, table), Listings(parse, msgs, table');
            && (n <= i ==> PiecesTo(msgs, table', caps, request, ls', n) == PiecesTo(msgs, table, caps, request, ls, n))
            && Behind(msgs, table', caps, request, ls', i, n) == Behind(msgs, table, caps, request, ls, i, n)
  {
    hide Listings, Piece, Neutral, DistinctIds;
    if n > 0 {
      SameAround(parse, msgs, table, caps, request, i, x, n - 1);
      if n - 1 != i { OtherPiecesStay(parse, msgs, table, caps, request, i, x, n - 1); }
    }
  }

  lemma {:induction false} ToolAtMostOneMore(parts: seq<Part>, x: Part)
    ensures |ProjectTool(parts + [x])| <= |ProjectTool(parts)| + 1
  {
    assert (parts + [x])[..|parts|] == parts;
  }

  lemma AtMostOneMore(role: Role, parts: seq<Part>, x: Part, caps: Caps, request: Option<string>)
    ensures |ProjectMessage(role, parts + [x], caps, request)| <= |ProjectMessage(role, parts, caps, request)| + 1
  {
    hide UserContent, Lines, Calls, ProjectTool;
    if role.Tool? { ToolAtMostOneMore(parts, x); }
  }

  /** A list is a prefix of itself behind one more element exactly if it repeats that element. */
  lemma {:induction false} ShiftedPrefix<T>(y: T, q: seq<T>)
    ensures q <= [y] + q <==> forall k :: 0 <= k < |q| ==> q[k] == y
  {
    var s := [y] + q;
    if q <= s {
      forall k | 0 <= k < |q|
        ensures q[k] == y
      {
        RepeatsFrom(y, q, k);
      }
    } else {
      var k :| 0 <= k < |q| && q[k] != s[k];
      assert k > 0 ==> s[k] == q[k - 1];
    }
  }

  lemma {:induction false} RepeatsFrom<T>(y: T, q: seq<T>, k: nat)
    requires q <= [y] + q && k < |q|
    ensures q[k] == y
  {
    assert q[k] == ([y] + q)[k];
    if k > 0 { RepeatsFrom(y, q, k - 1); }
  }

  /** `p'` is `p`, or `p` and one element more that all of `q` repeats. */
  predicate OnlyAdds<T(==)>(p: seq<T>, p': seq<T>, q: seq<T>)
  {
    p' == p || (|p'| == |p| + 1 && p <= p' && forall k :: 0 <= k < |q| ==> q[k] == p'[|p|])
  }

  /** When replacing `p` by `p'`, at most one longer, in the middle of a list only extends the list. */
  lemma ReplacedMiddle<T>(a: seq<T>, p: seq<T>, p': seq<T>, q: seq<T>)
    requires |p'| <= |p| + 1
    ensures a + p + q <= a + p' + q <==> OnlyAdds(p, p', q)
  {
    PrefixBehind(a, p + q, p' + q);
    assert a + (p + q) == a + p + q && a + (p' + q) == a + p' + q;
    if |p'| < |p| {
      assert |p + q| > |p' + q|;
    } else if |p'| == |p| {
      if p + q <= p' + q {
        assert p == (p + q)[..|p|] && p' == (p' + q)[..|p|];
      }
    } else {
      OneLonger(p, p', q);
    }
  }

  lemma PrefixBehind<T>(a: seq<T>, x: seq<T>, y: seq<T>)
    ensures a + x <= a + y <==> x <= y
  {
    if a + x <= a + y {
      assert x == (a + x)[|a|..] && y == (a + y)[|a|..];
      forall k | 0 <= k < |x|
        ensures x[k] == y[k]
      {
        assert (a + x)[|a| + k] == (a + y)[|a| + k];
      }
    }
  }

  lemma OneLonger<T>(p: seq<T>, p': seq<T>, q: seq<T>)
    requires |p'| == |p| + 1
    ensures p + q <= p' + q <==> p <= p' && forall k :: 0 <= k < |q| ==> q[k] == p'[|p|]
  {
    var y := p'[|p|];
    assert p' == p'[..|p|] + [y];
    if p + q <= p' + q {
      assert p == (p + q)[..|p|] && p'[..|p|] == (p' + q)[..|p|];
      assert p <= p';
    }
    if p <= p' {
      assert p'[..|p|] == p;
      assert p' + q == p + ([y] + q);
      PrefixBehind(p, q, [y] + q);
      ShiftedPrefix(y, q);
    }
  }

  /**
    Exactly when an appended part leaves the earlier projection a prefix of the new one: its message is
    superseded; or what its message projects to stays the same; or it projects to one message more, and
    everything projected behind it repeats that message, as it does when nothing is.
   */
  lemma AppendedPartExtendsIff<Id>(parse: string -> Option<Id>, msgs: Log<Id>, table: PartTable<Id>, caps: Caps,
                                   request: Option<string>,
                                   i: nat, x: Part)
    requires DistinctIds(msgs) && i < |msgs| && Neutral(parse, msgs, table, i, x)
    ensures var ls, parts := Listings(parse, msgs, table), PartsOf(table, msgs[i].id);
            var p := ProjectMessage(msgs[i].role, parts, caps, request);
            var p' := ProjectMessage(msgs[i].role, parts + [x], caps, request);
            var q := Behind(msgs, table, caps, request, ls, i, |msgs|);
            var before := Project(parse, msgs, table, caps, request);
            var after := Project(parse, msgs, Grown(table, msgs[i].id, x), caps, request);
            before <= after <==> OwnerIn(ls, msgs[i].id).Some? || OnlyAdds(p, p', q)
  {
    hide Listings, OwnerIn, ProjectMessage, PiecesTo, Behind, DistinctIds, Neutral;
    var parts, table' := PartsOf(table, msgs[i].id), Grown(table, msgs[i].id, x);
    var ls, ls' := Listings(parse, msgs, table), Listings(parse, msgs, table');
    PiecesCut(msgs, table, caps, request, ls, i, |msgs|);
    PiecesCut(msgs, table', caps, request, ls', i, |msgs|);
    SameAround(parse, msgs, table, caps, request, i, x, i);
    SameAround(parse, msgs, table, caps, request, i, x, |msgs|);
    if OwnerIn(ls, msgs[i].id).Some? {
      OtherPiecesStay(parse, msgs, table, caps, request, i, x, i);
    } else {
      OwnPiece(parse, msgs, table, caps, request, i, x);
      AtMostOneMore(msgs[i].role, parts, x, caps, request);
      ReplacedMiddle(PiecesTo(msgs, table, caps, request, ls, i), ProjectMessage(msgs[i].role, parts, caps, request),
                     ProjectMessage(msgs[i].role, parts + [x], caps, request),
                     Behind(msgs, table, caps, request, ls, i, |msgs|));
    }
  }

  lemma OwnPiece<Id>(parse: string -> Option<Id>, msgs: Log<Id>, table: PartTable<Id>, caps: Caps,
                     request: Option<string>, i: nat, x: Part)
    requires i < |msgs| && Neutral(parse, msgs, table, i, x) && OwnerIn(Listings(parse, msgs, table), msgs[i].id).None?
    ensures var table' := Grown(table, msgs[i].id, x);
            && Piece(msgs, table, caps, request, Listings(parse, msgs, table), i)
               == ProjectMessage(msgs[i].role, PartsOf(table, msgs[i].id), caps, request)
            && Piece(msgs, table', caps, request, Listings(parse, msgs, table'), i)
               == ProjectMessage(msgs[i].role, PartsOf(table, msgs[i].id) + [x], caps, request)
  {
    hide Listings, OwnerIn, ProjectMessage;
  }

  /** The same for any part that is no compaction, with nothing assumed of the log but distinct ids. */
  lemma PlainPartExtendsIff<Id>(parse: string -> Option<Id>, msgs: Log<Id>, table: PartTable<Id>, caps: Caps,
                                request: Option<string>,
                                i: nat, x: Part)
    requires DistinctIds(msgs) && i < |msgs| && !x.Compaction?
    ensures var ls, parts := Listings(parse, msgs, table), PartsOf(table, msgs[i].id);
            var p := ProjectMessage(msgs[i].role, parts, caps, request);
            var p' := ProjectMessage(msgs[i].role, parts + [x], caps, request);
            var q := Behind(msgs, table, caps, request, ls, i, |msgs|);
            var before := Project(parse, msgs, table, caps, request);
            var after := Project(parse, msgs, Grown(table, msgs[i].id, x), caps, request);
            before <= after <==> OwnerIn(ls, msgs[i].id).Some? || OnlyAdds(p, p', q)
  {
    hide *;
    PlainPartIsNeutral(parse, msgs, table, i, x);
    AppendedPartExtendsIff(parse, msgs, table, caps, request, i, x);
  }

  // ----- appending a compaction part that takes messages over ---------------------------------

  /** Entry `k` keeps its owner, which is not the message that grew. */
  ghost predicate KeepsOwner<Id>(parse: string -> Option<Id>, msgs: Log<Id>, table: PartTable<Id>, i: nat, x: Part,
                                 k: nat)
    requires i < |msgs| && k < |msgs|
  {
    var before := OwnerIn(Listings(parse, msgs, table), msgs[k].id);
    OwnerIn(Listings(parse, msgs, Grown(table, msgs[i].id, x)), msgs[k].id) == before && before != Some(msgs[i].id)
  }

  /** An entry that does not keep its owner is owned by the message that grew. */
  lemma KeepsOwnerOrTaken<Id>(parse: string -> Option<Id>, msgs: Log<Id>, table: PartTable<Id>, i: nat, x: Part, k: nat)
    requires DistinctIds(msgs) && i < |msgs| && k < |msgs|
    ensures KeepsOwner(parse, msgs, table, i, x, k)
         || OwnerIn(Listings(parse, msgs, Grown(table, msgs[i].id, x)), msgs[k].id) == Some(msgs[i].id)
  {
    hide Listings, OwnerIn, Grown, NewListings;
    AppendedPartOwnersIff(parse, msgs, table, i, x, msgs[k].id);
  }

  /** The message that grew contributes what it did. */
  ghost predicate OwnStays<Id>(parse: string -> Option<Id>, msgs: Log<Id>, table: PartTable<Id>, caps: Caps,
                               request: Option<string>, i: nat, x: Part)
    requires i < |msgs|
  {
    var role, parts := msgs[i].role, PartsOf(table, msgs[i].id);
    || OwnerIn(Listings(parse, msgs, table), msgs[i].id).Some?
    || ProjectMessage(role, parts + [x], caps, request) == ProjectMessage(role, parts, caps, request)
  }

  lemma EarlierPieceStays<Id>(parse: string -> Option<Id>, msgs: Log<Id>, table: PartTable<Id>, caps: Caps,
                              request: Option<string>, i: nat, x: Part, k: nat)
    requires DistinctIds(msgs) && i < |msgs| && k < |msgs|
    requires k == i ==> OwnStays(parse, msgs, table, caps, request, i, x)
    requires forall j: nat :: j <= k ==> KeepsOwner(parse, msgs, table, i, x, j)
    ensures var table' := Grown(table, msgs[i].id, x);
            var ls, ls' := Listings(parse, msgs, table), Listings(parse, msgs, table');
            Piece(msgs, table', caps, request, ls', k) == Piece(msgs, table, caps, request, ls, k)
  {
    hide Listings, OwnerIn, ProjectMessage, SummaryMessage;
    var table' := Grown(table, msgs[i].id, x);
    var ls, ls' := Listings(parse, msgs, table), Listings(parse, msgs, table');
    forall j: nat | j <= k
      ensures OwnerIn(ls', msgs[j].id) == OwnerIn(ls, msgs[j].id)
    {
      assert KeepsOwner(parse, msgs, table, i, x, j);
    }
    assert IsFirstOf(msgs, ls', k) <==> IsFirstOf(msgs, ls, k);
    assert KeepsOwner(parse, msgs, table, i, x, k);
    if OwnerIn(ls, msgs[k].id).Some? {
      SummaryStays(table, msgs[i].id, x, OwnerIn(ls, msgs[k].id).value);
    } else if k != i {
      assert msgs[k].id != msgs[i].id;
    }
  }

  lemma {:induction false} EarlierPiecesStay<Id>(parse: string -> Option<Id>, msgs: Log<Id>, table: PartTable<Id>,
                                                 caps: Caps,
                                                 request: Option<string>, i: nat, x: Part, n: nat)
    requires DistinctIds(msgs) && i < |msgs| && n <= |msgs|
    requires i < n ==> OwnStays(parse, msgs, table, caps, request, i, x)
    requires forall j: nat :: j < n ==> KeepsOwner(parse, msgs, table, i, x, j)
    ensures var table' := Grown(table, msgs[i].id, x);
            var ls, ls' := Listings(parse, msgs, table), Listings(parse, msgs, table');
            PiecesTo(msgs, table', caps, request, ls', n) == PiecesTo(msgs, table, caps, request, ls, n)
  {
    hide Listings, Piece, KeepsOwner, DistinctIds, OwnStays;
    if n > 0 {
      EarlierPiecesStay(parse, msgs, table, caps, request, i, x, n - 1);
      EarlierPieceStays(parse, msgs, table, caps, request, i, x, n - 1);
    }
  }

  /** The first entry that the grown message owns now shows the part's summary. */
  lemma TakenOverPiece<Id>(parse: string -> Option<Id>, msgs: Log<Id>, table: PartTable<Id>, caps: Caps,
                           request: Option<string>, i: nat, x: Part, n: nat)
    requires x.Compaction? && i < |msgs| && n < |msgs|
    requires forall j: nat :: j < n ==> KeepsOwner(parse, msgs, table, i, x, j)
    requires OwnerIn(Listings(parse, msgs, Grown(table, msgs[i].id, x)), msgs[n].id) == Some(msgs[i].id)
    ensures var table' := Grown(table, msgs[i].id, x);
            Piece(msgs, table', caps, request, Listings(parse, msgs, table'), n) == [SummaryMessage(x.summary)]
  {
    hide Listings, OwnerIn, ProjectMessage, SummaryMessage;
    var table' := Grown(table, msgs[i].id, x);
    var ls' := Listings(parse, msgs, table');
    forall j: nat | j < n
      ensures OwnerIn(ls', msgs[j].id) != Some(msgs[i].id)
    {
      assert KeepsOwner(parse, msgs, table, i, x, j);
    }
    assert IsFirstOf(msgs, ls', n);
    assert SummaryIn(PartsOf(table, msgs[i].id) + [x]) == Some(x.summary);
  }

  /**
    A compaction part whose first effect is to take entry `n` over, before or behind its own message: what
    was projected before that entry stays, the part's summary follows, and the rest of the earlier projection
    survives only if there was none or if it began with that very summary.
   */
  lemma TakingOverRewrites<Id>(parse: string -> Option<Id>, msgs: Log<Id>, table: PartTable<Id>, caps: Caps,
                               request: Option<string>, i: nat, x: Part, n: nat)
    requires DistinctIds(msgs) && x.Compaction? && i < |msgs| && n < |msgs|
    requires i < n ==> OwnStays(parse, msgs, table, caps, request, i, x)
    requires forall j: nat :: j < n ==> KeepsOwner(parse, msgs, table, i, x, j)
    requires OwnerIn(Listings(parse, msgs, Grown(table, msgs[i].id, x)), msgs[n].id) == Some(msgs[i].id)
    ensures var kept := PiecesTo(msgs, table, caps, request, Listings(parse, msgs, table), n);
            var before := Project(parse, msgs, table, caps, request);
            var after := Project(parse, msgs, Grown(table, msgs[i].id, x), caps, request);
            && kept <= before && kept + [SummaryMessage(x.summary)] <= after
            && (before == kept ==> before <= after)
            && (before <= after ==> before == kept || before[|kept|] == SummaryMessage(x.summary))
  {
    var table' := Grown(table, msgs[i].id, x);
    var ls, ls' := Listings(parse, msgs, table), Listings(parse, msgs, table');
    hide Listings, OwnerIn, Piece, PiecesTo, Behind, DistinctIds, KeepsOwner, OwnStays, SummaryMessage;
    PiecesCut(msgs, table, caps, request, ls, n, |msgs|);
    PiecesCut(msgs, table', caps, request, ls', n, |msgs|);
    EarlierPiecesStay(parse, msgs, table, caps, request, i, x, n);
    TakenOverPiece(parse, msgs, table, caps, request, i, x, n);
    hide *;
    Diverges(PiecesTo(msgs, table, caps, request, ls, n), Piece(msgs, table, caps, request, ls, n),
             Behind(msgs, table, caps, request, ls, n, |msgs|), SummaryMessage(x.summary),
             Behind(msgs, table', caps, request, ls', n, |msgs|));
  }

  lemma Diverges<T>(kept: seq<T>, o: seq<T>, r: seq<T>, y: T, r': seq<T>)
    ensures var before, after := kept + o + r, kept + [y] + r';
            && kept <= before && kept + [y] <= after
            && (before == kept ==> before <= after)
            && (before <= after ==> before == kept || before[|kept|] == y)
  {
    var before, after := kept + o + r, kept + [y] + r';
    assert after[|kept|] == y;
    assert |before| == |kept| ==> before == kept;
  }

  // ----- a compaction part on a message that had text -----------------------------------------

  /** A compaction part makes no message project to more; only an assistant's text goes. */
  lemma CompactionPartShrinks(role: Role, parts: seq<Part>, x: Part, caps: Caps, request: Option<string>)
    requires x.Compaction?
    ensures var p, p' := ProjectMessage(role, parts, caps, request), ProjectMessage(role, parts + [x], caps, request);
            && |p'| <= |p|
            && (p' != p ==> role.Assistant? && |p| == 1 && p[0].content != "")
            && (p' != p ==> forall m :: m in p' ==> m.content == "")
  {
    hide Lines, UserContent, Calls, ProjectTool;
    match role
    case System => LinesSkip(parts, x, TextLine);
    case User => UserStays(parts, x, caps, request);
    case Assistant => AssistantShrinks(parts, x, caps);
    case Tool => ToolStays(parts, x);
  }

  lemma UserStays(parts: seq<Part>, x: Part, caps: Caps, request: Option<string>)
    requires x.Compaction?
    ensures ProjectUser(parts + [x], caps, request) == ProjectUser(parts, caps, request)
  {
    LinesSkip(parts, x, TextLine);
    LinesSkip(parts, x, AttachmentLine(caps));
    LinesSkip(parts, x, ReminderLine);
    SameFlags(parts, x);
    hide Lines, EscapeDelimiters, JoinNonEmpty, AppendLine;
    assert UserContent(parts + [x], caps, request) == UserContent(parts, caps, request);
  }

  lemma AssistantShrinks(parts: seq<Part>, x: Part, caps: Caps)
    requires x.Compaction?
    ensures var p, p' := ProjectAssistant(parts, caps), ProjectAssistant(parts + [x], caps);
            && |p'| <= |p|
            && (p' != p ==> |p| == 1 && p[0].content != "")
            && (p' != p ==> forall m :: m in p' ==> m.content == "")
  {
    LinesSkip(parts, x, ReasoningLine(caps));
    SameFlags(parts, x);
    assert Calls(parts + [x]) == Calls(parts) by { assert (parts + [x])[..|parts|] == parts; }
    hide Lines, Calls;
  }

  lemma ToolStays(parts: seq<Part>, x: Part)
    requires x.Compaction?
    ensures ProjectTool(parts + [x]) == ProjectTool(parts)
  {
    assert (parts + [x])[..|parts|] == parts;
  }

  lemma LinesSkip(parts: seq<Part>, x: Part, line: Part -> Option<string>)
    requires line(x).None?
    ensures Lines(parts + [x], line) == Lines(parts, line)
  {
    assert (parts + [x])[..|parts|] == parts;
  }

  lemma SameFlags(parts: seq<Part>, x: Part)
    requires x.Compaction?
    ensures var all := parts + [x];
            && ((exists i :: 0 <= i < |all| && all[i].Image?) <==> exists i :: 0 <= i < |parts| && parts[i].Image?)
            && ((exists i :: 0 <= i < |all| && IsPendingRequest(all[i]))
                <==> exists i :: 0 <= i < |parts| && IsPendingRequest(parts[i]))
            && (exists i :: 0 <= i < |all| && all[i].Compaction?)
  {
    var all := parts + [x];
    assert forall i :: 0 <= i < |parts| ==> all[i] == parts[i];
    assert all[|parts|] == x;
  }

  /**
    A compaction part whose first effect is on its own message: an effective assistant message loses its
    text, and the earlier projection survives only if that leaves it nothing to show and the very message it
    showed comes next.
   */
  lemma OwnTextRewrites<Id>(parse: string -> Option<Id>, msgs: Log<Id>, table: PartTable<Id>, caps: Caps,
                            request: Option<string>, i: nat, x: Part)
    requires DistinctIds(msgs) && x.Compaction? && i < |msgs|
    requires forall j: nat :: j <= i ==> KeepsOwner(parse, msgs, table, i, x, j)
    requires !OwnStays(parse, msgs, table, caps, request, i, x)
    ensures var kept := PiecesTo(msgs, table, caps, request, Listings(parse, msgs, table), i);
            var p' := ProjectMessage(msgs[i].role, PartsOf(table, msgs[i].id) + [x], caps, request);
            var before := Project(parse, msgs, table, caps, request);
            var after := Project(parse, msgs, Grown(table, msgs[i].id, x), caps, request);
            && msgs[i].role.Assistant? && kept <= before && kept <= after
            && |kept| < |before| && before[|kept|].content != ""
            && (before <= after ==> p' == [] && |kept| < |after| && after[|kept|] == before[|kept|])
  {
    var role, parts, table' := msgs[i].role, PartsOf(table, msgs[i].id), Grown(table, msgs[i].id, x);
    var ls, ls' := Listings(parse, msgs, table), Listings(parse, msgs, table');
    var p, p' := ProjectMessage(role, parts, caps, request), ProjectMessage(role, parts + [x], caps, request);
    CompactionPartShrinks(role, parts, x, caps, request);
    OwnPieces(parse, msgs, table, caps, request, i, x);
    hide Listings, OwnerIn, Piece, PiecesTo, Behind, DistinctIds, KeepsOwner, OwnStays, ProjectMessage;
    PiecesCut(msgs, table, caps, request, ls, i, |msgs|);
    PiecesCut(msgs, table', caps, request, ls', i, |msgs|);
    EarlierPiecesStay(parse, msgs, table, caps, request, i, x, i);
    TextGone(PiecesTo(msgs, table, caps, request, ls, i), p, p', Behind(msgs, table, caps, request, ls, i, |msgs|),
             Behind(msgs, table', caps, request, ls', i, |msgs|));
  }

  lemma OwnPieces<Id>(parse: string -> Option<Id>, msgs: Log<Id>, table: PartTable<Id>, caps: Caps,
                      request: Option<string>, i: nat, x: Part)
    requires i < |msgs| && KeepsOwner(parse, msgs, table, i, x, i) && !OwnStays(parse, msgs, table, caps, request, i, x)
    ensures var table', role, parts := Grown(table, msgs[i].id, x), msgs[i].role, PartsOf(table, msgs[i].id);
            var ls, ls' := Listings(parse, msgs, table), Listings(parse, msgs, table');
            && Piece(msgs, table, caps, request, ls, i) == ProjectMessage(role, parts, caps, request)
            && Piece(msgs, table', caps, request, ls', i) == ProjectMessage(role, parts + [x], caps, request)
            && ProjectMessage(role, parts + [x], caps, request) != ProjectMessage(role, parts, caps, request)
  {
    hide Listings, OwnerIn, ProjectMessage;
  }

  lemma TextGone(kept: seq<LlmMessage>, p: seq<LlmMessage>, p': seq<LlmMessage>, r: seq<LlmMessage>,
                 r': seq<LlmMessage>)
    requires |p| == 1 && p[0].content != "" && |p'| <= 1 && forall m :: m in p' ==> m.content == ""
    ensures var before, after := kept + p + r, kept + p' + r';
            && kept <= before && kept <= after && before[|kept|] == p[0]
            && (before <= after ==> p' == [] && |kept| < |after| && after[|kept|] == before[|kept|])
  {
    var before, after := kept + p + r, kept + p' + r';
    assert before[|kept|] == p[0];
    if p' != [] {
      assert after[|kept|] == p'[0];
      assert p'[0] in p';
    }
  }

  /**
    What a compaction part does first: nothing at all to the projection; or it takes entry `n` over, as
    `TakingOverRewrites` has it; or it drops the text of its own message, as `OwnTextRewrites` has it.
   */
  lemma FirstEffect<Id>(parse: string -> Option<Id>, msgs: Log<Id>, table: PartTable<Id>, caps: Caps,
                        request: Option<string>, i: nat, x: Part) returns (n: nat)
    requires DistinctIds(msgs) && x.Compaction? && i < |msgs|
    ensures n <= |msgs| && forall j: nat :: j < n ==> KeepsOwner(parse, msgs, table, i, x, j)
    ensures i < n ==> OwnStays(parse, msgs, table, caps, request, i, x)
    ensures var before := Project(parse, msgs, table, caps, request);
            var after := Project(parse, msgs, Grown(table, msgs[i].id, x), caps, request);
            n == |msgs| ==> after == before
    ensures var ls' := Listings(parse, msgs, Grown(table, msgs[i].id, x));
            var taken := n < |msgs| && OwnerIn(ls', msgs[n].id) == Some(msgs[i].id);
            var stays := OwnStays(parse, msgs, table, caps, request, i, x);
            var own := n == i && KeepsOwner(parse, msgs, table, i, x, i) && !stays;
            n < |msgs| ==> taken || own
  {
    hide DistinctIds, Listings, OwnerIn, KeepsOwner, OwnStays, PiecesTo, Grown;
    n := 0;
    var stays := OwnStays(parse, msgs, table, caps, request, i, x);
    while n < |msgs| && KeepsOwner(parse, msgs, table, i, x, n) && (n != i || stays)
      invariant n <= |msgs| && forall j: nat :: j < n ==> KeepsOwner(parse, msgs, table, i, x, j)
      invariant i < n ==> OwnStays(parse, msgs, table, caps, request, i, x)
      decreases |msgs| - n
    {
      n := n + 1;
    }
    if n == |msgs| {
      EarlierPiecesStay(parse, msgs, table, caps, request, i, x, n);
    } else {
      KeepsOwnerOrTaken(parse, msgs, table, i, x, n);
    }
  }

  // ----- how much a compaction may take -------------------------------------------------------

  /** What the effective ones of the first `n` entries project to, in messages. */
  function OwnTo<Id(==)>(msgs: Log<Id>, table: PartTable<Id>, caps: Caps, request: Option<string>,
                         ls: seq<Listing<Id>>, n: nat): nat
    requires n <= |msgs|
  {
    if n == 0 then 0
    else OwnTo(msgs, table, caps, request, ls, n - 1) + OwnAt(msgs, table, caps, request, ls, n - 1)
  }

  function OwnAt<Id(==)>(msgs: Log<Id>, table: PartTable<Id>, caps: Caps, request: Option<string>,
                         ls: seq<Listing<Id>>, k: nat): nat
    requires k < |msgs|
  {
    if OwnerIn(ls, msgs[k].id).Some? then 0
    else |ProjectMessage(msgs[k].role, PartsOf(table, msgs[k].id), caps, request)|
  }

  /** Who owns any of the first `n` entries. */
  function OwnersTo<Id(==)>(msgs: Log<Id>, ls: seq<Listing<Id>>, n: nat): set<Id>
    requires n <= |msgs|
  {
    if n == 0 then {}
    else
      var o := OwnerIn(ls, msgs[n - 1].id);
      OwnersTo(msgs, ls, n - 1) + if o.Some? then {o.value} else {}
  }

  lemma {:induction false} OwnersAre<Id>(msgs: Log<Id>, ls: seq<Listing<Id>>, n: nat, o: Id)
    requires n <= |msgs|
    ensures o in OwnersTo(msgs, ls, n) <==> exists j :: 0 <= j < n && OwnerIn(ls, msgs[j].id) == Some(o)
  {
    hide OwnerIn;
    if n > 0 { OwnersAre(msgs, ls, n - 1, o); }
  }

  /** A projection is as long as what its effective entries project to and one summary per owner. */
  lemma {:induction false} ProjectionLength<Id>(parse: string -> Option<Id>, msgs: Log<Id>, table: PartTable<Id>,
                                                caps: Caps,
                                                request: Option<string>, n: nat)
    requires n <= |msgs|
    ensures var ls := Listings(parse, msgs, table);
            var own, owners := OwnTo(msgs, table, caps, request, ls, n), OwnersTo(msgs, ls, n);
            |PiecesTo(msgs, table, caps, request, ls, n)| == own + |owners|
  {
    hide Listings, Piece, OwnerIn, OwnAt;
    if n > 0 {
      ProjectionLength(parse, msgs, table, caps, request, n - 1);
      PieceLength(parse, msgs, table, caps, request, n - 1);
    }
  }

  lemma PieceLength<Id>(parse: string -> Option<Id>, msgs: Log<Id>, table: PartTable<Id>, caps: Caps,
                        request: Option<string>, k: nat)
    requires k < |msgs|
    ensures var ls := Listings(parse, msgs, table);
            var own := OwnAt(msgs, table, caps, request, ls, k);
            var owners, owners' := OwnersTo(msgs, ls, k), OwnersTo(msgs, ls, k + 1);
            |Piece(msgs, table, caps, request, ls, k)| == own + |owners'| - |owners|
  {
    hide Listings, ProjectMessage, SummaryMessage;
    var ls := Listings(parse, msgs, table);
    var owner := OwnerIn(ls, msgs[k].id);
    if owner.Some? {
      OwnerInMeans(ls, msgs[k].id);
      OwnerHasSummary(parse, msgs, table, Listing(msgs[k].id, owner.value));
      hide OwnerIn;
      OwnersAre(msgs, ls, k, owner.value);
      var owners := OwnersTo(msgs, ls, k);
      if owner.value in owners { assert owners + {owner.value} == owners; }
    }
  }

  /** What the newly taken of the first `n` entries projected to before. */
  function TakenTo<Id(==)>(msgs: Log<Id>, table: PartTable<Id>, caps: Caps, request: Option<string>,
                           ls: seq<Listing<Id>>, ls': seq<Listing<Id>>, n: nat): nat
    requires n <= |msgs|
  {
    if n == 0 then 0
    else
      TakenTo(msgs, table, caps, request, ls, ls', n - 1)
      + if OwnerIn(ls', msgs[n - 1].id).Some? then OwnAt(msgs, table, caps, request, ls, n - 1) else 0
  }

  lemma {:induction false} OwnShrinks<Id>(parse: string -> Option<Id>, msgs: Log<Id>, table: PartTable<Id>, caps: Caps,
                                          request: Option<string>, i: nat, x: Part, n: nat)
    requires DistinctIds(msgs) && x.Compaction? && i < |msgs| && n <= |msgs|
    ensures var table' := Grown(table, msgs[i].id, x);
            var ls, ls' := Listings(parse, msgs, table), Listings(parse, msgs, table');
            && OwnTo(msgs, table', caps, request, ls', n) + TakenTo(msgs, table, caps, request, ls, ls', n)
               <= OwnTo(msgs, table, caps, request, ls, n)
            && OwnersTo(msgs, ls', n) <= OwnersTo(msgs, ls, n) + {msgs[i].id}
  {
    hide Listings, OwnAt, OwnerIn, DistinctIds, Grown;
    if n > 0 {
      OwnShrinks(parse, msgs, table, caps, request, i, x, n - 1);
      OwnAtShrinks(parse, msgs, table, caps, request, i, x, n - 1);
    }
  }

  lemma OwnAtShrinks<Id>(parse: string -> Option<Id>, msgs: Log<Id>, table: PartTable<Id>, caps: Caps,
                         request: Option<string>, i: nat, x: Part, k: nat)
    requires DistinctIds(msgs) && x.Compaction? && i < |msgs| && k < |msgs|
    ensures var table' := Grown(table, msgs[i].id, x);
            var ls, ls' := Listings(parse, msgs, table), Listings(parse, msgs, table');
            var before, after := OwnerIn(ls, msgs[k].id), OwnerIn(ls', msgs[k].id);
            && (after == before || after == Some(msgs[i].id))
            && (after.Some? ==> OwnAt(msgs, table', caps, request, ls', k) == 0)
            && OwnAt(msgs, table', caps, request, ls', k) <= OwnAt(msgs, table, caps, request, ls, k)
  {
    hide Listings, ProjectMessage, NewListings, OwnerIn;
    AppendedPartOwnersIff(parse, msgs, table, i, x, msgs[k].id);
    if k == i {
      CompactionPartShrinks(msgs[i].role, PartsOf(table, msgs[i].id), x, caps, request);
    } else {
      assert msgs[k].id != msgs[i].id;
    }
  }

  /**
    A compaction part never lengthens the projection by more than its summary, less all that the messages it
    takes over projected to.  So it rewrites the prefix whenever those come to two messages or more.
   */
  lemma TakingTwoRewrites<Id>(parse: string -> Option<Id>, msgs: Log<Id>, table: PartTable<Id>, caps: Caps,
                              request: Option<string>, i: nat, x: Part)
    requires DistinctIds(msgs) && x.Compaction? && i < |msgs|
    ensures var table' := Grown(table, msgs[i].id, x);
            var ls, ls' := Listings(parse, msgs, table), Listings(parse, msgs, table');
            var taken := TakenTo(msgs, table, caps, request, ls, ls', |msgs|);
            var before := Project(parse, msgs, table, caps, request);
            var after := Project(parse, msgs, table', caps, request);
            && |after| + taken <= |before| + 1
            && (taken >= 2 ==> !(before <= after))
  {
    var table' := Grown(table, msgs[i].id, x);
    var ls, ls' := Listings(parse, msgs, table), Listings(parse, msgs, table');
    hide Listings, PiecesTo, OwnTo, OwnersTo, TakenTo, DistinctIds, Grown;
    ProjectionLength(parse, msgs, table, caps, request, |msgs|);
    ProjectionLength(parse, msgs, table', caps, request, |msgs|);
    OwnShrinks(parse, msgs, table, caps, request, i, x, |msgs|);
    OneMore(OwnersTo(msgs, ls, |msgs|), OwnersTo(msgs, ls', |msgs|), msgs[i].id);
  }

  lemma OneMore<T>(s: set<T>, s': set<T>, x: T)
    requires s' <= s + {x}
    ensures |s'| <= |s| + 1
  {
    SubsetSize(s', s + {x});
    if x in s { assert s + {x} == s; }
  }

  lemma {:induction false} SubsetSize<T>(a: set<T>, b: set<T>)
    requires a <= b
    ensures |a| <= |b|
  {
    if x :| x in a {
      SubsetSize(a - {x}, b - {x});
    }
  }
}
