/**
  Projection of a session log to the messages the model sees, with compaction: a message superseded by
  a summary disappears, and the summary stands where the first of its messages stood.
 */
module Projection {
  import opened Common
  import opened Transcript
  import opened UserProjection

  /** `Id` is the message id type; `parse` in the functions below is `Uuid::parse_str`. */
  datatype Message<Id> = Message(id: Id, role: Role)

  datatype LlmCall = LlmCall(id: string, name: string, argsJson: string)
  datatype LlmMessage = LlmMessage(role: Role, content: string, reasoning: Option<string>, calls: seq<LlmCall>,
                                   callId: Option<string>)

  type Log<Id> = seq<Message<Id>>
  type PartTable<Id> = map<Id, seq<Part>>

  function PartsOf<Id>(table: PartTable<Id>, id: Id): seq<Part> { if id in table then table[id] else [] }

  function Simple(role: Role, content: string): LlmMessage { LlmMessage(role, content, None, [], None) }

  // ----- one effective message ----------------------------------------------------------------

  function ProjectSystem(parts: seq<Part>): seq<LlmMessage>
  {
    var content := Lines(parts, TextLine);
    if content == "" then [] else [Simple(System, content)]
  }

  function ProjectUser(parts: seq<Part>, caps: Caps, request: Option<string>): seq<LlmMessage>
  {
    var content := UserContent(parts, caps, request);
    if content == "" && !(exists i :: 0 <= i < |parts| && parts[i].Image?) then [] else [Simple(User, content)]
  }

  function Calls(parts: seq<Part>): seq<LlmCall>
  {
    if parts == [] then []
    else
      var front := Calls(parts[..|parts| - 1]);
      match parts[|parts| - 1]
      case ToolCall(id, name, args) => front + [LlmCall(id, name, args)]
      case _ => front
  }

  function ReasoningLine(caps: Caps): Part -> Option<string>
  {
    (p: Part) => if caps.reasoningReplay && p.Reasoning? then Some(p.text) else None
  }

  /** The text of a compaction summary message is metadata: only its calls and reasoning project. */
  function ProjectAssistant(parts: seq<Part>, caps: Caps): seq<LlmMessage>
  {
    var isSummary := exists i :: 0 <= i < |parts| && parts[i].Compaction?;
    var content := if isSummary then "" else Lines(parts, TextLine);
    var reasoning := Lines(parts, ReasoningLine(caps));
    var calls := Calls(parts);
    if content == "" && reasoning == "" && calls == [] then []
    else [LlmMessage(Assistant, content, if reasoning == "" then None else Some(reasoning), calls, None)]
  }

  function ProjectTool(parts: seq<Part>): seq<LlmMessage>
  {
    if parts == [] then []
    else
      var front := ProjectTool(parts[..|parts| - 1]);
      match parts[|parts| - 1]
      case ToolResult(id, ok, output, error) =>
        var body :=
          if ok then (if output.Some? then output.value else "")
          else if error.Some? then error.value
          else "tool error";
        front + [LlmMessage(Tool, body, None, [], Some(id))]
      case _ => front
  }

  function ProjectMessage(role: Role, parts: seq<Part>, caps: Caps, request: Option<string>): seq<LlmMessage>
  {
    match role
    case System => ProjectSystem(parts)
    case User => ProjectUser(parts, caps, request)
    case Assistant => ProjectAssistant(parts, caps)
    case Tool => ProjectTool(parts)
  }

  // ----- who supersedes whom ------------------------------------------------------------------

  /** One line of the compaction record: `owner` lists `id`. */
  datatype Listing<Id> = Listing(id: Id, owner: Id)

  function ParsedIds<Id>(parse: string -> Option<Id>, raws: seq<string>, owner: Id): seq<Listing<Id>>
  {
    if raws == [] then []
    else
      var front := ParsedIds(parse, raws[..|raws| - 1], owner);
      var last := parse(raws[|raws| - 1]);
      if last.Some? then front + [Listing(last.value, owner)] else front
  }

  /** The listings of one message's parts, in order. */
  function PartListings<Id>(parse: string -> Option<Id>, parts: seq<Part>, owner: Id): seq<Listing<Id>>
  {
    if parts == [] then []
    else
      var front := PartListings(parse, parts[..|parts| - 1], owner);
      match parts[|parts| - 1]
      case Compaction(_, raws) => front + ParsedIds(parse, raws, owner)
      case _ => front
  }

  /** Every listing of the log, in walk order. */
  function Listings<Id>(parse: string -> Option<Id>, msgs: Log<Id>, table: PartTable<Id>): seq<Listing<Id>>
  {
    if msgs == [] then []
    else
      var m := msgs[|msgs| - 1];
      Listings(parse, msgs[..|msgs| - 1], table) + PartListings(parse, PartsOf(table, m.id), m.id)
  }

  /** The owner of `id`: the last message of the log to list it. */
  function OwnerIn<Id(==)>(ls: seq<Listing<Id>>, id: Id): Option<Id>
  {
    if ls == [] then None
    else if ls[|ls| - 1].id == id then Some(ls[|ls| - 1].owner)
    else OwnerIn(ls[..|ls| - 1], id)
  }

  /** A message's summary: that of its last compaction part. */
  function SummaryIn(parts: seq<Part>): Option<string>
  {
    if parts == [] then None
    else if parts[|parts| - 1].Compaction? then Some(parts[|parts| - 1].summary)
    else SummaryIn(parts[..|parts| - 1])
  }

  lemma {:induction false} OwnerInAppend<Id>(xs: seq<Listing<Id>>, ys: seq<Listing<Id>>, id: Id)
    ensures OwnerIn(xs + ys, id) == if OwnerIn(ys, id).Some? then OwnerIn(ys, id) else OwnerIn(xs, id)
    decreases |ys|
  {
    if ys == [] {
      assert xs + ys == xs;
    } else {
      var zs := xs + ys;
      assert zs[..|zs| - 1] == xs + ys[..|ys| - 1];
      OwnerInAppend(xs, ys[..|ys| - 1], id);
    }
  }

  /** An owner is a listing's owner, and an id without owner is listed nowhere. */
  lemma {:induction false} OwnerInMeans<Id>(ls: seq<Listing<Id>>, id: Id)
    ensures OwnerIn(ls, id).Some? ==> Listing(id, OwnerIn(ls, id).value) in ls
    ensures OwnerIn(ls, id).None? ==> forall l :: l in ls ==> l.id != id
  {
    if ls != [] {
      OwnerInMeans(ls[..|ls| - 1], id);
      assert ls == ls[..|ls| - 1] + [ls[|ls| - 1]];
    }
  }

  // ----- the projection -----------------------------------------------------------------------

  const BANNER := "[Compacted conversation summary]\n"

  function SummaryMessage(summary: string): LlmMessage { Simple(System, BANNER + summary) }

  /** `collect_compactions` as a relation between the log and the two maps it fills. */
  ghost predicate CollectsTo<Id(!new)>(ls: seq<Listing<Id>>, superseded: map<Id, Id>)
  {
    && (forall id :: id in superseded <==> OwnerIn(ls, id).Some?)
    && (forall id :: id in superseded ==> OwnerIn(ls, id) == Some(superseded[id]))
  }

  /** The messages that entry `i` of the log contributes. */
  function Piece<Id(==)>(msgs: Log<Id>, table: PartTable<Id>, caps: Caps, request: Option<string>,
                         ls: seq<Listing<Id>>, i: nat): seq<LlmMessage>
    requires i < |msgs|
  {
    var owner := OwnerIn(ls, msgs[i].id);
    if owner.None? then ProjectMessage(msgs[i].role, PartsOf(table, msgs[i].id), caps, request)
    else if IsFirstOf(msgs, ls, i) then
      var summary := SummaryIn(PartsOf(table, owner.value));
      if summary.Some? then [SummaryMessage(summary.value)] else []
    else []
  }

  /** Entry `i` is superseded, and no earlier entry is superseded by the same owner. */
  predicate IsFirstOf<Id(==)>(msgs: Log<Id>, ls: seq<Listing<Id>>, i: nat)
    requires i < |msgs|
  {
    var owner := OwnerIn(ls, msgs[i].id);
    owner.Some? && forall j :: 0 <= j < i ==> OwnerIn(ls, msgs[j].id) != owner
  }

  /** The projection: every entry's contribution, in log order. */
  function PiecesTo<Id(==)>(msgs: Log<Id>, table: PartTable<Id>, caps: Caps, request: Option<string>,
                            ls: seq<Listing<Id>>, n: nat): seq<LlmMessage>
    requires n <= |msgs|
  {
    if n == 0 then []
    else PiecesTo(msgs, table, caps, request, ls, n - 1) + Piece(msgs, table, caps, request, ls, n - 1)
  }

  function Project<Id(==)>(parse: string -> Option<Id>, msgs: Log<Id>, table: PartTable<Id>, caps: Caps,
                           request: Option<string>): seq<LlmMessage>
  {
    PiecesTo(msgs, table, caps, request, Listings(parse, msgs, table), |msgs|)
  }

  // ----- the loops ----------------------------------------------------------------------------

  /** The walk of `collect_compactions` over one message. */
  method CollectFrom<Id(==,!new)>(parse: string -> Option<Id>, parts: seq<Part>, owner: Id,
                                  superseded0: map<Id, Id>, summaries0: map<Id, string>, ghost ls: seq<Listing<Id>>)
      returns (superseded: map<Id, Id>, summaries: map<Id, string>)
    requires CollectsTo(ls, superseded0)
    ensures CollectsTo(ls + PartListings(parse, parts, owner), superseded)
    ensures summaries == if SummaryIn(parts).Some? then summaries0[owner := SummaryIn(parts).value] else summaries0
  {
    superseded, summaries := superseded0, summaries0;
    assert ls + [] == ls;
    for i := 0 to |parts|
      invariant CollectsTo(ls + PartListings(parse, parts[..i], owner), superseded)
      invariant summaries
           == if SummaryIn(parts[..i]).Some? then summaries0[owner := SummaryIn(parts[..i]).value] else summaries0
    {
      assert parts[..i + 1][..i] == parts[..i];
      if parts[i].Compaction? {
        summaries := summaries[owner := parts[i].summary];
        ghost var before := ls + PartListings(parse, parts[..i], owner);
        superseded := CollectIds(parse, parts[i].compactedIds, owner, superseded, before);
        assert before + ParsedIds(parse, parts[i].compactedIds, owner)
            == ls + PartListings(parse, parts[..i + 1], owner);
      }
    }
    assert parts[..|parts|] == parts;
  }

  method CollectIds<Id(==,!new)>(parse: string -> Option<Id>, raws: seq<string>, owner: Id, superseded0: map<Id, Id>,
                                 ghost ls: seq<Listing<Id>>)
      returns (superseded: map<Id, Id>)
    requires CollectsTo(ls, superseded0)
    ensures CollectsTo(ls + ParsedIds(parse, raws, owner), superseded)
  {
    superseded := superseded0;
    assert ls + [] == ls;
    for i := 0 to |raws|
      invariant CollectsTo(ls + ParsedIds(parse, raws[..i], owner), superseded)
    {
      assert raws[..i + 1][..i] == raws[..i];
      var id := parse(raws[i]);
      if id.Some? {
        ghost var before := ls + ParsedIds(parse, raws[..i], owner);
        InsertCollects(before, superseded, id.value, owner);
        assert before + [Listing(id.value, owner)] == ls + ParsedIds(parse, raws[..i + 1], owner);
        superseded := superseded[id.value := owner];
      }
    }
    assert raws[..|raws|] == raws;
  }

  /** A map insert is a listing appended: the last one wins. */
  lemma InsertCollects<Id(!new)>(ls: seq<Listing<Id>>, superseded: map<Id, Id>, id: Id, owner: Id)
    requires CollectsTo(ls, superseded)
    ensures CollectsTo(ls + [Listing(id, owner)], superseded[id := owner])
  {
    assert (ls + [Listing(id, owner)])[..|ls|] == ls;
  }

  /** What the summary map holds: the summaries of the log's compaction messages and nothing else. */
  ghost predicate Summarizes<Id(!new)>(msgs: Log<Id>, table: PartTable<Id>, summaries: map<Id, string>)
  {
    && (forall id :: id in summaries ==> SummaryIn(PartsOf(table, id)) == Some(summaries[id]))
    && (forall i :: 0 <= i < |msgs| ==> (SummaryIn(PartsOf(table, msgs[i].id)).Some? ==> msgs[i].id in summaries))
  }

  lemma ListingsSnoc<Id>(parse: string -> Option<Id>, msgs: Log<Id>, table: PartTable<Id>, i: nat)
    requires i < |msgs|
    ensures Listings(parse, msgs[..i + 1], table)
         == Listings(parse, msgs[..i], table) + PartListings(parse, PartsOf(table, msgs[i].id), msgs[i].id)
    ensures msgs[i].id !in table ==> Listings(parse, msgs[..i + 1], table) == Listings(parse, msgs[..i], table)
  {
    assert msgs[..i + 1][..i] == msgs[..i];
    assert Listings(parse, msgs[..i], table) + [] == Listings(parse, msgs[..i], table);
  }

  lemma SummarizesSnoc<Id(!new)>(msgs: Log<Id>, table: PartTable<Id>, i: nat, summaries: map<Id, string>,
                                 summaries': map<Id, string>)
    requires i < |msgs| && Summarizes(msgs[..i], table, summaries)
    requires var s := SummaryIn(PartsOf(table, msgs[i].id));
             summaries' == if s.Some? then summaries[msgs[i].id := s.value] else summaries
    ensures Summarizes(msgs[..i + 1], table, summaries')
  {
    hide SummaryIn, PartsOf;
    assert forall j :: 0 <= j < i ==> msgs[..i + 1][j] == msgs[..i][j];
  }

  method CollectCompactions<Id(==,!new)>(parse: string -> Option<Id>, msgs: Log<Id>, table: PartTable<Id>)
      returns (superseded: map<Id, Id>, summaries: map<Id, string>)
    ensures CollectsTo(Listings(parse, msgs, table), superseded)
    ensures Summarizes(msgs, table, summaries)
  {
    superseded, summaries := map[], map[];
    hide Listings, PartListings, CollectsTo, Summarizes;
    EmptyCollects(parse, table);
    for i := 0 to |msgs|
      invariant CollectsTo(Listings(parse, msgs[..i], table), superseded)
      invariant Summarizes(msgs[..i], table, summaries)
    {
      var m := msgs[i];
      ListingsSnoc(parse, msgs, table, i);
      ghost var before := summaries;
      if m.id in table {
        ghost var ls := Listings(parse, msgs[..i], table);
        superseded, summaries := CollectFrom(parse, table[m.id], m.id, superseded, summaries, ls);
      }
      SummarizesSnoc(msgs, table, i, before, summaries);
    }
    assert msgs[..|msgs|] == msgs;
  }

  lemma EmptyCollects<Id(!new)>(parse: string -> Option<Id>, table: PartTable<Id>)
    ensures CollectsTo(Listings(parse, [], table), map[]) && Summarizes([], table, map[])
  {
  }

  /** An owner always has a summary: the part that lists an id carries one. */
  lemma {:induction false} ListerHasSummary<Id>(parse: string -> Option<Id>, parts: seq<Part>, owner: Id)
    ensures PartListings(parse, parts, owner) != [] ==> SummaryIn(parts).Some?
    ensures forall l :: l in PartListings(parse, parts, owner) ==> l.owner == owner
  {
    if parts != [] {
      ListerHasSummary(parse, parts[..|parts| - 1], owner);
      if parts[|parts| - 1].Compaction? { ParsedIdsOwner(parse, parts[|parts| - 1].compactedIds, owner); }
    }
  }

  lemma {:induction false} ParsedIdsOwner<Id>(parse: string -> Option<Id>, raws: seq<string>, owner: Id)
    ensures forall l :: l in ParsedIds(parse, raws, owner) ==> l.owner == owner
  {
    if raws != [] { ParsedIdsOwner(parse, raws[..|raws| - 1], owner); }
  }

  lemma {:induction false} OwnerHasSummary<Id>(parse: string -> Option<Id>, msgs: Log<Id>, table: PartTable<Id>,
                                               l: Listing<Id>)
    requires l in Listings(parse, msgs, table)
    ensures SummaryIn(PartsOf(table, l.owner)).Some?
    ensures exists i :: 0 <= i < |msgs| && msgs[i].id == l.owner
  {
    var front, m := msgs[..|msgs| - 1], msgs[|msgs| - 1];
    if l in Listings(parse, front, table) {
      OwnerHasSummary(parse, front, table, l);
      var i :| 0 <= i < |front| && front[i].id == l.owner;
      assert msgs[i].id == l.owner;
    } else {
      assert l in PartListings(parse, PartsOf(table, m.id), m.id);
      ListerHasSummary(parse, PartsOf(table, m.id), m.id);
      assert msgs[|msgs| - 1].id == l.owner;
    }
  }

  /** `o` already superseded one of the first `n` entries. */
  ghost predicate Seen<Id>(msgs: Log<Id>, ls: seq<Listing<Id>>, n: nat, o: Id)
    requires n <= |msgs|
  {
    exists j :: 0 <= j < n && OwnerIn(ls, msgs[j].id) == Some(o)
  }

  lemma SeenSnoc<Id>(msgs: Log<Id>, ls: seq<Listing<Id>>, n: nat, o: Id)
    requires n < |msgs|
    ensures Seen(msgs, ls, n + 1, o) <==> Seen(msgs, ls, n, o) || OwnerIn(ls, msgs[n].id) == Some(o)
  {
    hide OwnerIn;
  }

  /** What a superseded entry contributes, told from the maps of the loop. */
  lemma PieceOfSuperseded<Id(!new)>(parse: string -> Option<Id>, msgs: Log<Id>, table: PartTable<Id>, caps: Caps,
                                    request: Option<string>,
                                    i: nat, superseded: map<Id, Id>, summaries: map<Id, string>)
    requires i < |msgs| && msgs[i].id in superseded
    requires CollectsTo(Listings(parse, msgs, table), superseded) && Summarizes(msgs, table, summaries)
    ensures var ls := Listings(parse, msgs, table);
            var owner := superseded[msgs[i].id];
            && OwnerIn(ls, msgs[i].id) == Some(owner)
            && owner in summaries
            && Piece(msgs, table, caps, request, ls, i)
               == if Seen(msgs, ls, i, owner) then [] else [SummaryMessage(summaries[owner])]
  {
    hide ProjectMessage, SummaryMessage, Listings, SummaryIn, PartsOf;
    var ls := Listings(parse, msgs, table);
    var owner := superseded[msgs[i].id];
    OwnerInMeans(ls, msgs[i].id);
    hide OwnerIn;
    OwnerHasSummary(parse, msgs, table, Listing(msgs[i].id, owner));
    assert IsFirstOf(msgs, ls, i) <==> !Seen(msgs, ls, i, owner);
  }

  /** The loop of `project_for_llm_mode`, with its set of owners already summarised. */
  method ProjectForLlm<Id(==,!new)>(parse: string -> Option<Id>, msgs: Log<Id>, table: PartTable<Id>, caps: Caps,
                                    request: Option<string>)
      returns (out: seq<LlmMessage>)
    ensures out == Project(parse, msgs, table, caps, request)
  {
    hide ProjectMessage, SummaryMessage, Listings, Summarizes, OwnerIn, Seen;
    var superseded, summaries := CollectCompactions(parse, msgs, table);
    ghost var ls := Listings(parse, msgs, table);
    out := [];
    var emitted: set<Id> := {};
    NoneSeen(msgs, ls);
    for i := 0 to |msgs|
      invariant out == PiecesTo(msgs, table, caps, request, ls, i)
      invariant forall o :: o in emitted <==> Seen(msgs, ls, i, o)
    {
      var m := msgs[i];
      forall o
        ensures Seen(msgs, ls, i + 1, o) <==> Seen(msgs, ls, i, o) || OwnerIn(ls, m.id) == Some(o)
      {
        SeenSnoc(msgs, ls, i, o);
      }
      if m.id in superseded {
        var owner := superseded[m.id];
        PieceOfSuperseded(parse, msgs, table, caps, request, i, superseded, summaries);
        if owner !in emitted && owner in summaries {
          out := out + [SummaryMessage(summaries[owner])];
        } else {
          assert out + [] == out;
        }
        emitted := emitted + {owner};
        continue;
      }
      out := out + ProjectMessage(m.role, PartsOf(table, m.id), caps, request);
    }
  }

  lemma NoneSeen<Id(!new)>(msgs: Log<Id>, ls: seq<Listing<Id>>)
    ensures forall o :: !Seen(msgs, ls, 0, o)
  {
  }

  // ----- effective ids ------------------------------------------------------------------------

  method EffectiveIds<Id(==,!new)>(parse: string -> Option<Id>, msgs: Log<Id>, table: PartTable<Id>)
      returns (ids: set<Id>)
    ensures forall i :: 0 <= i < |msgs| ==>
              (msgs[i].id in ids <==> OwnerIn(Listings(parse, msgs, table), msgs[i].id).None?)
    ensures forall id :: id in ids ==> exists i :: 0 <= i < |msgs| && msgs[i].id == id
  {
    var superseded, _ := CollectCompactions(parse, msgs, table);
    ids := set m | m in msgs && m.id !in superseded :: m.id;
  }

  // ----- exactly one summary per owner --------------------------------------------------------

  /** The entries that contribute the summary of `o`. */
  predicate EmitsSummaryOf<Id(==)>(msgs: Log<Id>, ls: seq<Listing<Id>>, i: nat, o: Id)
    requires i < |msgs|
  {
    OwnerIn(ls, msgs[i].id) == Some(o) && IsFirstOf(msgs, ls, i)
  }

  /**
    For any nesting of compactions: an owner that still supersedes a logged message has its summary
    emitted at exactly one entry, the first it supersedes; every other entry it supersedes contributes
    nothing.
   */
  lemma OneSummaryPerOwner<Id>(parse: string -> Option<Id>, msgs: Log<Id>, table: PartTable<Id>, caps: Caps,
                               request: Option<string>, k: nat)
      returns (first: nat)
    requires k < |msgs| && OwnerIn(Listings(parse, msgs, table), msgs[k].id).Some?
    ensures var ls := Listings(parse, msgs, table);
            var o := OwnerIn(ls, msgs[k].id).value;
            && first <= k
            && SummaryIn(PartsOf(table, o)).Some?
            && Piece(msgs, table, caps, request, ls, first) == [SummaryMessage(SummaryIn(PartsOf(table, o)).value)]
            && (forall i: nat :: i < |msgs| ==> (EmitsSummaryOf(msgs, ls, i, o) <==> i == first))
            && (forall i: nat :: i < |msgs| && OwnerIn(ls, msgs[i].id) == Some(o) && i != first
                  ==> Piece(msgs, table, caps, request, ls, i) == [])
  {
    hide ProjectMessage, SummaryMessage, Listings;
    var ls := Listings(parse, msgs, table);
    var o := OwnerIn(ls, msgs[k].id).value;
    OwnerInMeans(ls, msgs[k].id);
    OwnerHasSummary(parse, msgs, table, Listing(msgs[k].id, o));
    first := 0;
    while OwnerIn(ls, msgs[first].id) != Some(o)
      invariant first <= k
      invariant forall j :: 0 <= j < first ==> OwnerIn(ls, msgs[j].id) != Some(o)
      decreases k - first
    {
      first := first + 1;
    }
  }

  /** A summary is emitted somewhere for exactly the owners that supersede a logged message. */
  lemma SummarisedIffSuperseding<Id>(parse: string -> Option<Id>, msgs: Log<Id>, table: PartTable<Id>, o: Id)
    ensures var ls := Listings(parse, msgs, table);
            var emitted := exists i: nat :: i < |msgs| && EmitsSummaryOf(msgs, ls, i, o);
            emitted <==> exists k: nat :: k < |msgs| && OwnerIn(ls, msgs[k].id) == Some(o)
  {
    hide Listings, OwnerIn;
    var ls := Listings(parse, msgs, table);
    if k: nat :| k < |msgs| && OwnerIn(ls, msgs[k].id) == Some(o) {
      var first := OneSummaryPerOwner(parse, msgs, table, Caps(false, false, false), None, k);
      assert EmitsSummaryOf(msgs, ls, first, o);
    }
  }

  // ----- appending a message ------------------------------------------------------------------

  lemma {:induction false} ListingsDependOnParts<Id>(parse: string -> Option<Id>, msgs: Log<Id>, table: PartTable<Id>,
                                                     table': PartTable<Id>)
    requires forall i :: 0 <= i < |msgs| ==> PartsOf(table', msgs[i].id) == PartsOf(table, msgs[i].id)
    ensures Listings(parse, msgs, table') == Listings(parse, msgs, table)
  {
    hide PartsOf, PartListings;
    if msgs != [] {
      var front := msgs[..|msgs| - 1];
      assert forall i :: 0 <= i < |front| ==> front[i] == msgs[i];
      ListingsDependOnParts(parse, front, table, table');
    }
  }

  /** What the appended message's parts say about who supersedes whom. */
  lemma AppendedOwner<Id>(parse: string -> Option<Id>, msgs: Log<Id>, table: PartTable<Id>, m: Message<Id>,
                          parts: seq<Part>, id: Id)
    requires forall i :: 0 <= i < |msgs| ==> msgs[i].id != m.id
    requires forall l :: l in PartListings(parse, parts, m.id) ==> l.id != id
    ensures OwnerIn(Listings(parse, msgs + [m], table[m.id := parts]), id) == OwnerIn(Listings(parse, msgs, table), id)
  {
    hide PartListings;
    var all := msgs + [m];
    assert all[..|msgs|] == msgs;
    ListingsDependOnParts(parse, msgs, table, table[m.id := parts]);
    OwnerInAppend(Listings(parse, msgs, table), PartListings(parse, parts, m.id), id);
    OwnerInMeans(PartListings(parse, parts, m.id), id);
  }

  lemma {:induction false} PiecesAgree<Id>(msgs: Log<Id>, table: PartTable<Id>, caps: Caps, request: Option<string>,
                                           ls: seq<Listing<Id>>, msgs': Log<Id>, table': PartTable<Id>,
                                           ls': seq<Listing<Id>>, n: nat)
    requires n <= |msgs| && msgs <= msgs'
    requires forall i :: 0 <= i < |msgs| ==> OwnerIn(ls', msgs[i].id) == OwnerIn(ls, msgs[i].id)
    requires forall i :: 0 <= i < |msgs| ==> PartsOf(table', msgs[i].id) == PartsOf(table, msgs[i].id)
    requires forall i :: 0 <= i < |msgs| && OwnerIn(ls, msgs[i].id).Some? ==>
               PartsOf(table', OwnerIn(ls, msgs[i].id).value) == PartsOf(table, OwnerIn(ls, msgs[i].id).value)
    ensures PiecesTo(msgs', table', caps, request, ls', n) == PiecesTo(msgs, table, caps, request, ls, n)
  {
    hide ProjectMessage, SummaryMessage, PartsOf, OwnerIn;
    if n > 0 {
      PiecesAgree(msgs, table, caps, request, ls, msgs', table', ls', n - 1);
      assert forall j :: 0 <= j < n ==> msgs'[j] == msgs[j];
      assert IsFirstOf(msgs', ls', n - 1) <==> IsFirstOf(msgs, ls, n - 1);
    }
  }

  /**
    Appending a fresh message only extends the earlier projection, as long as its parts compact no
    message already logged.  In particular this holds when it has no compaction part at all.
   */
  lemma AppendExtends<Id>(parse: string -> Option<Id>, msgs: Log<Id>, table: PartTable<Id>, caps: Caps,
                          request: Option<string>,
                          m: Message<Id>, parts: seq<Part>)
    requires forall i :: 0 <= i < |msgs| ==> msgs[i].id != m.id
    requires forall l, i :: l in PartListings(parse, parts, m.id) && 0 <= i < |msgs| ==> l.id != msgs[i].id
    ensures Project(parse, msgs, table, caps, request)
         <= Project(parse, msgs + [m], table[m.id := parts], caps, request)
  {
    hide PartListings, Piece, Listings, PartsOf;
    var all, table' := msgs + [m], table[m.id := parts];
    var ls, ls' := Listings(parse, msgs, table), Listings(parse, all, table');
    forall i | 0 <= i < |msgs|
      ensures OwnerIn(ls', msgs[i].id) == OwnerIn(ls, msgs[i].id)
      ensures PartsOf(table', msgs[i].id) == PartsOf(table, msgs[i].id)
      ensures OwnerIn(ls, msgs[i].id).Some? ==>
                PartsOf(table', OwnerIn(ls, msgs[i].id).value) == PartsOf(table, OwnerIn(ls, msgs[i].id).value)
    {
      AppendedOwner(parse, msgs, table, m, parts, msgs[i].id);
      OtherParts(table, m.id, parts, msgs[i].id);
      if OwnerIn(ls, msgs[i].id).Some? {
        OwnerInMeans(ls, msgs[i].id);
        OwnerHasSummary(parse, msgs, table, Listing(msgs[i].id, OwnerIn(ls, msgs[i].id).value));
        OtherParts(table, m.id, parts, OwnerIn(ls, msgs[i].id).value);
      }
    }
    PiecesAgree(msgs, table, caps, request, ls, all, table', ls', |msgs|);
  }

  lemma OtherParts<Id>(table: PartTable<Id>, m: Id, parts: seq<Part>, id: Id)
    requires id != m
    ensures PartsOf(table[m := parts], id) == PartsOf(table, id)
  {
  }

  /** Exactly the messages that an appended message lists change hands. */
  lemma AppendKeepsOwnersIff<Id>(parse: string -> Option<Id>, msgs: Log<Id>, table: PartTable<Id>, m: Message<Id>,
                                 parts: seq<Part>, id: Id)
    requires forall i :: 0 <= i < |msgs| ==> msgs[i].id != m.id
    ensures OwnerIn(Listings(parse, msgs + [m], table[m.id := parts]), id) == OwnerIn(Listings(parse, msgs, table), id)
       <==> forall l :: l in PartListings(parse, parts, m.id) ==> l.id != id
  {
    hide PartListings, Listings, OwnerIn;
    var added := PartListings(parse, parts, m.id);
    if forall l :: l in added ==> l.id != id {
      AppendedOwner(parse, msgs, table, m, parts, id);
    } else {
      NewOwner(parse, msgs, table, m, parts, id);
      var ls := Listings(parse, msgs, table);
      OwnerInMeans(ls, id);
      if OwnerIn(ls, id).Some? { OwnerHasSummary(parse, msgs, table, Listing(id, OwnerIn(ls, id).value)); }
    }
  }

  lemma NewOwner<Id>(parse: string -> Option<Id>, msgs: Log<Id>, table: PartTable<Id>, m: Message<Id>,
                     parts: seq<Part>, id: Id)
    requires forall i :: 0 <= i < |msgs| ==> msgs[i].id != m.id
    requires exists l :: l in PartListings(parse, parts, m.id) && l.id == id
    ensures OwnerIn(Listings(parse, msgs + [m], table[m.id := parts]), id) == Some(m.id)
  {
    var all := msgs + [m];
    assert all[..|msgs|] == msgs;
    assert Listings(parse, all, table[m.id := parts])
        == Listings(parse, msgs, table[m.id := parts]) + PartListings(parse, parts, m.id);
    hide PartListings, Listings;
    OwnerInAppend(Listings(parse, msgs, table[m.id := parts]), PartListings(parse, parts, m.id), id);
    OwnerInMeans(PartListings(parse, parts, m.id), id);
    ListerHasSummary(parse, parts, m.id);
  }

  /** A part appended to a logged message rewrites what the model saw of it. */
  lemma AppendedPartRewrites<Id>(parse: string -> Option<Id>, a: Id, caps: Caps)
    ensures var msgs := [Message(a, System)];
            var table: PartTable<Id> := map[a := [Text("hello")]];
            var grown := table[a := [Text("hello"), Text("again")]];
            !(Project(parse, msgs, table, caps, None) <= Project(parse, msgs, grown, caps, None))
  {
    var msgs := [Message(a, System)];
    var parts := [Text("hello"), Text("again")];
    var table: PartTable<Id> := map[a := [Text("hello")]];
    var table' := table[a := parts];
    ShortLog(parse, a, table, caps);
    assert msgs[..0] == [] && parts[..1] == [Text("hello")] && [Text("hello")][..0] == [];
    assert PartListings(parse, [Text("hello")], a) == [];
    assert PartListings(parse, parts, a) == [];
    assert Listings(parse, msgs, table') == [];
    assert Lines([Text("hello")], TextLine) == "hello";
    assert Lines(parts, TextLine) == "hello" + "\n" + "again";
    assert PiecesTo(msgs, table', caps, None, [], 1) == [] + Piece(msgs, table', caps, None, [], 0);
    assert Project(parse, msgs, table', caps, None)[0].content != "hello";
  }

  lemma {:induction false} NoCompactionNoListing<Id>(parse: string -> Option<Id>, parts: seq<Part>, owner: Id)
    requires forall i :: 0 <= i < |parts| ==> !parts[i].Compaction?
    ensures PartListings(parse, parts, owner) == []
  {
    if parts != [] {
      NoCompactionNoListing(parse, parts[..|parts| - 1], owner);
    }
  }

  /** What a turn loop relies on: a fresh message without a compaction part only extends. */
  lemma PlainMessageExtends<Id>(parse: string -> Option<Id>, msgs: Log<Id>, table: PartTable<Id>, caps: Caps,
                                request: Option<string>,
                                m: Message<Id>, parts: seq<Part>)
    requires forall i :: 0 <= i < |msgs| ==> msgs[i].id != m.id
    requires forall i :: 0 <= i < |parts| ==> !parts[i].Compaction?
    ensures Project(parse, msgs, table, caps, request)
         <= Project(parse, msgs + [m], table[m.id := parts], caps, request)
  {
    hide Project;
    NoCompactionNoListing(parse, parts, m.id);
    AppendExtends(parse, msgs, table, caps, request, m, parts);
  }

  /** An appended compaction of a logged message does rewrite what the model saw before. */
  lemma CompactionRewrites<Id>(parse: string -> Option<Id>, raw: string, a: Id, b: Id, caps: Caps)
    requires a != b && parse(raw) == Some(a)
    ensures var msgs := [Message(a, System)];
            var table: PartTable<Id> := map[a := [Text("hello")]];
            var parts := [Compaction("short", [raw])];
            var all := msgs + [Message(b, Assistant)];
            !(Project(parse, msgs, table, caps, None) <= Project(parse, all, table[b := parts], caps, None))
  {
    var msgs, all := [Message(a, System)], [Message(a, System)] + [Message(b, Assistant)];
    var table: PartTable<Id> := map[a := [Text("hello")]];
    var parts := [Compaction("short", [raw])];
    var table' := table[b := parts];
    ShortLog(parse, a, table, caps);
    OneListing(parse, raw, a, b);
    var ls' := Listings(parse, all, table');
    SummaryFirst(all, table', caps, ls', a, b);
    hide *;
    PiecesBegin(all, table', caps, ls', 1, 2);
    assert Project(parse, all, table', caps, None)[0] == SummaryMessage("short");
    assert Project(parse, msgs, table, caps, None)[0] == Simple(System, "hello");
    SummaryIsNotHello();
  }

  lemma SummaryIsNotHello()
    ensures SummaryMessage("short") != Simple(System, "hello")
  {
    assert (BANNER + "short")[0] == '[' && "hello"[0] == 'h';
  }

  lemma OneListing<Id>(parse: string -> Option<Id>, raw: string, a: Id, b: Id)
    requires a != b && parse(raw) == Some(a)
    ensures var table: PartTable<Id> := map[a := [Text("hello")]];
            var all := [Message(a, System)] + [Message(b, Assistant)];
            Listings(parse, all, table[b := [Compaction("short", [raw])]]) == [Listing(a, b)]
  {
    var parts := [Compaction("short", [raw])];
    var table: PartTable<Id> := map[a := [Text("hello")]];
    var msgs, all := [Message(a, System)], [Message(a, System)] + [Message(b, Assistant)];
    assert all[..1] == msgs && msgs[..0] == [];
    assert PartListings(parse, [Text("hello")], a) == [];
    assert [raw][..0] == [] && parts[..0] == [];
    assert ParsedIds(parse, [raw], b) == [Listing(a, b)];
    assert PartListings(parse, parts, b) == [Listing(a, b)];
    assert Listings(parse, msgs, table[b := parts]) == [];
  }

  lemma SummaryFirst<Id>(all: Log<Id>, table: PartTable<Id>, caps: Caps, ls: seq<Listing<Id>>, a: Id, b: Id)
    requires |all| == 2 && all[0].id == a && ls == [Listing(a, b)]
    requires b in table && |table[b]| == 1 && table[b][0].Compaction? && table[b][0].summary == "short"
    ensures PiecesTo(all, table, caps, None, ls, 1) == [SummaryMessage("short")]
  {
    assert ls[..0] == [] && OwnerIn(ls, a) == Some(b);
    assert SummaryIn(table[b]) == Some("short");
    hide ProjectMessage, SummaryMessage;
    assert Piece(all, table, caps, None, ls, 0) == [SummaryMessage("short")];
    assert PiecesTo(all, table, caps, None, ls, 0) == [];
  }

  lemma {:induction false} PiecesBegin<Id>(msgs: Log<Id>, table: PartTable<Id>, caps: Caps, ls: seq<Listing<Id>>,
                                           n: nat, m: nat)
    requires n <= m <= |msgs|
    ensures PiecesTo(msgs, table, caps, None, ls, n) <= PiecesTo(msgs, table, caps, None, ls, m)
  {
    hide Piece;
    if n < m { PiecesBegin(msgs, table, caps, ls, n, m - 1); }
  }

  lemma ShortLog<Id>(parse: string -> Option<Id>, a: Id, table: PartTable<Id>, caps: Caps)
    requires table == map[a := [Text("hello")]]
    ensures Project(parse, [Message(a, System)], table, caps, None) == [Simple(System, "hello")]
  {
    var msgs := [Message(a, System)];
    assert msgs[..0] == [] && [Text("hello")][..0] == [];
    assert PartListings(parse, [Text("hello")], a) == [];
    assert Listings(parse, msgs, table) == [];
    assert Lines([Text("hello")], TextLine) == "hello";
    assert PiecesTo(msgs, table, caps, None, [], 1) == [] + Piece(msgs, table, caps, None, [], 0);
  }
}
