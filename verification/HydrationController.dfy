/**
  Coalescing refetches: a trigger while a fetch of that session is under way only marks the session dirty,
  and the landing of the fetch starts one more.  Triggers and landings interleave freely.
 */
module HydrationController {
  import opened Common

  datatype Happening = Triggered(session: string) | Started(session: string) | Landed(session: string)

  /** `log` records what happened, oldest first. */
  datatype State = State(inflight: set<string>, dirty: set<string>, log: seq<Happening>)

  datatype Move = Trigger(session: string) | Land(session: string)

  const START := State({}, {}, [])

  /** `run` up to its `await`. */
  function Run(s: State, id: string): State
  {
    if id in s.inflight then s.(dirty := s.dirty + {id})
    else s.(inflight := s.inflight + {id}, log := s.log + [Started(id)])
  }

  /** `run` from its `finally` on, after the fetch succeeded or failed. */
  function Finish(s: State, id: string): State
  {
    var landed := s.(inflight := s.inflight - {id}, dirty := s.dirty - {id}, log := s.log + [Landed(id)]);
    if id in s.dirty then Run(landed, id) else landed
  }

  /** A landing can only be of a fetch under way. */
  predicate Possible(s: State, m: Move) { m.Land? ==> m.session in s.inflight }

  function Next(s: State, m: Move): State
    requires Possible(s, m)
  {
    match m
    case Trigger(id) => Run(s.(log := s.log + [Triggered(id)]), id)
    case Land(id) => Finish(s, id)
  }

  ghost predicate Reaches(s: State, ms: seq<Move>, t: State)
    decreases |ms|
  {
    if ms == [] then t == s else Possible(s, ms[0]) && Reaches(Next(s, ms[0]), ms[1..], t)
  }

  datatype Event =
    | SessionStatus(session: string, status: string)
    | MessageCreated(session: string)
    | PartUpdated(session: string)
    | Unrelated

  /** The session an event says has new durable content. */
  function Stale(ev: Event): Option<string>
  {
    match ev
    case SessionStatus(s, status) => if status in {"idle", "errored", "cancelled"} then Some(s) else None
    case MessageCreated(s) => Some(s)
    case PartUpdated(s) => Some(s)
    case Unrelated => None
  }

  /** A session's content is refetched when a message appears, when a part is finished, and when its turn ends. */
  lemma StaleIff(ev: Event, session: string)
    ensures Stale(ev) == Some(session) <==>
              || ev == MessageCreated(session) || ev == PartUpdated(session)
              || ev == SessionStatus(session, "idle") || ev == SessionStatus(session, "errored")
              || ev == SessionStatus(session, "cancelled")
  {
  }

  class Controller {
    var inflight: set<string>
    var dirty: set<string>
    ghost var log: seq<Happening>

    ghost function Value(): State
      reads this
    {
      State(inflight, dirty, log)
    }

    constructor ()
      ensures Value() == START
    {
      inflight, dirty, log := {}, {}, [];
    }

    method Refresh(id: string)
      modifies this
      ensures Value() == Next(old(Value()), Trigger(id))
    {
      log := log + [Triggered(id)];
      Begin(id);
    }

    method OnEvent(ev: Event)
      modifies this
      ensures Value() == if Stale(ev).Some? then Next(old(Value()), Trigger(Stale(ev).value)) else old(Value())
    {
      if ev.SessionStatus? && ev.status in {"idle", "errored", "cancelled"} {
        Refresh(ev.session);
      } else if ev.MessageCreated? || ev.PartUpdated? {
        Refresh(ev.session);
      }
    }

    method Begin(id: string)
      modifies this
      ensures Value() == Run(old(Value()), id)
    {
      if id in inflight {
        dirty := dirty + {id};
        return;
      }
      inflight := inflight + {id};
      log := log + [Started(id)];
    }

    method FetchDone(id: string)
      requires id in inflight
      modifies this
      ensures Value() == Next(old(Value()), Land(id))
    {
      log := log + [Landed(id)];
      inflight := inflight - {id};
      var again := id in dirty;
      dirty := dirty - {id};
      if again { Begin(id); }
    }
  }

  // ----- counting -----------------------------------------------------------------------------

  function Count(log: seq<Happening>, h: Happening): nat
  {
    if log == [] then 0 else Count(log[..|log| - 1], h) + if log[|log| - 1] == h then 1 else 0
  }

  lemma CountSnoc(log: seq<Happening>, x: Happening, h: Happening)
    ensures Count(log + [x], h) == Count(log, h) + if x == h then 1 else 0
  {
    assert (log + [x])[..|log|] == log;
  }

  /** The fetches under way and owed are those of the sets, and none was started without a trigger. */
  ghost predicate Tallied(s: State, id: string)
  {
    && Count(s.log, Started(id)) == Count(s.log, Landed(id)) + (if id in s.inflight then 1 else 0)
    && Count(s.log, Started(id)) + (if id in s.dirty then 1 else 0) <= Count(s.log, Triggered(id))
    && (id in s.dirty ==> id in s.inflight)
  }

  /** Since the last trigger a fetch was started, unless one is still owed. */
  ghost predicate Fresh(s: State, id: string)
  {
    id in s.dirty || forall i :: 0 <= i < |s.log| && s.log[i] == Triggered(id) ==> StartedAfter(s.log, id, i)
  }

  ghost predicate StartedAfter(log: seq<Happening>, id: string, i: nat)
  {
    exists j :: i < j < |log| && log[j] == Started(id)
  }

  lemma RunTallies(s: State, id: string, other: string)
    requires Count(s.log, Started(other)) == Count(s.log, Landed(other)) + (if other in s.inflight then 1 else 0)
    requires other in s.dirty ==> other in s.inflight
    requires Count(s.log, Started(other)) + (if other in s.dirty || id == other then 1 else 0)
          <= Count(s.log, Triggered(other))
    ensures Tallied(Run(s, id), other)
  {
    hide Count;
    CountSnoc(s.log, Started(id), Started(other));
    CountSnoc(s.log, Started(id), Landed(other));
    CountSnoc(s.log, Started(id), Triggered(other));
  }

  lemma NextTallies(s: State, m: Move, id: string)
    requires Possible(s, m) && Tallied(s, id)
    ensures Tallied(Next(s, m), id)
  {
    hide Count, Run;
    match m
    case Trigger(x) => {
      CountSnoc(s.log, Triggered(x), Started(id));
      CountSnoc(s.log, Triggered(x), Landed(id));
      CountSnoc(s.log, Triggered(x), Triggered(id));
      RunTallies(s.(log := s.log + [Triggered(x)]), x, id);
    }
    case Land(x) => {
      CountSnoc(s.log, Landed(x), Started(id));
      CountSnoc(s.log, Landed(x), Landed(id));
      CountSnoc(s.log, Landed(x), Triggered(id));
      if x in s.dirty {
        RunTallies(s.(inflight := s.inflight - {x}, dirty := s.dirty - {x}, log := s.log + [Landed(x)]), x, id);
      }
    }
  }

  // ----- freshness ----------------------------------------------------------------------------

  lemma StartedAfterSnoc(log: seq<Happening>, x: Happening, id: string, i: nat)
    ensures StartedAfter(log, id, i) ==> StartedAfter(log + [x], id, i)
    ensures x == Started(id) && i < |log| ==> StartedAfter(log + [x], id, i)
  {
    if StartedAfter(log, id, i) {
      var j :| i < j < |log| && log[j] == Started(id);
      assert (log + [x])[j] == Started(id);
    }
    if x == Started(id) && i < |log| { assert (log + [x])[|log|] == x; }
  }

  /** Every trigger of `id` in the log was followed by a start. */
  ghost predicate AllAnswered(log: seq<Happening>, id: string)
  {
    forall i :: 0 <= i < |log| && log[i] == Triggered(id) ==> StartedAfter(log, id, i)
  }

  lemma AnsweredSnoc(log: seq<Happening>, x: Happening, id: string)
    requires x == Started(id) || (AllAnswered(log, id) && x != Triggered(id))
    ensures AllAnswered(log + [x], id)
  {
    hide StartedAfter;
    forall i | 0 <= i < |log + [x]| && (log + [x])[i] == Triggered(id)
      ensures StartedAfter(log + [x], id, i)
    {
      StartedAfterSnoc(log, x, id, i);
    }
  }

  lemma RunRefreshes(s: State, x: string, id: string)
    requires x == id || Fresh(s, id)
    ensures Fresh(Run(s, x), id)
  {
    hide AllAnswered;
    AnsweredIsFresh(s, id);
    AnsweredIsFresh(Run(s, x), id);
    if x !in s.inflight && (x == id || AllAnswered(s.log, id)) { AnsweredSnoc(s.log, Started(x), id); }
  }

  lemma AnsweredIsFresh(s: State, id: string)
    ensures Fresh(s, id) <==> id in s.dirty || AllAnswered(s.log, id)
  {
  }

  lemma NextRefreshes(s: State, m: Move, id: string)
    requires Possible(s, m) && Fresh(s, id)
    ensures Fresh(Next(s, m), id)
  {
    hide AllAnswered, Fresh, Run;
    AnsweredIsFresh(s, id);
    match m
    case Trigger(x) => {
      var t := s.(log := s.log + [Triggered(x)]);
      AnsweredIsFresh(t, id);
      if x != id && AllAnswered(s.log, id) { AnsweredSnoc(s.log, Triggered(x), id); }
      RunRefreshes(t, x, id);
    }
    case Land(x) => {
      var t := s.(inflight := s.inflight - {x}, dirty := s.dirty - {x}, log := s.log + [Landed(x)]);
      AnsweredIsFresh(t, id);
      if AllAnswered(s.log, id) { AnsweredSnoc(s.log, Landed(x), id); }
      if x in s.dirty { RunRefreshes(t, x, id); }
    }
  }

  // ----- starts and landings alternate --------------------------------------------------------

  /** Of two starts, the earlier fetch landed before the later began. */
  ghost predicate InTurn(log: seq<Happening>, id: string)
  {
    forall i, j :: 0 <= i < j < |log| && log[i] == Started(id) && log[j] == Started(id) ==> LandedBetween(log, id, i, j)
  }

  ghost predicate LandedBetween(log: seq<Happening>, id: string, i: nat, j: nat)
  {
    exists k :: i < k < j && k < |log| && log[k] == Landed(id)
  }

  /** With nothing under way, every start has its landing. */
  ghost predicate AllLanded(log: seq<Happening>, id: string)
  {
    forall i :: 0 <= i < |log| && log[i] == Started(id) ==> LandedBetween(log, id, i, |log|)
  }

  ghost predicate Alternates(s: State, id: string) { InTurn(s.log, id) && (id in s.inflight || AllLanded(s.log, id)) }

  lemma LandedSnoc(log: seq<Happening>, x: Happening, id: string, i: nat, j: nat)
    requires j <= |log|
    ensures LandedBetween(log, id, i, j) ==> LandedBetween(log + [x], id, i, j)
    ensures LandedBetween(log, id, i, j) ==> LandedBetween(log + [x], id, i, |log| + 1)
    ensures x == Landed(id) && i < |log| ==> LandedBetween(log + [x], id, i, |log| + 1)
  {
    if LandedBetween(log, id, i, j) {
      var k :| i < k < j && k < |log| && log[k] == Landed(id);
      assert (log + [x])[k] == Landed(id);
    }
    if x == Landed(id) && i < |log| { assert (log + [x])[|log|] == x; }
  }

  lemma InTurnSnoc(log: seq<Happening>, x: Happening, id: string)
    requires InTurn(log, id) && (x == Started(id) ==> AllLanded(log, id))
    ensures InTurn(log + [x], id)
    ensures x == Landed(id) || (AllLanded(log, id) && x != Started(id)) ==> AllLanded(log + [x], id)
  {
    hide LandedBetween;
    var more := log + [x];
    forall i, j | 0 <= i < j < |more| && more[i] == Started(id) && more[j] == Started(id)
      ensures LandedBetween(more, id, i, j)
    {
      LandedSnoc(log, x, id, i, j);
    }
    if x == Landed(id) || (AllLanded(log, id) && x != Started(id)) {
      forall i | 0 <= i < |more| && more[i] == Started(id)
        ensures LandedBetween(more, id, i, |more|)
      {
        LandedSnoc(log, x, id, i, |log|);
      }
    }
  }

  lemma RunAlternates(s: State, x: string, id: string)
    requires Alternates(s, id)
    ensures Alternates(Run(s, x), id)
  {
    hide InTurn, AllLanded;
    if x !in s.inflight { InTurnSnoc(s.log, Started(x), id); }
  }

  lemma NextAlternates(s: State, m: Move, id: string)
    requires Possible(s, m) && Alternates(s, id)
    ensures Alternates(Next(s, m), id)
  {
    hide InTurn, AllLanded, Run;
    match m
    case Trigger(x) => {
      InTurnSnoc(s.log, Triggered(x), id);
      RunAlternates(s.(log := s.log + [Triggered(x)]), x, id);
    }
    case Land(x) => {
      InTurnSnoc(s.log, Landed(x), id);
      var t := s.(inflight := s.inflight - {x}, dirty := s.dirty - {x}, log := s.log + [Landed(x)]);
      if x in s.dirty { RunAlternates(t, x, id); }
    }
  }

  // ----- whole runs ---------------------------------------------------------------------------

  ghost predicate Good(s: State, id: string) { Tallied(s, id) && Fresh(s, id) && Alternates(s, id) }

  lemma {:induction false} RunsStayGood(s: State, ms: seq<Move>, t: State, id: string)
    requires Good(s, id) && Reaches(s, ms, t)
    ensures Good(t, id)
    decreases |ms|
  {
    hide Tallied, Fresh, Alternates, Next;
    if ms != [] {
      NextTallies(s, ms[0], id);
      NextRefreshes(s, ms[0], id);
      NextAlternates(s, ms[0], id);
      RunsStayGood(Next(s, ms[0]), ms[1..], t, id);
    }
  }

  lemma StartIsGood(id: string)
    ensures Good(START, id)
  {
  }

  /** At any point of any run: one fetch at most under way, dirty sessions among those, fetches within triggers. */
  lemma FetchesAreCoalesced(ms: seq<Move>, s: State, id: string)
    requires Reaches(START, ms, s)
    ensures Count(s.log, Started(id)) - Count(s.log, Landed(id)) == if id in s.inflight then 1 else 0
    ensures s.dirty <= s.inflight
    ensures Count(s.log, Started(id)) <= Count(s.log, Triggered(id))
    ensures InTurn(s.log, id)
  {
    hide InTurn, Reaches, Fresh, Count, AllLanded;
    forall x
      ensures Good(s, x)
    {
      StartIsGood(x);
      RunsStayGood(START, ms, s, x);
    }
    assert Good(s, id);
    forall x | x in s.dirty
      ensures x in s.inflight
    {
      assert Good(s, x);
    }
  }

  /** Once nothing is under way, every trigger has been followed by a fetch that began after it and has landed. */
  lemma QuietMeansFresh(ms: seq<Move>, s: State, id: string, i: nat)
    requires Reaches(START, ms, s) && s.inflight == {}
    requires i < |s.log| && s.log[i] == Triggered(id)
    ensures exists j, k :: i < j < k < |s.log| && s.log[j] == Started(id) && s.log[k] == Landed(id)
  {
    hide Reaches, InTurn;
    StartIsGood(id);
    RunsStayGood(START, ms, s, id);
    assert StartedAfter(s.log, id, i);
    var j :| i < j < |s.log| && s.log[j] == Started(id);
    assert LandedBetween(s.log, id, j, |s.log|);
    var k :| j < k < |s.log| && s.log[k] == Landed(id);
  }

  // ----- settling -----------------------------------------------------------------------------

  /** Landings alone bring it to rest, after exactly as many as there are fetches under way and owed. */
  lemma {:induction false} LandingsSettle(s: State, ms: seq<Move>, t: State)
    requires s.dirty <= s.inflight && Reaches(s, ms, t)
    requires forall i :: 0 <= i < |ms| ==> ms[i].Land?
    ensures t.dirty <= t.inflight
    ensures |t.inflight| + |t.dirty| + |ms| == |s.inflight| + |s.dirty|
    decreases |ms|
  {
    if ms != [] {
      var n := Next(s, ms[0]);
      OneLanding(s, ms[0].session);
      hide Next;
      LandingsSettle(n, ms[1..], t);
    }
  }

  lemma OneLanding(s: State, id: string)
    requires s.dirty <= s.inflight && id in s.inflight
    ensures var n := Finish(s, id); n.dirty <= n.inflight && |n.inflight| + |n.dirty| + 1 == |s.inflight| + |s.dirty|
  {
    if id in s.dirty {
      assert s.inflight - {id} + {id} == s.inflight;
    } else {
      assert s.dirty - {id} == s.dirty;
    }
  }
}
