/**
  The permission manager: rules, and the asks that wait for a user's decision.  `accept_ask` takes the ask
  out of the map and may put it back, so it is several steps with the ask held in between; every other call
  changes the manager once and is one step.
 */
module PermissionManager {
  import opened Common
  import opened PermissionRules

  type AskId = nat

  datatype Decision = Allow | Deny(feedback: Option<string>) | Pending(ask: AskId)

  /** `awaited`: the runtime has taken the receiving half and waits on it. */
  datatype Ask = Ask(ctx: Ctx, permission: string, awaited: bool)

  datatype Error = AskNotFound | AskExpired | Unsupported | Io

  /** An ask that `accept_ask` took out of the map, with the rule it is to become and whether it has. */
  datatype Held = Held(ask: Ask, rule: Compiled, pushed: bool)

  /** The end of an ask: its decision, and whether anybody was waiting to receive it. */
  datatype Resolution = Resolution(ask: AskId, decision: Decision, received: bool)

  datatype Manager = Manager(rules: seq<Compiled>, pending: map<AskId, Ask>, held: map<AskId, Held>, next: AskId,
                             resolved: seq<Resolution>)

  const EMPTY := Manager([], map[], map[], 0, [])

  /** What the plugin hooks made of a request, if there are any. */
  datatype Hooks =
    | NoHooks
    | Decided(decision: Decision)
    | Passed(permission: Option<string>)
    | Refused(feedback: Option<string>)

  const CANCELLED := Deny(Some("ask cancelled"))

  // ----- calls --------------------------------------------------------------------------------

  /** The request as the rules see it, unless the hooks decided. */
  function AfterHooks(h: Hooks, permission: string): Result<string, Decision>
  {
    match h
    case NoHooks => Ok(permission)
    case Decided(d) => Err(d)
    case Passed(p) => Ok(if p.Some? then p.value else permission)
    case Refused(f) => Err(Deny(f))
  }

  function RuleDenial(permission: string): Decision { Deny(Some("Permission denied by ruleset for " + permission)) }

  function AfterCheck(m: Manager, g: Globs, h: Hooks, ctx: Ctx, permission: string): (Manager, Decision)
  {
    match AfterHooks(h, permission)
    case Err(d) => (m, d)
    case Ok(p) =>
      match Verdict(g, m.rules, ctx, p)
      case Allowing => (m, Allow)
      case Denying => (m, RuleDenial(p))
      case Asking => (m.(pending := m.pending[m.next := Ask(ctx, p, false)], next := m.next + 1), Pending(m.next))
  }

  function Resolve(m: Manager, id: AskId, d: Decision): Manager
    requires id in m.pending
  {
    m.(pending := m.pending - {id}, resolved := m.resolved + [Resolution(id, d, m.pending[id].awaited)])
  }

  function AfterReply(m: Manager, id: AskId, d: Decision): (Manager, Result<(), Error>)
  {
    if id in m.pending then (Resolve(m, id, d), Ok(())) else (m, Err(AskNotFound))
  }

  function AfterCancel(m: Manager, id: AskId): (Manager, Result<(), Error>) { AfterReply(m, id, CANCELLED) }

  predicate Wired(scope: Scope) { scope.Global? || scope.Session? }

  function AfterRecord(m: Manager, g: Globs, scope: Scope, rule: Rule): (Manager, Result<(), Error>)
  {
    if !Wired(scope) then (m, Err(Unsupported))
    else if !g.compiles(rule.pattern) then (m, Err(Io))
    else (m.(rules := m.rules + [Compiled(rule, scope)]), Ok(()))
  }

  function AfterTake(m: Manager, id: AskId): (Manager, bool)
  {
    if id in m.pending && !m.pending[id].awaited then
      (m.(pending := m.pending[id := m.pending[id].(awaited := true)]), true)
    else (m, false)
  }

  /** `accept_ask` up to the removal of the ask, or an error before it. */
  function BeginAccept(m: Manager, id: AskId, scope: Scope, action: Action): (Manager, Result<(), Error>)
  {
    if !Wired(scope) then (m, Err(Unsupported))
    else if id !in m.pending then (m, Err(AskExpired))
    else
      var ask := m.pending[id];
      var held := Held(ask, Compiled(Rule(ask.permission, action), scope), false);
      (m.(pending := m.pending - {id}, held := m.held[id := held]), Ok(()))
  }

  /** The ask put back. */
  function Release(m: Manager, id: AskId): Manager
    requires id in m.held
  {
    m.(pending := m.pending[id := m.held[id].ask], held := m.held - {id})
  }

  function Settle(m: Manager, id: AskId, d: Decision): Manager
    requires id in m.held
  {
    m.(held := m.held - {id}, resolved := m.resolved + [Resolution(id, d, m.held[id].ask.awaited)])
  }

  /** The rule added, once it has compiled and been persisted. */
  function PushRule(m: Manager, id: AskId): Manager
    requires id in m.held
  {
    m.(rules := m.rules + [m.held[id].rule], held := m.held[id := m.held[id].(pushed := true)])
  }

  /** The end of `accept_ask` after the push. */
  function FinishAccept(m: Manager, id: AskId): (Manager, Result<(), Error>)
    requires id in m.held
  {
    match m.held[id].rule.rule.action
    case Allowing => (Settle(m, id, Allow), Ok(()))
    case Denying => (Settle(m, id, Deny(None)), Ok(()))
    case Asking => (Release(m, id), Err(Unsupported))
  }

  /** The whole call with nothing in between; `stored` says whether the decision could be persisted. */
  function AfterAccept(m: Manager, g: Globs, id: AskId, scope: Scope, action: Action, stored: bool)
    : (Manager, Result<(), Error>)
  {
    var (begun, r) := BeginAccept(m, id, scope, action);
    if r.Err? then (begun, r)
    else if !g.compiles(m.pending[id].permission) || !stored then (Release(begun, id), Err(Io))
    else FinishAccept(PushRule(begun, id), id)
  }

  // ----- the manager object -------------------------------------------------------------------

  class ConfigPermissionMgr {
    var rules: seq<Compiled>
    var pending: map<AskId, Ask>
    var next: AskId
    ghost var held: map<AskId, Held>
    ghost var resolved: seq<Resolution>

    ghost function Value(): Manager
      reads this
    {
      Manager(rules, pending, held, next, resolved)
    }

    constructor ()
      ensures Value() == EMPTY
    {
      rules, pending, next, held, resolved := [], map[], 0, map[], [];
    }

    method Check(g: Globs, hooks: Hooks, ctx: Ctx, permission: string) returns (d: Decision)
      modifies this
      ensures (Value(), d) == AfterCheck(old(Value()), g, hooks, ctx, permission)
    {
      var p := permission;
      match hooks {
        case NoHooks =>
        case Decided(decision) => return decision;
        case Passed(changed) => if changed.Some? { p := changed.value; }
        case Refused(feedback) => return Deny(feedback);
      }
      var rule := FindLast(g, rules, ctx, p);
      var action := if rule.Some? then rule.value.rule.action else Fallback(ctx.mode);
      match action {
        case Allowing => return Allow;
        case Denying => return RuleDenial(p);
        case Asking =>
          var id := next;
          next := next + 1;
          pending := pending[id := Ask(ctx, p, false)];
          return Pending(id);
      }
    }

    method Reply(id: AskId, d: Decision) returns (r: Result<(), Error>)
      modifies this
      ensures (Value(), r) == AfterReply(old(Value()), id, d)
    {
      if id !in pending { return Err(AskNotFound); }
      resolved := resolved + [Resolution(id, d, pending[id].awaited)];
      pending := pending - {id};
      return Ok(());
    }

    method CancelAsk(id: AskId) returns (r: Result<(), Error>)
      modifies this
      ensures (Value(), r) == AfterCancel(old(Value()), id)
    {
      r := Reply(id, CANCELLED);
    }

    method RecordAlways(g: Globs, scope: Scope, rule: Rule) returns (r: Result<(), Error>)
      modifies this
      ensures (Value(), r) == AfterRecord(old(Value()), g, scope, rule)
    {
      if !Wired(scope) { return Err(Unsupported); }
      if !g.compiles(rule.pattern) { return Err(Io); }
      rules := rules + [Compiled(rule, scope)];
      return Ok(());
    }

    method TakeDeferred(id: AskId) returns (taken: bool)
      modifies this
      ensures (Value(), taken) == AfterTake(old(Value()), id)
    {
      if id !in pending || pending[id].awaited { return false; }
      pending := pending[id := pending[id].(awaited := true)];
      return true;
    }

    /** Without interference: `stored` is the outcome of the write, true when there is no repository. */
    method AcceptAsk(g: Globs, id: AskId, scope: Scope, action: Action, stored: bool) returns (r: Result<(), Error>)
      requires !(id in pending && id in held)
      modifies this
      ensures (Value(), r) == AfterAccept(old(Value()), g, id, scope, action, stored)
    {
      if !Wired(scope) { return Err(Unsupported); }
      if id !in pending { return Err(AskExpired); }
      var ask := pending[id];
      ghost var before := pending;
      pending := pending - {id};
      ghost var h := Held(ask, Compiled(Rule(ask.permission, action), scope), false);
      assert held[id := h] - {id} == held && held[id := h][id := h.(pushed := true)] - {id} == held;
      assert pending[id := ask] == before;
      var rule := Rule(ask.permission, action);
      if !g.compiles(rule.pattern) {
        pending := pending[id := ask];
        return Err(Io);
      }
      if !stored {
        pending := pending[id := ask];
        return Err(Io);
      }
      rules := rules + [Compiled(rule, scope)];
      var resolution;
      match action {
        case Allowing => resolution := Allow;
        case Denying => resolution := Deny(None);
        case Asking =>
          pending := pending[id := ask];
          return Err(Unsupported);
      }
      resolved := resolved + [Resolution(id, resolution, ask.awaited)];
      return Ok(());
    }
  }

  // ----- sessions do not decide for each other ------------------------------------------------

  type Addition = (Scope, Rule)

  function RecordAll(m: Manager, g: Globs, adds: seq<Addition>): Manager
  {
    if adds == [] then m
    else AfterRecord(RecordAll(m, g, adds[..|adds| - 1]), g, adds[|adds| - 1].0, adds[|adds| - 1].1).0
  }

  /** The additions without those scoped to sessions other than `session`. */
  function Relevant(adds: seq<Addition>, session: SessionId): seq<Addition>
  {
    if adds == [] then []
    else
      var last := adds[|adds| - 1];
      Relevant(adds[..|adds| - 1], session) + if last.0.Session? && last.0.session != session then [] else [last]
  }

  /** What one addition adds to the rules a session can see. */
  function Seen(g: Globs, a: Addition, session: SessionId): seq<Compiled>
  {
    var elsewhere := a.0.Session? && a.0.session != session;
    if Wired(a.0) && g.compiles(a.1.pattern) && !elsewhere then [Compiled(a.1, a.0)] else []
  }

  lemma RecordIsSeen(m: Manager, g: Globs, a: Addition, session: SessionId)
    ensures Visible(AfterRecord(m, g, a.0, a.1).0.rules, session) == Visible(m.rules, session) + Seen(g, a, session)
  {
    assert (m.rules + [Compiled(a.1, a.0)])[..|m.rules|] == m.rules;
  }

  lemma {:induction false} RelevantRulesAreVisible(m: Manager, g: Globs, adds: seq<Addition>, session: SessionId)
    ensures Visible(RecordAll(m, g, adds).rules, session)
         == Visible(RecordAll(m, g, Relevant(adds, session)).rules, session)
  {
    hide Visible, AfterRecord;
    if adds != [] {
      var front, last := adds[..|adds| - 1], adds[|adds| - 1];
      var kept := Relevant(front, session);
      RelevantRulesAreVisible(m, g, front, session);
      RecordIsSeen(RecordAll(m, g, front), g, last, session);
      RecordIsSeen(RecordAll(m, g, kept), g, last, session);
      assert (kept + [last])[..|kept|] == kept && kept + [] == kept;
      var seen := Visible(RecordAll(m, g, front).rules, session);
      assert seen + [] == seen;
    }
  }

  lemma {:induction false} RecordingTouchesOnlyRules(m: Manager, g: Globs, adds: seq<Addition>)
    ensures RecordAll(m, g, adds) == m.(rules := RecordAll(m, g, adds).rules)
  {
    if adds != [] { RecordingTouchesOnlyRules(m, g, adds[..|adds| - 1]); }
  }

  /** After any run of rule additions, a session's request is decided as if those for others had not been made. */
  lemma SessionsAreIsolated(m: Manager, g: Globs, adds: seq<Addition>, h: Hooks, ctx: Ctx, permission: string)
    ensures AfterCheck(RecordAll(m, g, adds), g, h, ctx, permission).1
         == AfterCheck(RecordAll(m, g, Relevant(adds, ctx.session)), g, h, ctx, permission).1
  {
    hide Evaluate, Visible;
    var all, some := RecordAll(m, g, adds), RecordAll(m, g, Relevant(adds, ctx.session));
    RelevantRulesAreVisible(m, g, adds, ctx.session);
    RecordingTouchesOnlyRules(m, g, adds);
    RecordingTouchesOnlyRules(m, g, Relevant(adds, ctx.session));
    forall p
      ensures Verdict(g, all.rules, ctx, p) == Verdict(g, some.rules, ctx, p)
    {
      OtherSessionsRulesAreInvisible(g, all.rules, ctx, p);
      OtherSessionsRulesAreInvisible(g, some.rules, ctx, p);
    }
  }

  // ----- a refused accept ---------------------------------------------------------------------

  /**
    A failed `accept_ask` leaves the manager as it was, except in one case: everything succeeded and only
    then the action turned out to be `Ask`.  The rule stays behind, and the ask too.
   */
  lemma FailedAcceptChangesNothing(m: Manager, g: Globs, id: AskId, scope: Scope, action: Action, stored: bool)
    requires AfterAccept(m, g, id, scope, action, stored).1.Err? && !(id in m.pending && id in m.held)
    ensures var ready := Wired(scope) && id in m.pending && g.compiles(m.pending[id].permission) && stored;
            var late := ready && action.Asking?;
            var r := AfterAccept(m, g, id, scope, action, stored).0;
            && (r == m <==> !late)
            && r == m.(rules := r.rules)
            && (late ==> r.rules == m.rules + [Compiled(Rule(m.pending[id].permission, Asking), scope)])
  {
    if Wired(scope) && id in m.pending && g.compiles(m.pending[id].permission) {
      var ask := m.pending[id];
      var rule := Compiled(Rule(ask.permission, action), scope);
      assert (m.pending - {id})[id := ask] == m.pending;
      var held := Held(ask, rule, false);
      assert m.held[id := held] - {id} == m.held && m.held[id := held][id := held.(pushed := true)] - {id} == m.held;
      assert m.rules + [rule] != m.rules;
    }
  }

  // ----- every ask is resolved once -----------------------------------------------------------

  datatype Step =
    | DoCheck(hooks: Hooks, ctx: Ctx, permission: string)
    | DoReply(id: AskId, decision: Decision)
    | DoCancel(id: AskId)
    | DoRecord(scope: Scope, rule: Rule)
    | DoTake(id: AskId)
    | DoBeginAccept(id: AskId, scope: Scope, action: Action)
    | DoFailAccept(id: AskId)      // the pattern does not compile or the write fails, and the ask is put back
    | DoPushRule(id: AskId)
    | DoFinishAccept(id: AskId)
    | DoDropAccept(id: AskId)      // the future is dropped while it waits, and the ask resolves to the default

  /** A step goes on with an `accept_ask` only if one is there. */
  predicate Possible(m: Manager, g: Globs, s: Step)
  {
    match s
    case DoFailAccept(id) => id in m.held && !m.held[id].pushed
    case DoPushRule(id) => id in m.held && !m.held[id].pushed && g.compiles(m.held[id].rule.rule.pattern)
    case DoFinishAccept(id) => id in m.held && m.held[id].pushed
    case DoDropAccept(id) => id in m.held && !m.held[id].pushed
    case _ => true
  }

  function Next(m: Manager, g: Globs, s: Step): Manager
    requires Possible(m, g, s)
  {
    match s
    case DoCheck(h, ctx, p) => AfterCheck(m, g, h, ctx, p).0
    case DoReply(id, d) => AfterReply(m, id, d).0
    case DoCancel(id) => AfterCancel(m, id).0
    case DoRecord(scope, rule) => AfterRecord(m, g, scope, rule).0
    case DoTake(id) => AfterTake(m, id).0
    case DoBeginAccept(id, scope, action) => BeginAccept(m, id, scope, action).0
    case DoFailAccept(id) => Release(m, id)
    case DoPushRule(id) => PushRule(m, id)
    case DoFinishAccept(id) => FinishAccept(m, id).0
    case DoDropAccept(id) => Settle(m, id, CANCELLED)
  }

  function Count(rs: seq<Resolution>, id: AskId): nat
  {
    if rs == [] then 0 else Count(rs[..|rs| - 1], id) + if rs[|rs| - 1].ask == id then 1 else 0
  }

  lemma CountSnoc(rs: seq<Resolution>, r: Resolution, id: AskId)
    ensures Count(rs + [r], id) == Count(rs, id) + if r.ask == id then 1 else 0
  {
    assert (rs + [r])[..|rs|] == rs;
  }

  /** Ask `id` is not made yet, or in exactly one of three places: pending, held, or resolved once. */
  ghost predicate Accounted(m: Manager, id: AskId)
  {
    && (id in m.pending || id in m.held ==> id < m.next)
    && !(id in m.pending && id in m.held)
    && Count(m.resolved, id) == if id < m.next && id !in m.pending && id !in m.held then 1 else 0
  }

  lemma StepAccounts(m: Manager, g: Globs, s: Step, id: AskId)
    requires Possible(m, g, s) && Accounted(m, id) && forall i: AskId :: Accounted(m, i)
    ensures Accounted(Next(m, g, s), id)
  {
    hide Count, Verdict;
    var n := Next(m, g, s);
    if n.resolved != m.resolved {
      var r := n.resolved[|m.resolved|];
      CountSnoc(m.resolved, r, id);
      assert n.resolved == m.resolved + [r];
    }
  }

  ghost predicate Reaches(m: Manager, g: Globs, steps: seq<Step>, r: Manager)
    decreases |steps|
  {
    if steps == [] then r == m else Possible(m, g, steps[0]) && Reaches(Next(m, g, steps[0]), g, steps[1..], r)
  }

  lemma {:induction false} RunAccounts(m: Manager, g: Globs, steps: seq<Step>, r: Manager)
    requires Reaches(m, g, steps, r) && forall id: AskId :: Accounted(m, id)
    ensures forall id: AskId :: Accounted(r, id)
    decreases |steps|
  {
    hide Accounted, Next;
    if steps != [] {
      forall id: AskId
        ensures Accounted(Next(m, g, steps[0]), id)
      {
        StepAccounts(m, g, steps[0], id);
      }
      RunAccounts(Next(m, g, steps[0]), g, steps[1..], r);
    }
  }

  /** In every run and every interleaving with `accept_ask`, each ask ever made is open or resolved exactly once. */
  lemma EveryAskResolvesOnce(g: Globs, steps: seq<Step>, r: Manager, id: AskId)
    requires Reaches(EMPTY, g, steps, r)
    ensures id < r.next <==> id in r.pending || id in r.held || Count(r.resolved, id) > 0
    ensures Count(r.resolved, id) <= 1
    ensures Count(r.resolved, id) == 1 ==> id !in r.pending && id !in r.held
  {
    RunAccounts(EMPTY, g, steps, r);
    assert Accounted(r, id);
  }
}
