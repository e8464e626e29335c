/**
  What the permission manager's answers come to: which decision an ask receives and from which call, which
  rule an accepted ask leaves behind, and what that rule decides afterwards.
 */
module PermissionOutcomes {
  import opened Common
  import opened PermissionRules
  import opened PermissionManager

  // ----- an accepted ask ----------------------------------------------------------------------

  /**
    `accept_ask` succeeds exactly if the scope is one that rules are kept for, the ask is still there, its
    pattern compiles, the decision is stored and the action decides.  It then resolves that ask and no
    other, by the action, and adds one rule: the ask's permission, with that action, in that scope.
   */
  lemma AcceptDecidesByItsAction(m: Manager, g: Globs, id: AskId, scope: Scope, action: Action, stored: bool)
    requires !(id in m.pending && id in m.held)
    ensures var (now, r) := AfterAccept(m, g, id, scope, action, stored);
            var kept := scope.Global? || scope.Session?;
            var ready := id in m.pending && g.compiles(m.pending[id].permission) && stored;
            && (r.Ok? <==> kept && ready && action != Asking)
            && (r.Ok? ==> now.pending == m.pending - {id} && now.held == m.held && now.next == m.next)
            && (r.Ok? ==> now.rules == m.rules + [Compiled(Rule(m.pending[id].permission, action), scope)])
            && (r.Ok? ==> |now.resolved| == |m.resolved| + 1 && now.resolved[..|m.resolved|] == m.resolved)
            && (r.Ok? ==> now.resolved[|m.resolved|].ask == id)
            && (r.Ok? ==> now.resolved[|m.resolved|].received == m.pending[id].awaited)
            && (r.Ok? ==> (now.resolved[|m.resolved|].decision == Allow <==> action == Allowing))
            && (r.Ok? ==> (now.resolved[|m.resolved|].decision == Deny(None) <==> action == Denying))
  {
    if Wired(scope) && id in m.pending {
      var held := Held(m.pending[id], Compiled(Rule(m.pending[id].permission, action), scope), false);
      assert m.held[id := held] - {id} == m.held && m.held[id := held][id := held.(pushed := true)] - {id} == m.held;
    }
  }

  lemma {:induction false} LaterRulesAreSilent(g: Globs, rules: seq<Compiled>, more: seq<Compiled>, ctx: Ctx, p: string)
    requires forall i :: 0 <= i < |more| ==> !Applies(g, more[i], ctx, p)
    ensures Evaluate(g, rules + more, ctx, p) == Evaluate(g, rules, ctx, p)
  {
    hide Applies;
    if more == [] {
      assert rules + more == rules;
    } else {
      var front := more[..|more| - 1];
      assert (rules + more)[..|rules + more| - 1] == rules + front;
      LaterRulesAreSilent(g, rules, front, ctx, p);
    }
  }

  /** The rule a request is decided by: the given one, if it applies and none after it does. */
  lemma RuleStands(g: Globs, rules: seq<Compiled>, rule: Compiled, more: seq<Compiled>, ctx: Ctx, p: string)
    requires rule.scope == Global || rule.scope == Session(ctx.session)
    requires g.matches(rule.rule.pattern, p)
    requires forall i :: 0 <= i < |more| ==> !Applies(g, more[i], ctx, p)
    ensures Verdict(g, rules + [rule] + more, ctx, p) == rule.rule.action
  {
    LaterRulesAreSilent(g, rules + [rule], more, ctx, p);
    assert (rules + [rule])[|rules|] == rule;
  }

  /**
    An accepted ask decides the same request from then on: until a later rule applies, the session it was
    accepted for, or every session, is answered by its action whatever the pattern matches.
   */
  lemma AcceptedAskGoesOnDeciding(m: Manager, g: Globs, id: AskId, scope: Scope, action: Action, stored: bool,
                                  later: Manager, more: seq<Compiled>, ctx: Ctx, p: string)
    requires !(id in m.pending && id in m.held) && AfterAccept(m, g, id, scope, action, stored).1.Ok?
    requires later.rules == AfterAccept(m, g, id, scope, action, stored).0.rules + more
    requires forall i :: 0 <= i < |more| ==> !Applies(g, more[i], ctx, p)
    requires (scope == Global || scope == Session(ctx.session)) && g.matches(m.pending[id].permission, p)
    ensures action == Allowing || action == Denying
    ensures AfterCheck(later, g, NoHooks, ctx, p).0 == later
    ensures action == Allowing ==> AfterCheck(later, g, NoHooks, ctx, p).1 == Allow
    ensures action == Denying ==>
              AfterCheck(later, g, NoHooks, ctx, p).1 == Deny(Some("Permission denied by ruleset for " + p))
  {
    AcceptDecidesByItsAction(m, g, id, scope, action, stored);
    RuleStands(g, m.rules, Compiled(Rule(m.pending[id].permission, action), scope), more, ctx, p);
    hide AfterAccept, Verdict;
  }

  // ----- a check ------------------------------------------------------------------------------

  /** What the request is after the hooks: theirs to decide, to change, or to leave alone. */
  predicate Leaves(h: Hooks, permission: string, p: string)
  {
    (h == NoHooks && p == permission) || (h == Passed(None) && p == permission) || h == Passed(Some(p))
  }

  predicate LastToApply(g: Globs, rules: seq<Compiled>, ctx: Ctx, p: string, i: nat)
    requires i < |rules|
  {
    Applies(g, rules[i], ctx, p) && forall j :: i < j < |rules| ==> !Applies(g, rules[j], ctx, p)
  }

  /** The answer a rule makes. */
  function ByRule(m: Manager, rule: Compiled, p: string): Decision
  {
    if rule.rule.action == Allowing then Allow
    else if rule.rule.action == Denying then Deny(Some("Permission denied by ruleset for " + p))
    else Pending(m.next)
  }

  /** Rules apply everywhere or in their own session; those of a workspace or an agent never do. */
  lemma AppliesIff(g: Globs, r: Compiled, ctx: Ctx, p: string)
    ensures Applies(g, r, ctx, p) <==>
              (r.scope == Global || r.scope == Session(ctx.session)) && g.matches(r.rule.pattern, p)
  {
  }

  /**
    A request the hooks leave to the rules is decided by the last rule that applies, and where none does it
    is allowed in danger mode and asked about in the other two.
   */
  lemma CheckDecides(m: Manager, g: Globs, h: Hooks, ctx: Ctx, permission: string, p: string)
    requires Leaves(h, permission, p)
    ensures var (now, d) := AfterCheck(m, g, h, ctx, permission);
            && (forall i | 0 <= i < |m.rules| && LastToApply(g, m.rules, ctx, p, i) :: d == ByRule(m, m.rules[i], p))
            && (d != Pending(m.next) ==> now == m)
            && (d == Pending(m.next) ==> now == m.(pending := now.pending, next := m.next + 1))
            && (d == Pending(m.next) ==> now.pending == m.pending[m.next := Ask(ctx, p, false)])
    ensures var (now, d) := AfterCheck(m, g, h, ctx, permission);
            var silent := forall i :: 0 <= i < |m.rules| ==> !Applies(g, m.rules[i], ctx, p);
            && (silent && ctx.mode == Danger ==> now == m && d == Allow)
            && (silent && ctx.mode != Danger ==> d == Pending(m.next))
  {
    hide Applies;
  }

  lemma HooksDecide(m: Manager, g: Globs, ctx: Ctx, permission: string, d: Decision, feedback: Option<string>)
    ensures AfterCheck(m, g, Decided(d), ctx, permission) == (m, d)
    ensures AfterCheck(m, g, Refused(feedback), ctx, permission) == (m, Deny(feedback))
  {
  }

  /** The receiving half of a pending ask is handed out once, to the first to take it. */
  lemma TakenOnce(m: Manager, id: AskId)
    ensures var (now, taken) := AfterTake(m, id);
            && (taken <==> id in m.pending && !m.pending[id].awaited)
            && (id in m.pending ==> now == m.(pending := m.pending[id := m.pending[id].(awaited := true)]))
            && (id !in m.pending ==> now == m)
            && AfterTake(now, id) == (now, false)
  {
    if id in m.pending && m.pending[id].awaited {
      assert m.pending[id := m.pending[id].(awaited := true)] == m.pending;
    }
  }

  // ----- whole runs -----------------------------------------------------------------------------

  /** Step `b` of the run is the `accept_ask` that took ask `id` out, to become `rule`, and it has not put it back. */
  ghost predicate TakenBy(g: Globs, steps: seq<Step>, id: AskId, rule: Compiled, b: nat, m: Manager)
  {
    && b < |steps| && steps[b] == DoBeginAccept(id, rule.scope, rule.rule.action)
    && Reaches(EMPTY, g, steps[..b], m) && id in m.pending && m.pending[id].permission == rule.rule.pattern
    && DoFailAccept(id) !in steps[b..]
  }

  ghost predicate Begun(g: Globs, steps: seq<Step>, id: AskId, rule: Compiled)
  {
    exists b: nat, m: Manager :: TakenBy(g, steps, id, rule, b, m)
  }

  ghost predicate IsPending(g: Globs, steps: seq<Step>, id: AskId)
  {
    exists m: Manager :: Reaches(EMPTY, g, steps, m) && id in m.pending
  }

  ghost predicate IsHeld(g: Globs, steps: seq<Step>, id: AskId)
  {
    exists m: Manager :: Reaches(EMPTY, g, steps, m) && id in m.held
  }

  /** Step `n` found the ask open and gave it its decision. */
  ghost predicate ClosedAt(g: Globs, steps: seq<Step>, r: Resolution, n: nat)
  {
    n < |steps| &&
    match steps[n]
    case DoReply(id, d) => id == r.ask && IsPending(g, steps[..n], id) && r.decision == d
    case DoCancel(id) => id == r.ask && IsPending(g, steps[..n], id) && r.decision == Deny(Some("ask cancelled"))
    case DoDropAccept(id) => id == r.ask && IsHeld(g, steps[..n], id) && r.decision == Deny(Some("ask cancelled"))
    case DoFinishAccept(id) => id == r.ask && IsHeld(g, steps[..n], id) && AcceptedAs(g, steps[..n], id, r.decision)
    case _ => false
  }

  /** An `accept_ask` for `id` is under way whose action is this decision. */
  ghost predicate AcceptedAs(g: Globs, steps: seq<Step>, id: AskId, d: Decision)
  {
    exists rule: Compiled :: Begun(g, steps, id, rule)
      && ((rule.rule.action == Allowing && d == Allow) || (rule.rule.action == Denying && d == Deny(None)))
  }

  ghost predicate Closed(g: Globs, steps: seq<Step>, r: Resolution) { exists n: nat :: ClosedAt(g, steps, r, n) }

  ghost predicate Story(g: Globs, steps: seq<Step>, m: Manager)
  {
    && (forall k :: 0 <= k < |m.resolved| ==> Closed(g, steps, m.resolved[k]))
    && (forall id :: id in m.held ==> Begun(g, steps, id, m.held[id].rule))
  }

  lemma ClosedStays(g: Globs, steps: seq<Step>, s: Step, r: Resolution)
    requires Closed(g, steps, r)
    ensures Closed(g, steps + [s], r)
  {
    hide AcceptedAs, IsPending, IsHeld;
    var n: nat :| ClosedAt(g, steps, r, n);
    assert (steps + [s])[n] == steps[n] && (steps + [s])[..n] == steps[..n];
    assert ClosedAt(g, steps + [s], r, n);
  }

  lemma BegunStays(g: Globs, steps: seq<Step>, s: Step, id: AskId, rule: Compiled)
    requires Begun(g, steps, id, rule) && s != DoFailAccept(id)
    ensures Begun(g, steps + [s], id, rule)
  {
    hide Reaches;
    var b: nat, m: Manager :| TakenBy(g, steps, id, rule, b, m);
    var all := steps + [s];
    assert all[b] == steps[b] && all[..b] == steps[..b] && all[b..] == steps[b..] + [s];
    assert TakenBy(g, all, id, rule, b, m);
  }

  lemma BeginBegins(g: Globs, steps: seq<Step>, m: Manager, id: AskId, scope: Scope, action: Action)
    requires Reaches(EMPTY, g, steps, m) && id in m.pending
    ensures var rule := Compiled(Rule(m.pending[id].permission, action), scope);
            Begun(g, steps + [DoBeginAccept(id, scope, action)], id, rule)
  {
    hide Reaches;
    var s := DoBeginAccept(id, scope, action);
    var all := steps + [s];
    assert all[|steps|] == s && all[..|steps|] == steps && all[|steps|..] == [s];
    assert TakenBy(g, all, id, Compiled(Rule(m.pending[id].permission, action), scope), |steps|, m);
  }

  /** The step that adds a resolution is the one that decides it. */
  lemma StepCloses(g: Globs, steps: seq<Step>, m: Manager, s: Step)
    requires Reaches(EMPTY, g, steps, m) && Possible(m, g, s) && Story(g, steps, m)
    requires Next(m, g, s).resolved != m.resolved
    ensures |Next(m, g, s).resolved| == |m.resolved| + 1 && Next(m, g, s).resolved[..|m.resolved|] == m.resolved
    ensures Closed(g, steps + [s], Next(m, g, s).resolved[|m.resolved|])
  {
    hide Begun, Verdict, Closed, Reaches;
    var n, all := Next(m, g, s), steps + [s];
    var r := n.resolved[|m.resolved|];
    assert all[|steps|] == s && all[..|steps|] == steps;
    assert r.ask in m.pending ==> IsPending(g, steps, r.ask);
    assert r.ask in m.held ==> IsHeld(g, steps, r.ask);
    if s.DoFinishAccept? {
      assert Begun(g, steps, s.id, m.held[s.id].rule);
      assert AcceptedAs(g, steps, s.id, r.decision);
    }
    hide AcceptedAs, IsPending, IsHeld;
    assert ClosedAt(g, all, r, |steps|);
    ClosedHere(g, all, r, |steps|);
  }

  lemma ClosedHere(g: Globs, steps: seq<Step>, r: Resolution, n: nat)
    requires ClosedAt(g, steps, r, n)
    ensures Closed(g, steps, r)
  {
  }

  lemma StepHolds(g: Globs, steps: seq<Step>, m: Manager, s: Step, id: AskId)
    requires Reaches(EMPTY, g, steps, m) && Possible(m, g, s) && Story(g, steps, m) && id in Next(m, g, s).held
    ensures Begun(g, steps + [s], id, Next(m, g, s).held[id].rule)
  {
    hide Begun, Verdict, Closed, Reaches;
    if id in m.held && Next(m, g, s).held[id].rule == m.held[id].rule {
      assert s != DoFailAccept(id);
      BegunStays(g, steps, s, id, m.held[id].rule);
    } else {
      BeginBegins(g, steps, m, id, s.scope, s.action);
    }
  }

  lemma StoryStep(g: Globs, steps: seq<Step>, m: Manager, s: Step)
    requires Reaches(EMPTY, g, steps, m) && Possible(m, g, s) && Story(g, steps, m)
    ensures Story(g, steps + [s], Next(m, g, s))
  {
    hide Begun, Closed, Reaches, Next;
    var n := Next(m, g, s);
    forall k | 0 <= k < |m.resolved|
      ensures Closed(g, steps + [s], m.resolved[k])
    {
      ClosedStays(g, steps, s, m.resolved[k]);
    }
    if n.resolved != m.resolved {
      StepCloses(g, steps, m, s);
      assert forall k :: 0 <= k < |m.resolved| ==> n.resolved[k] == n.resolved[..|m.resolved|][k];
    }
    forall id | id in n.held
      ensures Begun(g, steps + [s], id, n.held[id].rule)
    {
      StepHolds(g, steps, m, s, id);
    }
  }

  lemma {:induction false} ReachesThrough(m: Manager, g: Globs, xs: seq<Step>, s: Step, r: Manager)
      returns (mid: Manager)
    requires Reaches(m, g, xs + [s], r)
    ensures Reaches(m, g, xs, mid) && Possible(mid, g, s) && r == Next(mid, g, s)
    decreases |xs|
  {
    hide Next, Possible;
    if xs == [] {
      assert xs + [s] == [s] && [s][1..] == [];
      mid := m;
    } else {
      assert (xs + [s])[1..] == xs[1..] + [s] && (xs + [s])[0] == xs[0];
      mid := ReachesThrough(Next(m, g, xs[0]), g, xs[1..], s, r);
    }
  }

  lemma {:induction false} RunStory(g: Globs, steps: seq<Step>, r: Manager)
    requires Reaches(EMPTY, g, steps, r)
    ensures Story(g, steps, r)
  {
    hide Begun, Closed, Next, Possible;
    if steps != [] {
      var front, last := steps[..|steps| - 1], steps[|steps| - 1];
      assert steps == front + [last];
      var mid := ReachesThrough(EMPTY, g, front, last, r);
      RunStory(g, front, mid);
      StoryStep(g, front, mid, last);
    }
  }

  /**
    In every run and every interleaving, each resolution carries the decision of the call that found its ask
    open and closed it: the reply's, the cancellation's, or that of the action it was accepted with.
   */
  lemma EveryResolutionIsItsCalls(g: Globs, steps: seq<Step>, r: Manager, k: nat)
    requires Reaches(EMPTY, g, steps, r) && k < |r.resolved|
    ensures exists n: nat :: ClosedAt(g, steps, r.resolved[k], n)
  {
    hide Reaches, ClosedAt, Begun;
    RunStory(g, steps, r);
    assert Closed(g, steps, r.resolved[k]);
  }
}
