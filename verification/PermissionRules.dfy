/**
  Permission rules: last match wins among the rules whose scope covers the session.  Glob compilation and
  matching are left to arbitrary functions.
 */
module PermissionRules {
  import opened Common

  type SessionId = string

  datatype Action = Allowing | Denying | Asking

  datatype Scope = Global | Workspace(path: string) | Agent(agent: string) | Session(session: SessionId)

  datatype Mode = ReadOnly | WorkspaceWrite | Danger

  datatype Ctx = Ctx(session: SessionId, mode: Mode)

  datatype Rule = Rule(pattern: string, action: Action)

  /** A rule whose pattern compiled, with where it applies. */
  datatype Compiled = Compiled(rule: Rule, scope: Scope)

  /** The glob engine: which patterns compile, and what they match. */
  datatype Globs = Globs(compiles: string -> bool, matches: (string, string) -> bool)

  predicate InScope(r: Compiled, ctx: Ctx)
  {
    match r.scope
    case Global => true
    case Session(id) => id == ctx.session
    case Workspace(_) => false
    case Agent(_) => false
  }

  predicate Applies(g: Globs, r: Compiled, ctx: Ctx, permission: string)
  {
    InScope(r, ctx) && g.matches(r.rule.pattern, permission)
  }

  /** `evaluate`: the last rule that applies. */
  function Evaluate(g: Globs, rules: seq<Compiled>, ctx: Ctx, permission: string): (r: Option<Compiled>)
    ensures r.Some? ==> exists i :: 0 <= i < |rules| && rules[i] == r.value && Applies(g, rules[i], ctx, permission)
                                 && forall j :: i < j < |rules| ==> !Applies(g, rules[j], ctx, permission)
    ensures r.None? ==> forall i :: 0 <= i < |rules| ==> !Applies(g, rules[i], ctx, permission)
  {
    if rules == [] then None
    else
      var last := |rules| - 1;
      if Applies(g, rules[last], ctx, permission) then Some(rules[last])
      else Evaluate(g, rules[..last], ctx, permission)
  }

  /** The backward search of the source. */
  method FindLast(g: Globs, rules: seq<Compiled>, ctx: Ctx, permission: string) returns (r: Option<Compiled>)
    ensures r == Evaluate(g, rules, ctx, permission)
  {
    var i := |rules|;
    assert rules[..i] == rules;
    while i > 0
      invariant i <= |rules|
      invariant Evaluate(g, rules, ctx, permission) == Evaluate(g, rules[..i], ctx, permission)
    {
      i := i - 1;
      assert rules[..i + 1][..i] == rules[..i];
      if Applies(g, rules[i], ctx, permission) { return Some(rules[i]); }
    }
    return None;
  }

  function Fallback(mode: Mode): Action { if mode.Danger? then Allowing else Asking }

  /** What the rules say, the mode deciding when they are silent. */
  function Verdict(g: Globs, rules: seq<Compiled>, ctx: Ctx, permission: string): Action
  {
    var r := Evaluate(g, rules, ctx, permission);
    if r.Some? then r.value.rule.action else Fallback(ctx.mode)
  }

  // ----- sessions do not see each other's rules -----------------------------------------------

  /** The rules that some session's requests can be decided by: not scoped elsewhere. */
  function Visible(rules: seq<Compiled>, session: SessionId): seq<Compiled>
  {
    if rules == [] then []
    else
      var last := rules[|rules| - 1];
      Visible(rules[..|rules| - 1],
              session) + if last.scope.Session? && last.scope.session != session then [] else [last]
  }

  /** Deleting all rules scoped to other sessions changes no decision. */
  lemma {:induction false} OtherSessionsRulesAreInvisible(g: Globs, rules: seq<Compiled>, ctx: Ctx, permission: string)
    ensures Evaluate(g, rules, ctx, permission) == Evaluate(g, Visible(rules, ctx.session), ctx, permission)
  {
    if rules != [] {
      var front, last := rules[..|rules| - 1], rules[|rules| - 1];
      OtherSessionsRulesAreInvisible(g, front, ctx, permission);
      assert Visible(front, ctx.session) + [] == Visible(front, ctx.session);
      assert (Visible(front, ctx.session) + [last])[..|Visible(front, ctx.session)|] == Visible(front, ctx.session);
    }
  }
}
