/**
  The permission wrapper of detached turns, which nobody is there to answer: an ask is cancelled on the
  spot and decided by policy.
 */
module DetachedPermission {
  import opened Common
  import opened PermissionRules
  import opened PermissionManager

  datatype OnAsk = AllowIt | DenyIt

  // ----- requests that policy alone may not allow ---------------------------------------------

  function Lower(s: string): (r: string)
    ensures |r| == |s|
  {
    seq(|s|, i requires 0 <= i < |s| => if 'A' <= s[i] <= 'Z' then s[i] - 'A' + 'a' else s[i])
  }

  predicate StartsWith(s: string, prefix: string) { |prefix| <= |s| && s[..|prefix|] == prefix }

  predicate Contains(s: string, part: string) { exists i :: 0 <= i <= |s| - |part| && StartsWith(s[i..], part) }

  const DESTRUCTIVE: seq<string> := [
    "rm -r", "rm -f", "rmdir ", "sudo ", "mkfs", " dd ", "shutdown", "reboot", "chmod -r", "chown -r", "git push -f",
    "--force", "--delete", "--mirror", "reset --hard", "| sh", "|sh", "| bash", "|bash"]

  predicate Hardened(permission: string)
  {
    var lower := Lower(permission);
    StartsWith(lower, "web_fetch:")
    || (StartsWith(lower, "bash:") && exists i :: 0 <= i < |DESTRUCTIVE| && Contains(lower, DESTRUCTIVE[i]))
  }

  // ----- the wrapper --------------------------------------------------------------------------

  function Policy(onAsk: OnAsk, permission: string): Decision
  {
    if Hardened(permission) then Deny(Some("detached mode requires an explicit allow for this operation"))
    else if onAsk.AllowIt? then Allow
    else Deny(Some("detached mode auto-denied Ask"))
  }

  function AfterDetached(m: Manager, g: Globs, h: Hooks, onAsk: OnAsk, ctx: Ctx, permission: string)
    : (Manager, Decision)
  {
    var (checked, d) := AfterCheck(m, g, h, ctx, permission);
    if d.Pending? then (AfterCancel(checked, d.ask).0, Policy(onAsk, permission)) else (checked, d)
  }

  class DetachedPermissionManager {
    const inner: ConfigPermissionMgr
    const onAsk: OnAsk

    constructor (inner: ConfigPermissionMgr, onAsk: OnAsk)
      ensures this.inner == inner && this.onAsk == onAsk
    {
      this.inner, this.onAsk := inner, onAsk;
    }

    method Check(g: Globs, hooks: Hooks, ctx: Ctx, permission: string) returns (d: Decision)
      modifies inner
      ensures (inner.Value(), d) == AfterDetached(old(inner.Value()), g, hooks, onAsk, ctx, permission)
    {
      hide Hardened;
      d := inner.Check(g, hooks, ctx, permission);
      if d.Pending? {
        var _ := inner.CancelAsk(d.ask);
        d := Policy(onAsk, permission);
      }
    }
  }

  /** The hooks handed back, as their decision, an ask that is somebody else's. */
  predicate HooksNameAnAsk(m: Manager, h: Hooks) { h.Decided? && h.decision.Pending? && h.decision.ask in m.pending }

  /**
    A detached check never leaves the caller waiting and adds no rule.  It leaves the open asks as they
    were exactly when the hooks do not answer with an ask already open, which it would cancel.  An ask of its
    own is closed at once, and nobody was waiting on it.
   */
  lemma DetachedNeverWaits(m: Manager, g: Globs, h: Hooks, onAsk: OnAsk, ctx: Ctx, permission: string)
    requires forall id: AskId :: Accounted(m, id)
    ensures var (r, d) := AfterDetached(m, g, h, onAsk, ctx, permission);
            && !d.Pending?
            && r.rules == m.rules && r.held == m.held
            && (r.pending == m.pending <==> !HooksNameAnAsk(m, h))
            && (r.next > m.next ==> r.resolved == m.resolved + [Resolution(m.next, CANCELLED, false)])
  {
    hide Verdict, Hardened, Count;
    assert Accounted(m, m.next);
    var (checked, d) := AfterCheck(m, g, h, ctx, permission);
    if d.Pending? {
      if checked.next > m.next {
        assert checked.pending - {m.next} == m.pending;
      } else if d.ask in m.pending {
        assert d.ask !in (m.pending - {d.ask});
      }
    }
  }

  /** With hooks that decide nothing: what the rules allow or deny stands, and policy answers what they would ask. */
  lemma DetachedFollowsTheRules(m: Manager, g: Globs, h: Hooks, onAsk: OnAsk, ctx: Ctx, permission: string)
    requires AfterHooks(h, permission).Ok?
    ensures var d := AfterDetached(m, g, h, onAsk, ctx, permission).1;
            var verdict := Verdict(g, m.rules, ctx, AfterHooks(h, permission).value);
            && (d.Allow? <==> verdict.Allowing? || (verdict.Asking? && onAsk.AllowIt? && !Hardened(permission)))
            && (verdict.Denying? ==> d == RuleDenial(AfterHooks(h, permission).value))
            && (verdict.Asking? && Hardened(permission) ==>
                  d == Deny(Some("detached mode requires an explicit allow for this operation")))
            && (verdict.Asking? && onAsk.DenyIt? && !Hardened(permission) ==>
                  d == Deny(Some("detached mode auto-denied Ask")))
  {
    hide Verdict, Hardened;
  }

  // ----- which requests are hardened ------------------------------------------------------------

  /** The command holds a destructive phrase somewhere. */
  ghost predicate Holds(command: string, before: string, phrase: string, after: string)
  {
    phrase in DESTRUCTIVE && Lower(command) == before + phrase + after
  }

  lemma ContainsIff(s: string, part: string)
    ensures Contains(s, part) <==> exists before, after :: s == before + part + after
  {
    if Contains(s, part) {
      var i :| 0 <= i <= |s| - |part| && StartsWith(s[i..], part);
      assert s == s[..i] + part + s[i + |part|..];
    }
    if before, after :| s == before + part + after {
      var i := |before|;
      assert s[i..] == part + after;
      assert StartsWith(s[i..], part);
    }
  }

  /** Whatever stands around it, and in whatever case: every fetch, and every command with a destructive phrase. */
  lemma HardenedIff(permission: string)
    ensures Hardened(permission) <==>
              || StartsWith(Lower(permission), "web_fetch:")
              || (StartsWith(Lower(permission), "bash:")
                  && exists before, phrase, after :: Holds(permission, before, phrase, after))
  {
    var lower := Lower(permission);
    hide DESTRUCTIVE, Lower, Contains;
    if i :| 0 <= i < |DESTRUCTIVE| && Contains(lower, DESTRUCTIVE[i]) {
      ContainsIff(lower, DESTRUCTIVE[i]);
      var before, after :| lower == before + DESTRUCTIVE[i] + after;
      assert Holds(permission, before, DESTRUCTIVE[i], after);
    }
    if before, phrase, after :| Holds(permission, before, phrase, after) {
      ContainsIff(lower, phrase);
    }
  }

  lemma CaseIsIgnored(permission: string)
    ensures Lower(Lower(permission)) == Lower(permission)
    ensures Hardened(Lower(permission)) <==> Hardened(permission)
  {
    hide DESTRUCTIVE, Contains;
  }
}
