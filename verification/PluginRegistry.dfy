/**
  What an installation comes to, told from the calls the plugins make: which handlers stand in which chain,
  which tools and agents there are, whose provider is used, and what a refusal names.
 */
module PluginRegistry {
  import opened Common
  import opened HookChains
  import opened PluginInstall

  // ----- handlers -----------------------------------------------------------------------------

  /** Call `n` of the plugin registers a handler: a hook of a kind its manifest declares. */
  predicate Hooks<H>(p: Plugin<H>, n: nat) { n < |p.calls| && p.calls[n].OnHook? && p.calls[n].kind in p.hooks }

  ghost function HooksBefore<H>(p: Plugin<H>, n: nat): set<nat> { set m: nat | m < n && Hooks(p, m) :: m }

  /** The entry that call makes: the handlers registered before it are its index. */
  ghost function EntryOf<H>(p: Plugin<H>, n: nat): Entry<H>
    requires Hooks(p, n)
  {
    var c := p.calls[n];
    Entry(p.id, c.priority, |HooksBefore(p, n)|, c.kind, c.func)
  }

  lemma {:induction false} IndexCounts<H>(p: Plugin<H>, n: nat)
    requires n <= |p.calls|
    ensures NextIndex(p, n) == |HooksBefore(p, n)|
  {
    if n > 0 {
      IndexCounts(p, n - 1);
      var before := HooksBefore(p, n - 1);
      assert HooksBefore(p, n) == if Hooks(p, n - 1) then before + {n - 1} else before;
    }
  }

  ghost predicate Makes<H>(p: Plugin<H>, m: nat, k: HookKind, e: Entry<H>)
  {
    Hooks(p, m) && p.calls[m].kind == k && e == EntryOf(p, m)
  }

  ghost predicate MadeBy<H>(p: Plugin<H>, n: nat, k: HookKind, e: Entry<H>)
  {
    exists m: nat :: m < n && Makes(p, m, k, e)
  }

  lemma {:induction false} EntriesAreMade<H>(p: Plugin<H>, n: nat, k: HookKind, e: Entry<H>)
    requires n <= |p.calls|
    ensures e in EntriesTo(p, n, k) <==> MadeBy(p, n, k, e)
  {
    hide Makes;
    if n > 0 {
      EntriesAreMade(p, n - 1, k, e);
      EntryMade(p, n - 1, k, e);
      if MadeBy(p, n, k, e) {
        var m: nat :| m < n && Makes(p, m, k, e);
        assert m < n - 1 ==> MadeBy(p, n - 1, k, e);
      }
    }
  }

  lemma EntryMade<H>(p: Plugin<H>, n: nat, k: HookKind, e: Entry<H>)
    requires n < |p.calls|
    ensures e in EntriesTo(p, n + 1, k) <==> e in EntriesTo(p, n, k) || Makes(p, n, k, e)
  {
    IndexCounts(p, n);
    hide NextIndex, HooksBefore;
  }

  ghost predicate Registered<H>(ps: seq<Plugin<H>>, k: HookKind, e: Entry<H>)
  {
    exists i: nat, m: nat :: i < |ps| && m < |ps[i].calls| && Makes(ps[i], m, k, e)
  }

  lemma {:induction false} MergedIsRegistered<H>(ps: seq<Plugin<H>>, k: HookKind, e: Entry<H>)
    ensures e in Merged(ps, k) <==> Registered(ps, k, e)
  {
    hide Makes, EntriesTo;
    if ps != [] {
      var front, p := ps[..|ps| - 1], ps[|ps| - 1];
      MergedIsRegistered(front, k, e);
      EntriesAreMade(p, |p.calls|, k, e);
      if MadeBy(p, |p.calls|, k, e) {
        var m: nat :| m < |p.calls| && Makes(p, m, k, e);
        assert Makes(ps[|ps| - 1], m, k, e);
      }
      if Registered(front, k, e) {
        var i: nat, m: nat :| i < |front| && m < |front[i].calls| && Makes(front[i], m, k, e);
        assert Makes(ps[i], m, k, e);
      }
      if Registered(ps, k, e) {
        var i: nat, m: nat :| i < |ps| && m < |ps[i].calls| && Makes(ps[i], m, k, e);
        assert i < |front| ==> Makes(front[i], m, k, e);
      }
    }
  }

  /**
    After an installation the chain of a kind holds one entry for every declared hook of that kind that any
    plugin registered, with its priority, its plugin and its handler, and no other entry.
   */
  lemma ChainsHoldTheHooks<H>(ps: seq<Plugin<H>>, k: HookKind, e: Entry<H>)
    requires Installable(ps)
    ensures e in Sort(Merged(ps, k)) <==> Registered(ps, k, e)
    ensures DistinctKeys(Sort(Merged(ps, k)))
  {
    hide Sort, Registered, AllTools, Merged;
    var merged := Merged(ps, k);
    MergedIsRegistered(ps, k, e);
    MergedKeys(ps, k);
    SortConserves(merged);
    KeysSurvive(merged, Sort(merged));
    assert e in multiset(Sort(merged)) <==> e in multiset(merged);
  }

  // ----- tools and agents ---------------------------------------------------------------------

  function ToolNames<H>(calls: seq<Call<H>>): seq<string>
  {
    if calls == [] then [] else (if calls[0].AddTool? then [calls[0].name] else []) + ToolNames(calls[1..])
  }

  function AgentNames<H>(calls: seq<Call<H>>): seq<string>
  {
    if calls == [] then [] else (if calls[0].AddAgent? then [calls[0].agent] else []) + AgentNames(calls[1..])
  }

  lemma {:induction false} NamesSnoc<H>(calls: seq<Call<H>>, c: Call<H>)
    ensures ToolNames(calls + [c]) == ToolNames(calls) + if c.AddTool? then [c.name] else []
    ensures AgentNames(calls + [c]) == AgentNames(calls) + if c.AddAgent? then [c.agent] else []
  {
    if calls == [] {
      assert calls + [c] == [c] && [c][1..] == [];
    } else {
      assert (calls + [c])[1..] == calls[1..] + [c];
      NamesSnoc(calls[1..], c);
    }
  }

  lemma {:induction false} NamesTo<H>(p: Plugin<H>, n: nat)
    requires n <= |p.calls|
    ensures ToolsTo(p, n) == if p.mayAddTools then ToolNames(p.calls[..n]) else []
    ensures AgentsTo(p, n) == if p.mayAddAgents then AgentNames(p.calls[..n]) else []
  {
    if n > 0 {
      NamesTo(p, n - 1);
      assert p.calls[..n] == p.calls[..n - 1] + [p.calls[n - 1]];
      NamesSnoc(p.calls[..n - 1], p.calls[n - 1]);
    }
  }

  function ToolLists<H>(ps: seq<Plugin<H>>): seq<seq<string>>
  {
    seq(|ps|, i requires 0 <= i < |ps| => if ps[i].mayAddTools then ToolNames(ps[i].calls) else [])
  }

  function AgentLists<H>(ps: seq<Plugin<H>>): seq<seq<string>>
  {
    seq(|ps|, i requires 0 <= i < |ps| => if ps[i].mayAddAgents then AgentNames(ps[i].calls) else [])
  }

  /** Tools and agents are those the plugins add, of every plugin that may, in the order of list and calls. */
  lemma {:induction false} ToolsAndAgents<H>(ps: seq<Plugin<H>>)
    ensures AllTools(ps) == Flatten(ToolLists(ps))
    ensures AllAgents(ps) == Flatten(AgentLists(ps))
  {
    hide ToolNames, AgentNames, Flatten, ToolsTo, AgentsTo;
    if ps == [] {
      assert AllTools(ps) == [] && ToolLists(ps) == [] && AgentLists(ps) == [];
      FlattenNothing<string>();
    } else {
      var front, p := ps[..|ps| - 1], ps[|ps| - 1];
      ToolsAndAgents(front);
      NamesTo(p, |p.calls|);
      assert p.calls[..|p.calls|] == p.calls;
      var tools := if p.mayAddTools then ToolNames(p.calls) else [];
      var agents := if p.mayAddAgents then AgentNames(p.calls) else [];
      assert ToolLists(ps) == ToolLists(front) + [tools] && AgentLists(ps) == AgentLists(front) + [agents];
      FlattenSnoc(ToolLists(front), tools);
      FlattenSnoc(AgentLists(front), agents);
    }
  }

  lemma FlattenNothing<T>()
    ensures Flatten<T>([]) == []
  {
  }

  // ----- the provider -------------------------------------------------------------------------

  predicate Provides<H>(p: Plugin<H>, n: nat) { n < |p.calls| && p.mayProvide && p.calls[n].SetProvider? }

  lemma {:induction false} LastProviderCounts<H>(p: Plugin<H>, n: nat)
    requires n <= |p.calls|
    ensures forall m: nat | m < n && Provides(p, m) && (forall l :: m < l < n ==> !Provides(p, l)) ::
              ProviderTo(p, n) == Some(p.calls[m].provider)
    ensures ProviderTo(p, n).None? <==> forall m: nat :: m < n ==> !Provides(p, m)
  {
    if n > 0 {
      LastProviderCounts(p, n - 1);
      assert Provides(p, n - 1) <==> p.calls[n - 1].SetProvider? && Declared(p, p.calls[n - 1]);
    }
  }

  /** Plugin `i` is the first that provides, and call `m` the last by which it does. */
  ghost predicate Wins<H>(ps: seq<Plugin<H>>, i: nat, m: nat)
  {
    && i < |ps| && Provides(ps[i], m) && (forall l :: m < l < |ps[i].calls| ==> !Provides(ps[i], l))
    && forall j :: 0 <= j < i ==> Silent(ps[j])
  }

  ghost predicate Silent<H>(p: Plugin<H>) { forall l: nat :: l < |p.calls| ==> !Provides(p, l) }

  lemma {:induction false} FirstOfPlugins<H>(ps: seq<Plugin<H>>, i: nat)
    requires i <= |ps| && forall j :: 0 <= j < i ==> ProviderOf(ps[j]).None?
    ensures i < |ps| && ProviderOf(ps[i]).Some? ==> FirstProvider(ps) == ProviderOf(ps[i])
    ensures i == |ps| ==> FirstProvider(ps).None?
  {
    hide ProviderOf;
    if ps != [] {
      var front := ps[..|ps| - 1];
      FirstOfPlugins(front, if i < |front| then i else |front|);
    }
  }

  lemma SilentIff<H>(p: Plugin<H>)
    ensures Silent(p) <==> ProviderOf(p).None?
  {
    LastProviderCounts(p, |p.calls|);
  }

  /** The provider used is the last that the first providing plugin set. */
  lemma FirstPluginProvides<H>(ps: seq<Plugin<H>>, i: nat, m: nat)
    requires Wins(ps, i, m)
    ensures FirstProvider(ps) == Some(ps[i].calls[m].provider)
  {
    LastProviderCounts(ps[i], |ps[i].calls|);
    hide Silent, FirstProvider, ProviderTo;
    forall j | 0 <= j < i
      ensures ProviderOf(ps[j]).None?
    {
      SilentIff(ps[j]);
    }
    FirstOfPlugins(ps, i);
  }

  /** And there is none exactly if no plugin that may set one does. */
  lemma NoneProvides<H>(ps: seq<Plugin<H>>)
    ensures FirstProvider(ps).None? <==> forall j :: 0 <= j < |ps| ==> Silent(ps[j])
  {
    hide Silent, FirstProvider, ProviderOf;
    FirstProviderIs(ps);
    forall j | 0 <= j < |ps|
      ensures Silent(ps[j]) <==> ProviderOf(ps[j]).None?
    {
      SilentIff(ps[j]);
    }
    if forall j :: 0 <= j < |ps| ==> Silent(ps[j]) { FirstOfPlugins(ps, |ps|); }
  }

  // ----- refusals -----------------------------------------------------------------------------

  /** What a refusal names: an id taken, then an incompatible plugin, then a failed install, then a tool. */
  lemma RefusalsAreNamed<H>(ps: seq<Plugin<H>>, n: nat, e: InstallError)
    requires n < |ps| && Blames(ps, n, e)
    ensures var p := ps[n];
            var taken := exists j :: 0 <= j < n && ps[j].id == p.id;
            && (e == DuplicateId(p.id) <==> taken)
            && (e == Incompatible(p.id) <==> !taken && !p.compatible)
            && (e == Failed(p.id) <==> !taken && p.compatible && p.ending != Finished)
            && (e.ToolCollision? <==> !taken && p.compatible && p.ending == Finished)
  {
    hide FirstCollision, AllTools, ToolsOf;
    var ids := IdsOf(ps[..n]);
    assert forall j :: 0 <= j < n ==> ids[j] == ps[j].id;
  }
}
