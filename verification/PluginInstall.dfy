/**
  Installing a list of plugins: each registers through its own context, the registrations are merged in
  list order, and every chain is sorted at the end.  What a plugin does in `install` is a script of calls
  that does not depend on the other plugins.
 */
module PluginInstall {
  import opened Common
  import opened HookChains

  /** A call a plugin makes on its context. */
  datatype Call<H> =
    | OnHook(kind: HookKind, priority: int, func: H)
    | AddTool(name: string)
    | AddAgent(agent: string)
    | SetProvider(provider: string)

  /** How `install` ends. */
  datatype Ending = Finished | Refused | Panicked

  datatype Plugin<H> = Plugin(id: string, hooks: set<HookKind>, mayAddTools: bool, mayAddAgents: bool,
                              mayProvide: bool, compatible: bool, calls: seq<Call<H>>, ending: Ending)

  datatype InstallError =
    | DuplicateId(id: string)
    | Incompatible(id: string)
    | Failed(id: string)
    | ToolCollision(name: string)

  /** The empty chain that every kind starts with. */
  function NoEntries<H>(k: HookKind): Chain<H> { [] }

  type Chains<H> = c: map<HookKind, Chain<H>> | forall k :: k in c witness map k: HookKind :: NoEntries(k)

  datatype Installed<H> = Installed(ids: seq<string>, agents: seq<string>, tools: seq<string>,
                                    provider: Option<string>, chains: Chains<H>)

  // ----- one plugin ---------------------------------------------------------------------------

  /** The call has its capability declared; a call without is rejected and registers nothing. */
  predicate Declared<H>(p: Plugin<H>, c: Call<H>)
  {
    match c
    case OnHook(kind, _, _) => kind in p.hooks
    case AddTool(_) => p.mayAddTools
    case AddAgent(_) => p.mayAddAgents
    case SetProvider(_) => p.mayProvide
  }

  /** The number of hooks registered by the first `n` calls, which is the next registration index. */
  function NextIndex<H>(p: Plugin<H>, n: nat): nat
    requires n <= |p.calls|
  {
    if n == 0 then 0
    else NextIndex(p, n - 1) + if p.calls[n - 1].OnHook? && Declared(p, p.calls[n - 1]) then 1 else 0
  }

  /** The entries of kind `k` registered by the first `n` calls. */
  function EntriesTo<H>(p: Plugin<H>, n: nat, k: HookKind): Chain<H>
    requires n <= |p.calls|
  {
    if n == 0 then []
    else
      var c := p.calls[n - 1];
      EntriesTo(p, n - 1, k) +
      if c.OnHook? && Declared(p, c) && c.kind == k then [Entry(p.id, c.priority, NextIndex(p, n - 1), k, c.func)]
      else []
  }

  /** What call `n` adds. */
  lemma CallRegisters<H>(p: Plugin<H>, n: nat)
    requires n < |p.calls|
    ensures var c := p.calls[n];
            var hook := c.OnHook? && Declared(p, c);
            && NextIndex(p, n + 1) == NextIndex(p, n) + (if hook then 1 else 0)
            && ToolsTo(p, n + 1) == (if c.AddTool? && Declared(p, c) then ToolsTo(p, n) + [c.name] else ToolsTo(p, n))
            && AgentsTo(p, n + 1)
               == (if c.AddAgent? && Declared(p, c) then AgentsTo(p, n) + [c.agent] else AgentsTo(p, n))
            && ProviderTo(p, n + 1) == (if c.SetProvider? && Declared(p, c) then Some(c.provider) else ProviderTo(p, n))
  {
  }

  function EntriesOf<H>(p: Plugin<H>, k: HookKind): Chain<H> { EntriesTo(p, |p.calls|, k) }

  function ToolsTo<H>(p: Plugin<H>, n: nat): seq<string>
    requires n <= |p.calls|
  {
    if n == 0 then []
    else
      var c := p.calls[n - 1];
      ToolsTo(p, n - 1) + if c.AddTool? && Declared(p, c) then [c.name] else []
  }

  function ToolsOf<H>(p: Plugin<H>): seq<string> { ToolsTo(p, |p.calls|) }

  function AgentsTo<H>(p: Plugin<H>, n: nat): seq<string>
    requires n <= |p.calls|
  {
    if n == 0 then []
    else
      var c := p.calls[n - 1];
      AgentsTo(p, n - 1) + if c.AddAgent? && Declared(p, c) then [c.agent] else []
  }

  function AgentsOf<H>(p: Plugin<H>): seq<string> { AgentsTo(p, |p.calls|) }

  /** Within a plugin the last registered provider counts. */
  function ProviderTo<H>(p: Plugin<H>, n: nat): Option<string>
    requires n <= |p.calls|
  {
    if n == 0 then None
    else if p.calls[n - 1].SetProvider? && Declared(p, p.calls[n - 1]) then Some(p.calls[n - 1].provider)
    else ProviderTo(p, n - 1)
  }

  function ProviderOf<H>(p: Plugin<H>): Option<string> { ProviderTo(p, |p.calls|) }

  ghost predicate ChainsHold<H>(p: Plugin<H>, n: nat, chains: Chains<H>)
    requires n <= |p.calls|
  {
    forall k :: chains[k] == EntriesTo(p, n, k)
  }

  lemma HookJoinsChain<H>(p: Plugin<H>, n: nat, chains: Chains<H>)
    requires n < |p.calls| && p.calls[n].OnHook? && Declared(p, p.calls[n]) && ChainsHold(p, n, chains)
    ensures var c := p.calls[n];
            ChainsHold(p, n + 1,
                       chains[c.kind := chains[c.kind] + [Entry(p.id, c.priority, NextIndex(p, n), c.kind, c.func)]])
  {
    hide NextIndex;
    var c := p.calls[n];
    var e := Entry(p.id, c.priority, NextIndex(p, n), c.kind, c.func);
    var next: Chains<H> := chains[c.kind := chains[c.kind] + [e]];
    assert forall k :: next[k] == EntriesTo(p, n + 1, k);
  }

  lemma OthersStay<H>(p: Plugin<H>, n: nat, chains: Chains<H>)
    requires n < |p.calls| && !(p.calls[n].OnHook? && Declared(p, p.calls[n])) && ChainsHold(p, n, chains)
    ensures ChainsHold(p, n + 1, chains)
  {
  }

  class PluginContext<H> {
    const plugin: Plugin<H>
    var nextIndex: nat
    var tools: seq<string>
    var agents: seq<string>
    var provider: Option<string>
    var chains: Chains<H>

    /** The context holds what the first `n` calls registered. */
    ghost predicate Holds(n: nat)
      requires n <= |plugin.calls|
      reads this
    {
      && nextIndex == NextIndex(plugin, n) && ChainsHold(plugin, n, chains)
      && tools == ToolsTo(plugin, n) && agents == AgentsTo(plugin, n) && provider == ProviderTo(plugin, n)
    }

    constructor (p: Plugin<H>)
      ensures plugin == p && Holds(0)
    {
      plugin, nextIndex, tools, agents, provider := p, 0, [], [], None;
      chains := map k: HookKind :: NoEntries(k);
    }

    method MakeEntry(kind: HookKind, priority: int, func: H) returns (e: Entry<H>)
      modifies this`nextIndex
      ensures e == Entry(plugin.id, priority, old(nextIndex), kind, func) && nextIndex == old(nextIndex) + 1
    {
      e := Entry(plugin.id, priority, nextIndex, kind, func);
      nextIndex := nextIndex + 1;
    }

    method RegisterHook(kind: HookKind, priority: int, func: H) returns (ok: bool)
      modifies this`nextIndex, this`chains
      ensures ok == (kind in plugin.hooks)
      ensures nextIndex == old(nextIndex) + if ok then 1 else 0
      ensures var e := Entry(plugin.id, priority, old(nextIndex), kind, func);
              chains == if ok then old(chains)[kind := old(chains)[kind] + [e]] else old(chains)
    {
      ok := kind in plugin.hooks;
      if ok {
        var e := MakeEntry(kind, priority, func);
        chains := chains[kind := chains[kind] + [e]];
      }
    }

    method RegisterTool(name: string) returns (ok: bool)
      modifies this`tools
      ensures ok == plugin.mayAddTools
      ensures tools == if ok then old(tools) + [name] else old(tools)
    {
      ok := plugin.mayAddTools;
      if ok { tools := tools + [name]; }
    }

    method RegisterAgent(agent: string) returns (ok: bool)
      modifies this`agents
      ensures ok == plugin.mayAddAgents
      ensures agents == if ok then old(agents) + [agent] else old(agents)
    {
      ok := plugin.mayAddAgents;
      if ok { agents := agents + [agent]; }
    }

    /** A later provider replaces an earlier one. */
    method RegisterProvider(p: string) returns (ok: bool)
      modifies this`provider
      ensures ok == plugin.mayProvide
      ensures provider == if ok then Some(p) else old(provider)
    {
      ok := plugin.mayProvide;
      if ok { provider := Some(p); }
    }

    /** The call the plugin makes next. */
    method Accept(n: nat) returns (ok: bool)
      requires n < |plugin.calls| && Holds(n)
      modifies this
      ensures Holds(n + 1) && ok == Declared(plugin, plugin.calls[n])
    {
      hide NextIndex, ToolsTo, AgentsTo, ProviderTo, ChainsHold;
      var c := plugin.calls[n];
      CallRegisters(plugin, n);
      if c.OnHook? && Declared(plugin, c) { HookJoinsChain(plugin, n, chains); } else { OthersStay(plugin, n, chains); }
      match c
      case OnHook(kind, priority, func) => {
        ok := RegisterHook(kind, priority, func);
      }
      case AddTool(name) => {
        ok := RegisterTool(name);
      }
      case AddAgent(agent) => {
        ok := RegisterAgent(agent);
      }
      case SetProvider(p) => {
        ok := RegisterProvider(p);
      }
    }
  }

  // ----- all plugins --------------------------------------------------------------------------

  /** The entries of kind `k` of the first `n` plugins, in list order. */
  function Merged<H>(ps: seq<Plugin<H>>, k: HookKind): Chain<H>
  {
    if ps == [] then [] else Merged(ps[..|ps| - 1], k) + EntriesOf(ps[|ps| - 1], k)
  }

  function AllTools<H>(ps: seq<Plugin<H>>): seq<string>
  {
    if ps == [] then [] else AllTools(ps[..|ps| - 1]) + ToolsOf(ps[|ps| - 1])
  }

  function AllAgents<H>(ps: seq<Plugin<H>>): seq<string>
  {
    if ps == [] then [] else AllAgents(ps[..|ps| - 1]) + AgentsOf(ps[|ps| - 1])
  }

  /** Among plugins the first provider counts. */
  function FirstProvider<H>(ps: seq<Plugin<H>>): Option<string>
  {
    if ps == [] then None
    else
      var earlier := FirstProvider(ps[..|ps| - 1]);
      if earlier.Some? then earlier else ProviderOf(ps[|ps| - 1])
  }

  function IdsOf<H>(ps: seq<Plugin<H>>): (r: seq<string>)
    ensures |r| == |ps| && forall i :: 0 <= i < |r| ==> r[i] == ps[i].id
  {
    seq(|ps|, i requires 0 <= i < |ps| => ps[i].id)
  }

  /** The plugin itself raises no objection. */
  predicate Sound<H>(p: Plugin<H>) { p.compatible && p.ending.Finished? }

  /** The list installs: no two ids alike, every plugin sound, no two tools alike. */
  predicate Installable<H>(ps: seq<Plugin<H>>)
  {
    Distinct(IdsOf(ps)) && (forall i :: 0 <= i < |ps| ==> Sound(ps[i])) && Distinct(AllTools(ps))
  }

  /** What a plugin is turned away for whatever it registers, the checks being made in this order. */
  function Objection<H>(ids: seq<string>, p: Plugin<H>): Option<InstallError>
  {
    if p.id in ids then Some(DuplicateId(p.id))
    else if !p.compatible then Some(Incompatible(p.id))
    else if !p.ending.Finished? then Some(Failed(p.id))
    else None
  }

  /** `name` is the first of `more` that is there already, among `tools` or earlier in `more`. */
  predicate FirstCollision(tools: seq<string>, more: seq<string>, name: string)
  {
    exists k :: 0 <= k < |more| && CollidesAt(tools, more, name, k)
  }

  predicate CollidesAt(tools: seq<string>, more: seq<string>, name: string, k: nat)
    requires k < |more|
  {
    more[k] == name && Distinct(tools + more[..k]) && name in tools + more[..k]
  }

  /** `e` is what plugin `n` is turned away for: an objection to the plugin, or one of its tools. */
  predicate Blames<H>(ps: seq<Plugin<H>>, n: nat, e: InstallError)
    requires n < |ps|
  {
    var objection := Objection(IdsOf(ps[..n]), ps[n]);
    if objection.Some? then e == objection.value
    else e.ToolCollision? && FirstCollision(AllTools(ps[..n]), ToolsOf(ps[n]), e.name)
  }

  /** The chains of all plugins, extended and sorted in place. */
  class ChainTable<H> {
    var chains: Chains<H>

    constructor ()
      ensures forall k :: chains[k] == []
    {
      chains := map k: HookKind :: NoEntries(k);
    }

    method Merge(other: Chains<H>)
      modifies this
      ensures forall k :: chains[k] == old(chains)[k] + other[k]
    {
      chains := map k: HookKind :: chains[k] + other[k];
    }

    method SortAll()
      modifies this
      ensures forall k :: chains[k] == Sort(old(chains)[k])
      ensures forall k :: Ordered(chains[k]) && multiset(chains[k]) == multiset(old(chains)[k])
    {
      hide Sort, Ordered;
      ghost var before := chains;
      chains := map k: HookKind :: Sort(chains[k]);
      forall k: HookKind
        ensures Ordered(chains[k]) && multiset(chains[k]) == multiset(before[k])
      {
        SortOrdered(before[k]);
        SortConserves(before[k]);
      }
    }
  }

  /** What one plugin does on its own, before its registrations are merged. */
  method RunInstall<H>(p: Plugin<H>) returns (ctx: PluginContext<H>)
    ensures fresh(ctx) && ctx.plugin == p && ctx.Holds(|p.calls|)
  {
    hide NextIndex, ToolsTo, AgentsTo, ProviderTo, ChainsHold;
    ctx := new PluginContext(p);
    for n := 0 to |p.calls|
      invariant ctx.plugin == p && ctx.Holds(n) && fresh(ctx)
    {
      var _ := ctx.Accept(n);
    }
  }

  /** Adds the tools of one plugin, refusing a name already there. */
  method AddTools(tools0: seq<string>, more: seq<string>) returns (r: Result<seq<string>, InstallError>)
    requires Distinct(tools0)
    ensures r.Ok? <==> Distinct(tools0 + more)
    ensures r.Ok? ==> r.value == tools0 + more
    ensures r.Err? ==> r.error.ToolCollision? && FirstCollision(tools0, more, r.error.name)
  {
    var tools := tools0;
    for i := 0 to |more|
      invariant tools == tools0 + more[..i] && Distinct(tools)
    {
      if more[i] in tools {
        assert CollidesAt(tools0, more, more[i], i);
        CollisionIsNotDistinct(tools0, more, more[i]);
        return Err(ToolCollision(more[i]));
      }
      tools := tools + [more[i]];
    }
    assert more[..|more|] == more;
    return Ok(tools);
  }

  /** What it takes for one more plugin to install. */
  predicate Joins<H>(ps: seq<Plugin<H>>, p: Plugin<H>)
  {
    p.id !in IdsOf(ps) && Sound(p) && Distinct(AllTools(ps) + ToolsOf(p))
  }

  lemma InstallableSnoc<H>(ps: seq<Plugin<H>>, n: nat)
    requires n < |ps|
    ensures Installable(ps[..n + 1]) <==> Installable(ps[..n]) && Joins(ps[..n], ps[n])
    ensures IdsOf(ps[..n + 1]) == IdsOf(ps[..n]) + [ps[n].id]
    ensures AllTools(ps[..n + 1]) == AllTools(ps[..n]) + ToolsOf(ps[n])
  {
    var front, all := ps[..n], ps[..n + 1];
    assert all[..n] == front && all[n] == ps[n];
    hide ToolsOf, Sound;
    assert forall i :: 0 <= i < n ==> all[i] == front[i];
    assert IdsOf(all) == IdsOf(front) + [ps[n].id];
    assert AllTools(all) == AllTools(front) + ToolsOf(ps[n]);
    hide AllTools;
    DistinctPrefix(AllTools(front), ToolsOf(ps[n]));
    DistinctSnoc(IdsOf(front), ps[n].id);
    assert (forall i :: 0 <= i <= n ==> Sound(all[i]))
      <==> (forall i :: 0 <= i < n ==> Sound(front[i])) && Sound(ps[n]);
  }

  lemma DistinctPrefix<T>(xs: seq<T>, ys: seq<T>)
    ensures Distinct(xs + ys) ==> Distinct(xs)
  {
    assert forall i :: 0 <= i < |xs| ==> xs[i] == (xs + ys)[i];
  }

  lemma DistinctSnoc<T>(xs: seq<T>, x: T)
    ensures Distinct(xs + [x]) <==> Distinct(xs) && x !in xs
  {
    DistinctPrefix(xs, [x]);
    var all := xs + [x];
    assert all[|xs|] == x && forall i :: 0 <= i < |xs| ==> all[i] == xs[i];
    if Distinct(xs) && x !in xs {
      forall i, j | 0 <= i < j < |all|
        ensures all[i] != all[j]
      {
      }
    }
  }

  /** A list installs only if each of its beginnings does. */
  lemma {:induction false} InstallablePrefix<H>(ps: seq<Plugin<H>>, n: nat)
    requires n <= |ps| && Installable(ps)
    ensures Installable(ps[..n])
    decreases |ps| - n
  {
    hide Installable;
    if n == |ps| {
      assert ps[..n] == ps;
    } else {
      InstallablePrefix(ps, n + 1);
      InstallableSnoc(ps, n);
    }
  }

  /** Some plugin, behind a beginning that installs, is turned away for `e`. */
  ghost predicate RightlyRefused<H>(ps: seq<Plugin<H>>, e: InstallError)
  {
    exists n :: 0 <= n < |ps| && Installable(ps[..n]) && Blames(ps, n, e)
  }

  lemma CollisionIsNotDistinct(tools: seq<string>, more: seq<string>, name: string)
    requires FirstCollision(tools, more, name)
    ensures !Distinct(tools + more)
  {
    var k :| 0 <= k < |more| && CollidesAt(tools, more, name, k);
    var seen, all := tools + more[..k], tools + more;
    var i :| 0 <= i < |seen| && seen[i] == name;
    assert all[i] == seen[i] && all[|tools| + k] == more[k];
  }

  lemma BlamedDoesNotJoin<H>(ps: seq<Plugin<H>>, n: nat, e: InstallError)
    requires n < |ps| && Blames(ps, n, e)
    ensures !Joins(ps[..n], ps[n])
  {
    hide ToolsOf, AllTools, FirstCollision;
    if Objection(IdsOf(ps[..n]), ps[n]).None? { CollisionIsNotDistinct(AllTools(ps[..n]), ToolsOf(ps[n]), e.name); }
  }

  lemma TurnedAway<H>(ps: seq<Plugin<H>>, n: nat, e: InstallError)
    requires n < |ps| && Installable(ps[..n]) && Blames(ps, n, e)
    ensures !Installable(ps) && RightlyRefused(ps, e)
  {
    hide Installable, Joins, Blames;
    BlamedDoesNotJoin(ps, n, e);
    InstallableSnoc(ps, n);
    if Installable(ps) { InstallablePrefix(ps, n + 1); }
  }

  ghost predicate MergedHold<H>(ps: seq<Plugin<H>>, n: nat, chains: Chains<H>)
    requires n <= |ps|
  {
    forall k :: chains[k] == Merged(ps[..n], k)
  }

  lemma MergedSnoc<H>(ps: seq<Plugin<H>>, n: nat, k: HookKind)
    requires n < |ps|
    ensures Merged(ps[..n + 1], k) == Merged(ps[..n], k) + EntriesOf(ps[n], k)
  {
    assert ps[..n + 1][..n] == ps[..n];
  }

  /** All tools so far, and what one plugin adds besides. */
  datatype Registered = Registered(tools: seq<string>, agents: seq<string>, provider: Option<string>)

  /** One turn of the loop: checks the plugin, runs its `install` and merges what it registered. */
  method InstallOne<H>(ps: seq<Plugin<H>>, n: nat, ids: seq<string>, tools: seq<string>, table: ChainTable<H>)
      returns (r: Result<Registered, InstallError>)
    requires n < |ps| && Installable(ps[..n]) && ids == IdsOf(ps[..n]) && tools == AllTools(ps[..n])
    requires MergedHold(ps, n, table.chains)
    modifies table
    ensures r.Ok? ==> Joins(ps[..n], ps[n]) && MergedHold(ps, n + 1, table.chains)
    ensures r.Ok? ==> r.value == Registered(AllTools(ps[..n]) + ToolsOf(ps[n]), AgentsOf(ps[n]), ProviderOf(ps[n]))
    ensures r.Err? ==> Blames(ps, n, r.error)
  {
    ToolsAreDistinct(ps[..n]);
    hide Merged, ToolsOf, EntriesOf, AllTools, ChainsHold, NextIndex, ToolsTo, Distinct, MergedHold, Installable;
    hide AgentsTo, ProviderTo, AgentsOf, ProviderOf;
    var objection := Objection(ids, ps[n]);
    assert objection.None? ==> ps[n].id !in ids && Sound(ps[n]);
    hide Objection;
    if objection.Some? { return Err(objection.value); }
    var ctx := RunInstall(ps[n]);
    var own := Drain(ctx);
    var added := AddTools(tools, own.tools);
    if added.Err? { return Err(added.error); }
    MergeContext(table, ctx, ps, n);
    return Ok(own.(tools := added.value));
  }

  lemma AgentsSnoc<H>(ps: seq<Plugin<H>>, n: nat)
    requires n < |ps|
    ensures AllAgents(ps[..n + 1]) == AllAgents(ps[..n]) + AgentsOf(ps[n])
    ensures FirstProvider(ps[..n + 1])
         == if FirstProvider(ps[..n]).Some? then FirstProvider(ps[..n]) else ProviderOf(ps[n])
  {
    assert ps[..n + 1][..n] == ps[..n];
  }

  /** The loop: ids, agents, tools, provider and merged chains of all plugins, or the first refusal. */
  method MergeAll<H>(ps: seq<Plugin<H>>, table: ChainTable<H>)
      returns (r: Result<(seq<string>, Registered), InstallError>)
    requires MergedHold(ps, 0, table.chains)
    modifies table
    ensures r.Ok? <==> Installable(ps)
    ensures r.Ok? ==> r.value == (IdsOf(ps), Registered(AllTools(ps), AllAgents(ps), FirstProvider(ps)))
    ensures r.Ok? ==> MergedHold(ps, |ps|, table.chains)
    ensures r.Err? ==> RightlyRefused(ps, r.error)
  {
    var all := Registered([], [], None);
    var ids: seq<string> := [];
    assert AllTools(ps[..0]) == [] && Installable(ps[..0]) && AllAgents(ps[..0]) == [];
    assert FirstProvider(ps[..0]) == None;
    hide Merged, ToolsOf, AllTools, AllAgents, FirstProvider, AgentsOf, ProviderOf;
    hide MergedHold, RightlyRefused, Joins, Blames, Installable;
    for n := 0 to |ps|
      invariant Installable(ps[..n])
      invariant ids == IdsOf(ps[..n])
      invariant all == Registered(AllTools(ps[..n]), AllAgents(ps[..n]), FirstProvider(ps[..n]))
      invariant MergedHold(ps, n, table.chains)
    {
      InstallableSnoc(ps, n);
      AgentsSnoc(ps, n);
      var one := InstallOne(ps, n, ids, all.tools, table);
      if one.Err? {
        TurnedAway(ps, n, one.error);
        return Err(one.error);
      }
      var provider := if all.provider.Some? then all.provider else one.value.provider;
      all := Registered(one.value.tools, all.agents + one.value.agents, provider);
      ids := ids + [ps[n].id];
    }
    assert ps[..|ps|] == ps;
    return Ok((ids, all));
  }

  method InstallAll<H>(ps: seq<Plugin<H>>) returns (r: Result<Installed<H>, InstallError>)
    ensures r.Ok? <==> Installable(ps)
    ensures r.Ok? ==> r.value.ids == IdsOf(ps) && r.value.tools == AllTools(ps)
    ensures r.Ok? ==> r.value.agents == AllAgents(ps) && r.value.provider == FirstProvider(ps)
    ensures r.Ok? ==> forall k :: r.value.chains[k] == Sort(Merged(ps, k))
    ensures r.Err? ==> RightlyRefused(ps, r.error)
  {
    var table := new ChainTable<H>();
    assert MergedHold(ps, 0, table.chains);
    hide Merged, Sort, AllTools, AllAgents, FirstProvider, MergedHold, RightlyRefused, Installable, Ordered;
    var all := MergeAll(ps, table);
    if all.Err? { return Err(all.error); }
    ghost var merged := table.chains;
    AllMerged(ps, merged);
    table.SortAll();
    var regs := all.value.1;
    return Ok(Installed(all.value.0, regs.agents, regs.tools, regs.provider, table.chains));
  }

  lemma AllMerged<H>(ps: seq<Plugin<H>>, chains: Chains<H>)
    requires MergedHold(ps, |ps|, chains)
    ensures forall k :: chains[k] == Merged(ps, k)
  {
    assert ps[..|ps|] == ps;
  }

  lemma ToolsAreDistinct<H>(ps: seq<Plugin<H>>)
    requires Installable(ps)
    ensures Distinct(AllTools(ps))
  {
  }

  /** What a context that has run its script registered, hooks apart. */
  method Drain<H>(ctx: PluginContext<H>) returns (r: Registered)
    requires ctx.Holds(|ctx.plugin.calls|)
    ensures r == Registered(ToolsOf(ctx.plugin), AgentsOf(ctx.plugin), ProviderOf(ctx.plugin))
  {
    return Registered(ctx.tools, ctx.agents, ctx.provider);
  }

  method MergeContext<H>(table: ChainTable<H>, ctx: PluginContext<H>, ghost ps: seq<Plugin<H>>, ghost n: nat)
    requires n < |ps| && ctx.plugin == ps[n] && ctx.Holds(|ps[n].calls|)
    requires MergedHold(ps, n, table.chains)
    modifies table
    ensures MergedHold(ps, n + 1, table.chains)
  {
    table.Merge(ctx.chains);
    forall k: HookKind
      ensures table.chains[k] == Merged(ps[..n + 1], k)
    {
      MergedSnoc(ps, n, k);
    }
  }

  // ----- the order of the list does not matter ------------------------------------------------

  /** What `f` gives for each element, joined in order. */
  function Collect<P, E>(f: P -> seq<E>, ps: seq<P>): seq<E>
  {
    if ps == [] then [] else Collect(f, ps[..|ps| - 1]) + f(ps[|ps| - 1])
  }

  lemma {:induction false} CollectAppend<P, E>(f: P -> seq<E>, xs: seq<P>, ys: seq<P>)
    ensures Collect(f, xs + ys) == Collect(f, xs) + Collect(f, ys)
  {
    if ys == [] {
      assert xs + ys == xs;
    } else {
      assert (xs + ys)[..|xs + ys| - 1] == xs + ys[..|ys| - 1];
      CollectAppend(f, xs, ys[..|ys| - 1]);
    }
  }

  lemma Around<T>(s: seq<T>, i: nat)
    requires i < |s|
    ensures s == s[..i] + [s[i]] + s[i + 1..]
  {
  }

  lemma CollectRemove<P, E>(f: P -> seq<E>, ps: seq<P>, i: nat)
    requires i < |ps|
    ensures multiset(Collect(f, ps)) == multiset(Collect(f, ps[..i] + ps[i + 1..])) + multiset(f(ps[i]))
  {
    hide Collect;
    Around(ps, i);
    CollectMiddle(f, ps[..i], ps[i], ps[i + 1..]);
  }

  lemma CollectOne<P, E>(f: P -> seq<E>, p: P)
    ensures Collect(f, [p]) == f(p)
  {
    assert [p][..0] == [];
  }

  lemma CollectMiddle<P, E>(f: P -> seq<E>, a: seq<P>, p: P, b: seq<P>)
    ensures multiset(Collect(f, a + [p] + b)) == multiset(Collect(f, a + b)) + multiset(f(p))
  {
    hide Collect;
    CollectOne(f, p);
    CollectAppend(f, a + [p], b);
    CollectAppend(f, a, [p]);
    CollectAppend(f, a, b);
    MiddleOut(Collect(f, a), f(p), Collect(f, b));
  }

  lemma MiddleOut<E>(x: seq<E>, y: seq<E>, z: seq<E>)
    ensures multiset(x + y + z) == multiset(x + z) + multiset(y)
  {
  }

  lemma RemoveOne<T>(s: seq<T>, i: nat)
    requires i < |s|
    ensures multiset(s[..i] + s[i + 1..]) == multiset(s) - multiset{s[i]}
  {
    assert s == s[..i] + [s[i]] + s[i + 1..];
    assert multiset(s) == multiset(s[..i]) + multiset{s[i]} + multiset(s[i + 1..]);
  }

  /** Rearranging the elements rearranges what is collected from them. */
  lemma {:induction false} CollectPermutes<P, E>(f: P -> seq<E>, ps: seq<P>, qs: seq<P>)
    requires multiset(ps) == multiset(qs)
    ensures multiset(Collect(f, ps)) == multiset(Collect(f, qs))
  {
    if ps == [] {
      assert |qs| == |multiset(qs)| == 0;
    } else {
      var last := |ps| - 1;
      assert ps[last] in multiset(ps);
      assert ps[last] in qs;
      var i :| 0 <= i < |qs| && qs[i] == ps[last];
      hide Collect;
      RemoveOne(ps, last);
      RemoveOne(qs, i);
      CollectPermutes(f, ps[..last] + ps[last + 1..], qs[..i] + qs[i + 1..]);
      CollectRemove(f, ps, last);
      CollectRemove(f, qs, i);
    }
  }

  lemma {:induction false} MergedIsCollected<H>(ps: seq<Plugin<H>>, k: HookKind, f: Plugin<H> -> Chain<H>)
    requires forall p :: f(p) == EntriesOf(p, k)
    ensures Merged(ps, k) == Collect(f, ps)
  {
    hide EntriesOf;
    if ps != [] { MergedIsCollected(ps[..|ps| - 1], k, f); }
  }

  lemma {:induction false} ToolsAreCollected<H>(ps: seq<Plugin<H>>, f: Plugin<H> -> seq<string>)
    requires forall p :: f(p) == ToolsOf(p)
    ensures AllTools(ps) == Collect(f, ps)
  {
    hide ToolsOf;
    if ps != [] { ToolsAreCollected(ps[..|ps| - 1], f); }
  }

  lemma {:induction false} IdsAreCollected<H>(ps: seq<Plugin<H>>, f: Plugin<H> -> seq<string>)
    requires forall p :: f(p) == [p.id]
    ensures IdsOf(ps) == Collect(f, ps)
  {
    if ps != [] { IdsAreCollected(ps[..|ps| - 1], f); }
  }

  lemma DistinctPermutes<T>(xs: seq<T>, ys: seq<T>)
    requires multiset(xs) == multiset(ys) && Distinct(xs)
    ensures Distinct(ys)
  {
    forall i, j | 0 <= i < j < |ys|
      ensures ys[i] != ys[j]
    {
      if ys[i] == ys[j] {
        assert ys[i] in multiset(ys);
        assert ys[i] in xs;
        var p :| 0 <= p < |xs| && xs[p] == ys[i];
        OccursTwice(ys, i, j);
        OccursOnce(xs, p);
        assert false;
      }
    }
  }

  lemma SoundPermutes<H>(ps: seq<Plugin<H>>, qs: seq<Plugin<H>>)
    requires multiset(ps) == multiset(qs) && forall i :: 0 <= i < |ps| ==> Sound(ps[i])
    ensures forall i :: 0 <= i < |qs| ==> Sound(qs[i])
  {
    hide Sound;
    forall i | 0 <= i < |qs|
      ensures Sound(qs[i])
    {
      assert qs[i] in multiset(qs);
      assert qs[i] in ps;
    }
  }

  /** Whether a list installs does not depend on its order. */
  lemma InstallablePermutes<H>(ps: seq<Plugin<H>>, qs: seq<Plugin<H>>)
    requires multiset(ps) == multiset(qs) && Installable(ps)
    ensures Installable(qs)
  {
    hide AllTools, Sound;
    var tools := (p: Plugin<H>) => ToolsOf(p);
    var ids := (p: Plugin<H>) => [p.id];
    ToolsAreCollected(ps, tools);
    ToolsAreCollected(qs, tools);
    CollectPermutes(tools, ps, qs);
    DistinctPermutes(AllTools(ps), AllTools(qs));
    IdsAreCollected(ps, ids);
    IdsAreCollected(qs, ids);
    CollectPermutes(ids, ps, qs);
    DistinctPermutes(IdsOf(ps), IdsOf(qs));
    SoundPermutes(ps, qs);
  }

  /** A plugin's own entries: its id, and indexes that only grow. */
  lemma {:induction false} EntriesKeys<H>(p: Plugin<H>, n: nat, k: HookKind)
    requires n <= |p.calls|
    ensures forall i :: 0 <= i < |EntriesTo(p, n, k)| ==>
              EntriesTo(p, n, k)[i].manifestId == p.id && EntriesTo(p, n, k)[i].index < NextIndex(p, n)
    ensures DistinctKeys(EntriesTo(p, n, k))
  {
    if n > 0 { EntriesKeys(p, n - 1, k); }
  }

  lemma {:induction false} MergedKeys<H>(ps: seq<Plugin<H>>, k: HookKind)
    requires Distinct(IdsOf(ps))
    ensures forall i :: 0 <= i < |Merged(ps, k)| ==> Merged(ps, k)[i].manifestId in IdsOf(ps)
    ensures DistinctKeys(Merged(ps, k))
  {
    if ps != [] {
      var front, p := ps[..|ps| - 1], ps[|ps| - 1];
      assert IdsOf(ps) == IdsOf(front) + [p.id];
      DistinctSnoc(IdsOf(front), p.id);
      MergedKeys(front, k);
      EntriesKeys(p, |p.calls|, k);
      assert p.id in IdsOf(ps);
      hide EntriesTo, NextIndex;
    }
  }

  /**
    The order in which plugins are listed changes neither whether they install nor any chain that comes
    out: in each, priority, manifest id and registration index decide alone.
   */
  lemma InstallOrderIsIrrelevant<H>(ps: seq<Plugin<H>>, qs: seq<Plugin<H>>, k: HookKind)
    requires multiset(ps) == multiset(qs)
    ensures Installable(ps) <==> Installable(qs)
    ensures Installable(ps) ==> Sort(Merged(ps, k)) == Sort(Merged(qs, k))
  {
    if Installable(ps) { InstallablePermutes(ps, qs); }
    if Installable(qs) { InstallablePermutes(qs, ps); }
    if Installable(ps) {
      hide Merged, Sort, DistinctKeys;
      var f := (p: Plugin<H>) => EntriesOf(p, k);
      MergedIsCollected(ps, k, f);
      MergedIsCollected(qs, k, f);
      CollectPermutes(f, ps, qs);
      MergedKeys(ps, k);
      SortForgetsOrder(Merged(ps, k), Merged(qs, k));
    }
  }

  // ----- the provider does depend on the order ------------------------------------------------

  lemma {:induction false} FirstProviderIs<H>(ps: seq<Plugin<H>>)
    ensures FirstProvider(ps).Some? ==> exists i :: 0 <= i < |ps| && ProviderOf(ps[i]) == FirstProvider(ps)
    ensures FirstProvider(ps).None? ==> forall i :: 0 <= i < |ps| ==> ProviderOf(ps[i]).None?
  {
    hide ProviderOf;
    if ps != [] {
      var front := ps[..|ps| - 1];
      FirstProviderIs(front);
      assert forall i :: 0 <= i < |front| ==> front[i] == ps[i];
      if FirstProvider(front).Some? {
        var i :| 0 <= i < |front| && ProviderOf(front[i]) == FirstProvider(front);
        assert ProviderOf(ps[i]) == FirstProvider(ps);
      }
    }
  }

  lemma {:induction false} FrontProviderWins<H>(p: Plugin<H>, rest: seq<Plugin<H>>)
    requires ProviderOf(p).Some?
    ensures FirstProvider([p] + rest) == ProviderOf(p)
  {
    hide ProviderOf;
    if rest == [] {
      assert [p] + rest == [p] && [p][..0] == [];
    } else {
      assert ([p] + rest)[..|rest|] == [p] + rest[..|rest| - 1];
      FrontProviderWins(p, rest[..|rest| - 1]);
    }
  }

  ghost predicate ProvidersAgree<H>(ps: seq<Plugin<H>>)
  {
    forall i, j | 0 <= i < |ps| && 0 <= j < |ps| && ProviderOf(ps[i]).Some? && ProviderOf(ps[j]).Some? ::
      ProviderOf(ps[i]) == ProviderOf(ps[j])
  }

  lemma AgreedProvider<H>(ps: seq<Plugin<H>>, qs: seq<Plugin<H>>)
    requires multiset(ps) == multiset(qs) && ProvidersAgree(ps)
    ensures FirstProvider(qs) == FirstProvider(ps)
  {
    hide ProviderOf, FirstProvider;
    FirstProviderIs(ps);
    FirstProviderIs(qs);
    forall i | 0 <= i < |qs|
      ensures exists j :: 0 <= j < |ps| && ps[j] == qs[i]
    {
      assert qs[i] in multiset(qs);
      assert qs[i] in ps;
    }
    forall i | 0 <= i < |ps|
      ensures exists j :: 0 <= j < |qs| && qs[j] == ps[i]
    {
      assert ps[i] in multiset(ps);
      assert ps[i] in qs;
    }
  }

  /** The list with entry `i` moved to its front. */
  function ToFront<T>(s: seq<T>, i: nat): seq<T>
    requires i < |s|
  {
    [s[i]] + (s[..i] + s[i + 1..])
  }

  lemma ToFrontPermutes<T>(s: seq<T>, i: nat)
    requires i < |s|
    ensures multiset(ToFront(s, i)) == multiset(s)
  {
    Around(s, i);
    assert multiset(s[..i] + [s[i]] + s[i + 1..]) == multiset(s[..i]) + multiset{s[i]} + multiset(s[i + 1..]);
  }

  /** Which provider wins is independent of the order of the list exactly if all who provide one agree. */
  lemma ProviderOrderIffDisagreement<H>(ps: seq<Plugin<H>>)
    ensures (forall qs: seq<Plugin<H>> {:trigger FirstProvider(qs)} | multiset(qs) == multiset(ps) ::
                 FirstProvider(qs) == FirstProvider(ps))
       <==> ProvidersAgree(ps)
  {
    hide ProviderOf, FirstProvider;
    if ProvidersAgree(ps) {
      forall qs: seq<Plugin<H>> | multiset(qs) == multiset(ps)
        ensures FirstProvider(qs) == FirstProvider(ps)
      {
        AgreedProvider(ps, qs);
      }
    } else {
      var i, j :| 0 <= i < |ps| && 0 <= j < |ps| && ProviderOf(ps[i]).Some? && ProviderOf(ps[j]).Some?
                  && ProviderOf(ps[i]) != ProviderOf(ps[j]);
      ToFrontPermutes(ps, i);
      ToFrontPermutes(ps, j);
      FrontProviderWins(ps[i], ps[..i] + ps[i + 1..]);
      FrontProviderWins(ps[j], ps[..j] + ps[j + 1..]);
      assert FirstProvider(ToFront(ps, i)) != FirstProvider(ToFront(ps, j));
    }
  }
}
