/**
  Config sync (src/lib/agent-sync.ts): upserting configured agents into the agents table, the
  dry preview of that upsert, and writing one agent back with a deep merge.
 */
module AgentSync {
  import opened Options

  // ---- Deep merge -------------------------------------------------------------

  datatype Json =
    | Null
    | Bool(b: bool)
    | Num(n: real)
    | Str(s: string)
    | Arr(items: seq<Json>)
    | Obj(fields: map<string, Json>)

  /** result[key] of deepMerge: two objects merge key by key, otherwise the source wins. */
  function Merge(target: Json, source: Json): Json
    decreases source
  {
    if target.Obj? && source.Obj? then
      Obj(map k | k in target.fields.Keys + source.fields.Keys ::
            if k !in source.fields then target.fields[k]
            else if k in target.fields then Merge(target.fields[k], source.fields[k])
            else source.fields[k])
    else source
  }

  function At(j: Json, path: seq<string>): Option<Json>
    decreases |path|
  {
    if path == [] then Some(j)
    else if j.Obj? && path[0] in j.fields then At(j.fields[path[0]], path[1..])
    else None
  }

  /** The source leaves the path alone: it runs out of keys on the way, still inside an object. */
  predicate Untouched(source: Json, path: seq<string>)
    decreases |path|
  {
    path != [] && source.Obj? && (path[0] in source.fields ==> Untouched(source.fields[path[0]], path[1..]))
  }

  lemma {:induction false} MergeSelf(s: Json)
    ensures Merge(s, s) == s
    decreases s
  {
    if s.Obj? {
      forall k | k in s.fields ensures Merge(s.fields[k], s.fields[k]) == s.fields[k] {
        MergeSelf(s.fields[k]);
      }
    }
  }

  /** Merging the same source again changes nothing. */
  lemma {:induction false} MergeTwice(t: Json, s: Json)
    ensures Merge(Merge(t, s), s) == Merge(t, s)
    decreases s
  {
    if t.Obj? && s.Obj? {
      var m := Merge(t, s);
      forall k | k in s.fields ensures Merge(m.fields[k], s.fields[k]) == m.fields[k] {
        if k in t.fields {
          MergeTwice(t.fields[k], s.fields[k]);
        } else {
          MergeSelf(s.fields[k]);
        }
      }
    } else {
      MergeSelf(s);
    }
  }

  /** Every path of an object target that the source does not touch keeps its value. */
  lemma {:induction false} MergeKeepsUntouched(t: Json, s: Json, path: seq<string>)
    requires Untouched(s, path) && At(t, path).Some?
    ensures At(Merge(t, s), path) == At(t, path)
    decreases |path|
  {
    if path[0] in s.fields {
      MergeKeepsUntouched(t.fields[path[0]], s.fields[path[0]], path[1..]);
    }
  }

  /** Every value of the source that is not an object ends up in the result. */
  lemma {:induction false} MergeTakesSource(t: Json, s: Json, path: seq<string>)
    requires At(s, path).Some? && !At(s, path).value.Obj?
    ensures At(Merge(t, s), path) == At(s, path)
    decreases |path|
  {
    if path != [] && t.Obj? && path[0] in t.fields {
      MergeTakesSource(t.fields[path[0]], s.fields[path[0]], path[1..]);
    }
  }

  /** Every path of the result comes from the target or from the source. */
  lemma {:induction false} MergeAddsNothing(t: Json, s: Json, path: seq<string>)
    requires At(Merge(t, s), path).Some?
    ensures At(t, path).Some? || At(s, path).Some?
    decreases |path|
  {
    if path != [] && t.Obj? && s.Obj? && path[0] in t.fields && path[0] in s.fields {
      MergeAddsNothing(t.fields[path[0]], s.fields[path[0]], path[1..]);
    }
  }

  /** Every key of `a` is in `b`, down to where either stops being an object. */
  predicate Covers(b: Json, a: Json)
    decreases b
  {
    a.Obj? && b.Obj? ==>
      forall k | k in a.fields :: k in b.fields && Covers(b.fields[k], a.fields[k])
  }

  lemma {:induction false} MergeIntoCovering(a: Json, c: Json)
    ensures Merge(a, c) == c <==> Covers(c, a)
    decreases c
  {
    if a.Obj? && c.Obj? {
      forall k | k in a.fields && k in c.fields
        ensures Merge(a.fields[k], c.fields[k]) == c.fields[k] <==> Covers(c.fields[k], a.fields[k])
      {
        MergeIntoCovering(a.fields[k], c.fields[k]);
      }
      var m := Merge(a, c);
      if Covers(c, a) {
        assert m.fields.Keys == c.fields.Keys;
        assert forall k | k in c.fields :: m.fields[k] == c.fields[k];
      } else {
        var k :| k in a.fields && (k !in c.fields || !Covers(c.fields[k], a.fields[k]));
        assert k in m.fields;
      }
    }
  }

  /**
    Where three trees meet in a value that is an object on both sides but not in the middle, the
    last must cover the first: the middle value hides the first from one order only.
   */
  predicate Associates(a: Json, b: Json, c: Json)
    decreases c
  {
    a.Obj? && c.Obj? ==>
      if !b.Obj? then Covers(c, a)
      else forall k | k in a.fields && k in b.fields && k in c.fields ::
             Associates(a.fields[k], b.fields[k], c.fields[k])
  }

  /** The merge is associative on exactly those triples. */
  lemma {:induction false} MergeAssociates(a: Json, b: Json, c: Json)
    ensures Merge(Merge(a, b), c) == Merge(a, Merge(b, c)) <==> Associates(a, b, c)
    decreases c
  {
    if a.Obj? && c.Obj? {
      if !b.Obj? {
        MergeIntoCovering(a, c);
      } else {
        var left, right := Merge(Merge(a, b), c), Merge(a, Merge(b, c));
        assert left.fields.Keys == right.fields.Keys;
        forall k | k in left.fields
          ensures left.fields[k] == right.fields[k] <==>
                  (k in a.fields && k in b.fields && k in c.fields ==>
                     Associates(a.fields[k], b.fields[k], c.fields[k]))
        {
          if k in a.fields && k in b.fields && k in c.fields {
            MergeAssociates(a.fields[k], b.fields[k], c.fields[k]);
          }
        }
        if left == right {
          forall k | k in a.fields && k in b.fields && k in c.fields
            ensures Associates(a.fields[k], b.fields[k], c.fields[k])
          {
            assert k in left.fields;
          }
        } else {
          assert left.fields != right.fields;
          assert exists k :: k in left.fields && left.fields[k] != right.fields[k];
        }
      }
    }
  }

  // ---- Writing one agent back -------------------------------------------------

  type Entry = map<string, Json>

  function MergeEntry(target: Entry, source: Entry): Entry {
    Merge(Obj(target), Obj(source)).fields
  }

  function Id(e: Entry): Option<Json> {
    if "id" in e then Some(e["id"]) else None
  }

  /** Strict equality of two ids: arrays and objects are never equal to anything parsed elsewhere. */
  predicate SameId(a: Entry, b: Entry) {
    Id(a) == Id(b) && (Id(a).Some? ==> !Id(a).value.Obj? && !Id(a).value.Arr?)
  }

  function FindIndex(list: seq<Entry>, agent: Entry): (i: nat)
    ensures i <= |list|
    ensures i < |list| ==> SameId(list[i], agent)
    ensures forall j | 0 <= j < i :: !SameId(list[j], agent)
  {
    if list == [] then 0
    else if SameId(list[0], agent) then 0
    else 1 + FindIndex(list[1..], agent)
  }

  /** agents.list after writeAgentToConfig */
  function WriteAgent(list: seq<Entry>, agent: Entry): seq<Entry> {
    var i := FindIndex(list, agent);
    if i < |list| then list[i := MergeEntry(list[i], agent)] else list + [agent]
  }

  lemma FindIndexUnique(list: seq<Entry>, agent: Entry, i: nat)
    requires i < |list| && SameId(list[i], agent)
    requires forall j | 0 <= j < i :: !SameId(list[j], agent)
    ensures FindIndex(list, agent) == i
  {
  }

  lemma MergedId(t: Entry, agent: Entry)
    requires SameId(t, agent)
    ensures Id(MergeEntry(t, agent)) == Id(agent)
  {
    if Id(agent).Some? {
      assert Merge(t["id"], agent["id"]) == agent["id"];
    }
  }

  predicate PlainId(agent: Entry) {
    Id(agent).Some? ==> !Id(agent).value.Obj? && !Id(agent).value.Arr?
  }

  /** Writing the same agent twice is writing it once, exactly when its id is not a structure. */
  lemma WriteAgentIdempotent(list: seq<Entry>, agent: Entry)
    ensures WriteAgent(WriteAgent(list, agent), agent) == WriteAgent(list, agent) <==> PlainId(agent)
  {
    var i := FindIndex(list, agent);
    var once := WriteAgent(list, agent);
    if PlainId(agent) {
      if i < |list| {
        MergedId(list[i], agent);
        FindIndexUnique(once, agent, i);
        MergeTwice(Obj(list[i]), Obj(agent));
      } else {
        FindIndexUnique(once, agent, |list|);
        MergeSelf(Obj(agent));
      }
    } else {
      assert FindIndex(list, agent) == |list| && FindIndex(once, agent) == |once|;
    }
  }

  predicate DistinctIds(list: seq<Entry>) {
    forall i, j | 0 <= i < j < |list| :: !SameId(list[i], list[j])
  }

  /** Ids stay unique, the other entries stay as and where they are, and the written one has the id. */
  lemma WriteAgentLocal(list: seq<Entry>, agent: Entry)
    ensures DistinctIds(list) ==> DistinctIds(WriteAgent(list, agent))
    ensures var i, r := FindIndex(list, agent), WriteAgent(list, agent);
            && i < |r| && |r| == (if i < |list| then |list| else |list| + 1)
            && Id(r[i]) == Id(agent)
            && forall j | 0 <= j < |list| && j != i :: r[j] == list[j]
  {
    var i, r := FindIndex(list, agent), WriteAgent(list, agent);
    if i < |list| {
      MergedId(list[i], agent);
    }
    if DistinctIds(list) {
      forall j, k | 0 <= j < k < |r| ensures !SameId(r[j], r[k]) {
        if j != i && k != i {
          assert !SameId(list[j], list[k]);
        }
      }
    }
  }

  /** The first entry with the agent's id. */
  predicate FirstMatch(list: seq<Entry>, agent: Entry, i: nat) {
    i < |list| && SameId(list[i], agent) && forall j | 0 <= j < i :: !SameId(list[j], agent)
  }

  /**
    Writing an agent merges it into the first entry with its id: paths the agent leaves untouched
    keep their value, its own values are all there, and nothing else appears.
   */
  lemma WriteAgentMerges(list: seq<Entry>, agent: Entry, i: nat, path: seq<string>)
    requires FirstMatch(list, agent, i)
    ensures var r := WriteAgent(list, agent);
            && |r| == |list| && (forall j | 0 <= j < |list| && j != i :: r[j] == list[j])
            && var before, update, merged := Obj(list[i]), Obj(agent), Obj(r[i]);
               && (Untouched(update, path) && At(before, path).Some? ==> At(merged, path) == At(before, path))
               && (At(update, path).Some? && !At(update, path).value.Obj? ==> At(merged, path) == At(update, path))
               && (At(merged, path).Some? ==> At(before, path).Some? || At(update, path).Some?)
               && (At(update, path).Some? ==> At(merged, path).Some?)
  {
    FindIndexUnique(list, agent, i);
    MergeAt(Obj(list[i]), Obj(agent), path);
  }

  /** Without an entry of its id the agent is appended as it is. */
  lemma WriteAgentAppends(list: seq<Entry>, agent: Entry)
    requires forall j | 0 <= j < |list| :: !SameId(list[j], agent)
    ensures WriteAgent(list, agent) == list + [agent]
  {
  }

  lemma MergeAt(t: Json, s: Json, path: seq<string>)
    ensures Untouched(s, path) && At(t, path).Some? ==> At(Merge(t, s), path) == At(t, path)
    ensures At(s, path).Some? && !At(s, path).value.Obj? ==> At(Merge(t, s), path) == At(s, path)
    ensures At(Merge(t, s), path).Some? ==> At(t, path).Some? || At(s, path).Some?
    ensures At(s, path).Some? ==> At(Merge(t, s), path).Some?
  {
    if Untouched(s, path) && At(t, path).Some? {
      MergeKeepsUntouched(t, s, path);
    }
    if At(s, path).Some? {
      MergeReaches(t, s, path);
      if !At(s, path).value.Obj? {
        MergeTakesSource(t, s, path);
      }
    }
    if At(Merge(t, s), path).Some? {
      MergeAddsNothing(t, s, path);
    }
  }

  lemma {:induction false} MergeReaches(t: Json, s: Json, path: seq<string>)
    requires At(s, path).Some?
    ensures At(Merge(t, s), path).Some?
    decreases |path|
  {
    if path != [] && t.Obj? && path[0] in t.fields {
      MergeReaches(t.fields[path[0]], s.fields[path[0]], path[1..]);
    }
  }

  // ---- Mapping an agent to its row --------------------------------------------

  /** The stored configuration: it always lists isDefault, so it is neither empty nor "{}". */
  type ConfigText = t: string | t != "" && t != "{}" witness "c"

  /** An agent of openclaw.json; unset and empty strings read alike, `config` is the stringified rest. */
  datatype Agent = Agent(id: string, name: string, identityName: string, theme: string, config: ConfigText)

  datatype Mapped = Mapped(name: string, role: string, config: ConfigText)

  function MapAgent(a: Agent): Mapped {
    Mapped(if a.identityName != "" then a.identityName else if a.name != "" then a.name else a.id,
           if a.theme != "" then a.theme else "agent",
           a.config)
  }

  /** An agent goes by its identity's name, else its own, else its id; without a theme it is an "agent". */
  lemma MapAgentExactly(a: Agent)
    ensures a.identityName != "" ==> MapAgent(a).name == a.identityName
    ensures a.identityName == "" && a.name != "" ==> MapAgent(a).name == a.name
    ensures a.identityName == "" && a.name == "" ==> MapAgent(a).name == a.id
    ensures MapAgent(a).role == (if a.theme == "" then "agent" else a.theme) && MapAgent(a).config == a.config
  {
  }

  datatype Row = Row(role: string, config: Option<string>, createdAt: int, updatedAt: int)

  type Table = map<string, Row>

  datatype Action = Created | Updated | Unchanged

  // ---- Sync -------------------------------------------------------------------

  function ActionFor(t: Table, m: Mapped): Action {
    if m.name !in t then Created
    else
      var stored := if t[m.name].config.None? || t[m.name].config.value == "" then "{}" else t[m.name].config.value;
      if stored != m.config || t[m.name].role != m.role then Updated else Unchanged
  }

  function Upsert(t: Table, m: Mapped, now: int): Table {
    match ActionFor(t, m)
    case Created => t[m.name := Row(m.role, Some(m.config), now, now)]
    case Updated => t[m.name := t[m.name].(role := m.role, config := Some(m.config), updatedAt := now)]
    case Unchanged => t
  }

  function Synced(t: Table, agents: seq<Agent>, now: int): Table {
    if agents == [] then t
    else Upsert(Synced(t, agents[..|agents| - 1], now), MapAgent(agents[|agents| - 1]), now)
  }

  /** The actions of a sync, agent by agent. */
  function Actions(t: Table, agents: seq<Agent>, now: int): (r: seq<Action>)
    ensures |r| == |agents|
  {
    if agents == [] then []
    else
      var before := agents[..|agents| - 1];
      Actions(t, before, now) + [ActionFor(Synced(t, before, now), MapAgent(agents[|agents| - 1]))]
  }

  function NamesWith(agents: seq<Agent>, actions: seq<Action>, which: Action): seq<string>
    requires |actions| == |agents|
  {
    if agents == [] then []
    else
      var n := |agents| - 1;
      NamesWith(agents[..n], actions[..n], which) + if actions[n] == which then [MapAgent(agents[n]).name] else []
  }

  function Names(agents: seq<Agent>): set<string> {
    set i | 0 <= i < |agents| :: MapAgent(agents[i]).name
  }

  // ---- Preview ----------------------------------------------------------------

  datatype Diff = Diff(
    inConfig: nat, inMC: nat, newAgents: seq<string>, updatedAgents: seq<string>, onlyInMC: seq<string>)

  predicate PreviewNew(t: Table, m: Mapped) { m.name !in t }

  predicate PreviewUpdated(t: Table, m: Mapped) {
    m.name in t && (t[m.name].config != Some(m.config) || t[m.name].role != m.role)
  }

  function NewNames(t: Table, agents: seq<Agent>): seq<string> {
    if agents == [] then []
    else
      var n, m := |agents| - 1, MapAgent(agents[|agents| - 1]);
      NewNames(t, agents[..n]) + if PreviewNew(t, m) then [m.name] else []
  }

  function UpdatedNames(t: Table, agents: seq<Agent>): seq<string> {
    if agents == [] then []
    else
      var n, m := |agents| - 1, MapAgent(agents[|agents| - 1]);
      UpdatedNames(t, agents[..n]) + if PreviewUpdated(t, m) then [m.name] else []
  }

  /** The table's names in the order in which the query returns its rows. */
  ghost predicate RowOrder(t: Table, order: seq<string>) {
    && (forall i, j | 0 <= i < j < |order| :: order[i] != order[j])
    && (forall name :: name in order <==> name in t)
  }

  function Without(names: seq<string>, drop: set<string>): (r: seq<string>)
    ensures forall name :: name in r <==> name in names && name !in drop
  {
    if names == [] then []
    else
      var n := |names| - 1;
      Without(names[..n], drop) + if names[n] in drop then [] else [names[n]]
  }

  lemma {:induction false} RowOrderSize(t: Table, order: seq<string>)
    requires RowOrder(t, order)
    ensures |order| == |t|
    decreases |order|
  {
    if order == [] {
      assert t.Keys == {};
    } else {
      var n := |order| - 1;
      var rest := t - {order[n]};
      assert rest.Keys == t.Keys - {order[n]};
      RowOrderSize(rest, order[..n]);
    }
  }

  /** previewSyncDiff */
  method Preview(t: Table, order: seq<string>, agents: seq<Agent>) returns (d: Diff)
    requires RowOrder(t, order)
    ensures d.inConfig == |agents| && d.inMC == |t|
    ensures d.newAgents == NewNames(t, agents) && d.updatedAgents == UpdatedNames(t, agents)
    ensures d.onlyInMC == Without(order, Names(agents))
  {
    var newAgents, updatedAgents, configNames: set<string> := [], [], {};
    for i := 0 to |agents|
      invariant newAgents == NewNames(t, agents[..i])
      invariant updatedAgents == UpdatedNames(t, agents[..i])
      invariant configNames == Names(agents[..i])
    {
      var m := MapAgent(agents[i]);
      assert agents[..i + 1][..i] == agents[..i];
      assert Names(agents[..i + 1]) == Names(agents[..i]) + {m.name} by {
        assert agents[..i + 1] == agents[..i] + [agents[i]];
        NamesAppend(agents[..i], agents[i]);
      }
      configNames := configNames + {m.name};
      if m.name !in t {
        newAgents := newAgents + [m.name];
      } else if t[m.name].config != Some(m.config) || t[m.name].role != m.role {
        updatedAgents := updatedAgents + [m.name];
      }
    }
    assert agents[..|agents|] == agents;
    var onlyInMC := [];
    for i := 0 to |order|
      invariant onlyInMC == Without(order[..i], configNames)
    {
      assert order[..i + 1][..i] == order[..i];
      if order[i] !in configNames {
        onlyInMC := onlyInMC + [order[i]];
      }
    }
    assert order[..|order|] == order;
    RowOrderSize(t, order);
    d := Diff(|agents|, |order|, newAgents, updatedAgents, onlyInMC);
  }

  /** The preview lists exactly the configured names without a row, and those whose row reads differently. */
  lemma {:induction false} PreviewListsExactly(t: Table, agents: seq<Agent>, name: string)
    ensures name in NewNames(t, agents) <==> name in Names(agents) && name !in t
    ensures name in UpdatedNames(t, agents) <==>
              name in t && exists i :: 0 <= i < |agents| && MapAgent(agents[i]).name == name
                                && (t[name].config != Some(MapAgent(agents[i]).config)
                                    || t[name].role != MapAgent(agents[i]).role)
  {
    if agents != [] {
      var n := |agents| - 1;
      var before, m := agents[..n], MapAgent(agents[n]);
      PreviewListsExactly(t, before, name);
      assert agents == before + [agents[n]];
      NamesAppend(before, agents[n]);
      assert forall i | 0 <= i < n :: before[i] == agents[i];
    }
  }

  lemma NamesAppend(agents: seq<Agent>, a: Agent)
    ensures Names(agents + [a]) == Names(agents) + {MapAgent(a).name}
  {
    var all := agents + [a];
    forall x | x in Names(agents) + {MapAgent(a).name} ensures x in Names(all) {
      if x in Names(agents) {
        var i :| 0 <= i < |agents| && MapAgent(agents[i]).name == x;
        assert all[i] == agents[i];
      } else {
        assert all[|agents|] == a;
      }
    }
  }

  // ---- The preview agrees with the sync ---------------------------------------

  predicate DistinctNames(agents: seq<Agent>) {
    forall i, j | 0 <= i < j < |agents| :: MapAgent(agents[i]).name != MapAgent(agents[j]).name
  }

  /** Sync touches only the rows of configured names. */
  lemma {:induction false} SyncLeavesOthers(t: Table, agents: seq<Agent>, now: int, name: string)
    requires name !in Names(agents)
    ensures (name in Synced(t, agents, now) <==> name in t)
    ensures name in t ==> Synced(t, agents, now)[name] == t[name]
  {
    if agents != [] {
      var n := |agents| - 1;
      assert agents == agents[..n] + [agents[n]];
      NamesAppend(agents[..n], agents[n]);
      SyncLeavesOthers(t, agents[..n], now, name);
    }
  }

  /** With distinct names, each agent's action is decided by the table as it was before the sync. */
  lemma {:induction false} ActionIsInitial(t: Table, agents: seq<Agent>, now: int)
    requires DistinctNames(agents) && agents != []
    ensures var n, m := |agents| - 1, MapAgent(agents[|agents| - 1]);
            && Actions(t, agents, now)[n] == ActionFor(t, m)
            && (ActionFor(t, m) == Created <==> PreviewNew(t, m))
            && (ActionFor(t, m) == Updated <==> PreviewUpdated(t, m))
  {
    var n := |agents| - 1;
    SyncLeavesOthers(t, agents[..n], now, MapAgent(agents[n]).name);
  }

  /**
    For distinct mapped names the preview lists exactly the agents the sync creates and those it
    updates, in order, and the sync leaves the rows the preview calls onlyInMC as they were.
   */
  lemma {:induction false} PreviewPredictsSync(t: Table, order: seq<string>, agents: seq<Agent>, now: int)
    requires RowOrder(t, order) && DistinctNames(agents)
    ensures NewNames(t, agents) == NamesWith(agents, Actions(t, agents, now), Created)
    ensures UpdatedNames(t, agents) == NamesWith(agents, Actions(t, agents, now), Updated)
    ensures var onlyInMC := Without(order, Names(agents));
            && (forall name | name in onlyInMC ::
                  name in t && name in Synced(t, agents, now) && Synced(t, agents, now)[name] == t[name])
            && (forall name | name in t && name !in onlyInMC :: name in Names(agents))
  {
    ListsPredictSync(t, agents, now);
    forall name | name in Without(order, Names(agents))
      ensures name in Synced(t, agents, now) && Synced(t, agents, now)[name] == t[name]
    {
      SyncLeavesOthers(t, agents, now, name);
    }
  }

  lemma {:induction false} ListsPredictSync(t: Table, agents: seq<Agent>, now: int)
    requires DistinctNames(agents)
    ensures NewNames(t, agents) == NamesWith(agents, Actions(t, agents, now), Created)
    ensures UpdatedNames(t, agents) == NamesWith(agents, Actions(t, agents, now), Updated)
  {
    if agents != [] {
      var n := |agents| - 1;
      ListsPredictSync(t, agents[..n], now);
      ActionIsInitial(t, agents, now);
      assert Actions(t, agents, now)[..n] == Actions(t, agents[..n], now);
    }
  }

  // ---- A second sync ----------------------------------------------------------

  /** Agents mapped to one name agree in role and configuration. */
  predicate Consistent(agents: seq<Agent>) {
    forall i, j | 0 <= i < j < |agents| && MapAgent(agents[i]).name == MapAgent(agents[j]).name ::
      MapAgent(agents[i]) == MapAgent(agents[j])
  }

  predicate Stored(t: Table, m: Mapped) {
    m.name in t && t[m.name].role == m.role && t[m.name].config == Some(m.config)
  }

  lemma StoredIsUnchanged(t: Table, m: Mapped)
    ensures ActionFor(t, m) == Unchanged <==> Stored(t, m)
  {
  }

  /** After a sync every name carries what its last agent says. */
  lemma {:induction false} SyncStoresLast(t: Table, agents: seq<Agent>, now: int, i: nat)
    requires i < |agents|
    requires forall j | i < j < |agents| :: MapAgent(agents[j]).name != MapAgent(agents[i]).name
    ensures Stored(Synced(t, agents, now), MapAgent(agents[i]))
  {
    var n := |agents| - 1;
    if i < n {
      SyncStoresLast(t, agents[..n], now, i);
    }
  }

  lemma {:induction false} LastWithName(agents: seq<Agent>, i: nat) returns (last: nat)
    requires i < |agents|
    ensures i <= last < |agents| && MapAgent(agents[last]).name == MapAgent(agents[i]).name
    ensures forall j | last < j < |agents| :: MapAgent(agents[j]).name != MapAgent(agents[last]).name
    decreases |agents| - i
  {
    last := i;
    if j :| i < j < |agents| && MapAgent(agents[j]).name == MapAgent(agents[i]).name {
      last := LastWithName(agents, j);
    }
  }

  predicate AllStored(t: Table, agents: seq<Agent>) {
    forall i | 0 <= i < |agents| :: Stored(t, MapAgent(agents[i]))
  }

  predicate AllUnchanged(actions: seq<Action>) {
    forall i | 0 <= i < |actions| :: actions[i] == Unchanged
  }

  lemma {:induction false} StoredStays(t: Table, agents: seq<Agent>, now: int)
    requires AllStored(t, agents)
    ensures Synced(t, agents, now) == t && AllUnchanged(Actions(t, agents, now))
  {
    hide ActionFor, Stored, MapAgent;
    if agents != [] {
      var n := |agents| - 1;
      StoredStays(t, agents[..n], now);
      StoredIsUnchanged(t, MapAgent(agents[n]));
    }
  }

  lemma {:induction false} UnchangedIsStored(t: Table, agents: seq<Agent>, now: int)
    requires AllUnchanged(Actions(t, agents, now))
    ensures Synced(t, agents, now) == t && AllStored(t, agents)
  {
    hide ActionFor, Stored, MapAgent;
    if agents != [] {
      var n := |agents| - 1;
      var before, actions := Actions(t, agents[..n], now), Actions(t, agents, now);
      assert before == actions[..n];
      assert AllUnchanged(before) by {
        forall i | 0 <= i < n ensures before[i] == Unchanged {
          assert before[i] == actions[i];
        }
      }
      UnchangedIsStored(t, agents[..n], now);
      assert actions[n] == ActionFor(t, MapAgent(agents[n]));
      StoredIsUnchanged(t, MapAgent(agents[n]));
      forall i | 0 <= i < |agents| ensures Stored(t, MapAgent(agents[i])) {
        if i < n {
          assert agents[..n][i] == agents[i];
        }
      }
    }
  }

  /**
    An immediate second sync creates and updates nothing exactly when agents mapped to one name
    agree; distinct names are the usual case of that.
   */
  lemma SecondSyncIsQuiet(t: Table, agents: seq<Agent>, now: int, later: int)
    ensures AllUnchanged(Actions(Synced(t, agents, now), agents, later)) <==> Consistent(agents)
    ensures Consistent(agents) ==> Synced(Synced(t, agents, now), agents, later) == Synced(t, agents, now)
  {
    var t1 := Synced(t, agents, now);
    if Consistent(agents) {
      forall i | 0 <= i < |agents| ensures Stored(t1, MapAgent(agents[i])) {
        var last := LastWithName(agents, i);
        SyncStoresLast(t, agents, now, last);
        assert i < last ==> MapAgent(agents[i]) == MapAgent(agents[last]);
      }
      StoredStays(t1, agents, later);
    }
    if AllUnchanged(Actions(t1, agents, later)) {
      UnchangedIsStored(t1, agents, later);
      forall i, j | 0 <= i < j < |agents| && MapAgent(agents[i]).name == MapAgent(agents[j]).name
        ensures MapAgent(agents[i]) == MapAgent(agents[j])
      {
        assert Stored(t1, MapAgent(agents[i])) && Stored(t1, MapAgent(agents[j]));
      }
    }
  }

  // ---- Every row after a sync -------------------------------------------------

  /** The rows of a table at the end of a sync, relative to those before it. */
  ghost predicate RowAfter(t: Table, agents: seq<Agent>, now: int, name: string) {
    var r := Synced(t, agents, now);
    && (name in r <==> name in t || name in Names(agents))
    && (name in t ==> r[name].createdAt == t[name].createdAt && (r[name] != t[name] ==> r[name].updatedAt == now))
    && (name !in t && name in r ==> r[name].createdAt == now && r[name].updatedAt == now)
    && (name in t && name !in Names(agents) ==> r[name] == t[name])
  }

  /**
    After a sync exactly the old names and the configured ones have a row; old rows keep their
    creation time, and a row that changed at all, or is new, carries the time of the sync.
   */
  lemma {:induction false} RowsAfterSync(t: Table, agents: seq<Agent>, now: int, name: string)
    ensures RowAfter(t, agents, now, name)
  {
    if agents != [] {
      var n := |agents| - 1;
      assert agents == agents[..n] + [agents[n]];
      NamesAppend(agents[..n], agents[n]);
      RowsAfterSync(t, agents[..n], now, name);
    }
  }

  /** The row of a configured agent, no later one of its name following, says what the agent says. */
  lemma LastAgentStored(t: Table, agents: seq<Agent>, now: int, i: nat)
    requires i < |agents|
    requires forall j | i < j < |agents| :: MapAgent(agents[j]).name != MapAgent(agents[i]).name
    ensures var r, m := Synced(t, agents, now), MapAgent(agents[i]);
            m.name in r && r[m.name].role == m.role && r[m.name].config == Some(m.config)
  {
    SyncStoresLast(t, agents, now, i);
  }

  // ---- The agents table, updated in place -------------------------------------

  class AgentTable {
    var rows: Table

    constructor (rows: Table)
      ensures this.rows == rows
    {
      this.rows := rows;
    }

    method UpsertAgent(m: Mapped, now: int) returns (action: Action)
      modifies this
      ensures rows == Upsert(old(rows), m, now) && action == ActionFor(old(rows), m)
    {
      if m.name !in rows {
        rows := rows[m.name := Row(m.role, Some(m.config), now, now)];
        return Created;
      }
      var row := rows[m.name];
      var stored := if row.config.None? || row.config.value == "" then "{}" else row.config.value;
      if stored == m.config && row.role == m.role {
        return Unchanged;
      }
      rows := rows[m.name := row.(role := m.role, config := Some(m.config), updatedAt := now)];
      return Updated;
    }

    /** The transaction of syncAgentsFromConfig, with its counters. */
    method Sync(agents: seq<Agent>, now: int)
      returns (created: nat, updated: nat, results: seq<Action>)
      modifies this
      ensures rows == Synced(old(rows), agents, now)
      ensures results == Actions(old(rows), agents, now)
      ensures created == |NamesWith(agents, results, Created)| && updated == |NamesWith(agents, results, Updated)|
    {
      hide Upsert, ActionFor, MapAgent;
      created, updated, results := 0, 0, [];
      for i := 0 to |agents|
        invariant rows == Synced(old(rows), agents[..i], now)
        invariant results == Actions(old(rows), agents[..i], now)
        invariant created == |NamesWith(agents[..i], results, Created)|
        invariant updated == |NamesWith(agents[..i], results, Updated)|
      {
        assert agents[..i + 1][..i] == agents[..i];
        ghost var sofar := results;
        var action := UpsertAgent(MapAgent(agents[i]), now);
        results := results + [action];
        if action == Created {
          created := created + 1;
        } else if action == Updated {
          updated := updated + 1;
        }
        assert results[..i] == sofar;
      }
      assert agents[..|agents|] == agents;
    }
  }
}
