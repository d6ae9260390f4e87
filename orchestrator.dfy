/**
 * The AI orchestration page (src/pages/Orchestrator.jsx): an editor over the
 * `ai_topology` section of the configuration. The section holds an ordered
 * list of providers, and each provider an ordered list of models; a list
 * position is a failover priority. The editor keeps its own copy of the
 * section (`localConfig`) and writes it back into the full configuration only
 * on save.
 */
module Orchestrator {
  import opened Wrappers
  import opened Strings
  import opened ConfigDoc

  // ------------------------------------------------------------ list operations

  /** `[s[i], s[j]] = [s[j], s[i]]` */
  function Swap<T>(s: seq<T>, i: nat, j: nat): (r: seq<T>)
    requires i < |s| && j < |s|
    ensures |r| == |s| && r[i] == s[j] && r[j] == s[i]
    ensures forall k :: 0 <= k < |s| && k != i && k != j ==> r[k] == s[k]
    ensures multiset(r) == multiset(s)
  {
    s[i := s[j]][j := s[i]]
  }

  /**
   * The reordering of `moveProvider` and `moveModel`: direction -1 swaps the
   * entry with the one before it, +1 with the one after it, and any other
   * request (a move up from the top, a move down from the bottom, another
   * direction) leaves the list as it is. `None` marks an index outside the
   * list, for which the page's swap would write holes into the array; the page
   * only passes positions of rendered entries.
   */
  function MoveAt<T>(s: seq<T>, index: int, direction: int): (r: Option<seq<T>>)
    ensures r.None? <==> (direction == -1 && 0 < index && |s| <= index) || (direction == 1 && index < 0 && index < |s| - 1)
    ensures r.Some? ==> |r.value| == |s| && multiset(r.value) == multiset(s)
    ensures direction == -1 && 0 < index < |s| ==>
              r.Some? && r.value[index] == s[index - 1] && r.value[index - 1] == s[index] &&
              forall k :: 0 <= k < |s| && k != index && k != index - 1 ==> r.value[k] == s[k]
    ensures direction == 1 && 0 <= index < |s| - 1 ==>
              r.Some? && r.value[index] == s[index + 1] && r.value[index + 1] == s[index] &&
              forall k :: 0 <= k < |s| && k != index && k != index + 1 ==> r.value[k] == s[k]
    ensures (direction == -1 && index <= 0) || (direction == 1 && index >= |s| - 1) || (direction != -1 && direction != 1) ==>
              r == Some(s)
  {
    if direction == -1 && index > 0 then
      if index < |s| then Some(Swap(s, index, index - 1)) else None
    else if direction == 1 && index < |s| - 1 then
      if index >= 0 then Some(Swap(s, index, index + 1)) else None
    else
      Some(s)
  }

  /** Moving an entry up and then moving it back down restores the list. */
  lemma MoveUpThenDown<T>(s: seq<T>, index: int)
    requires 0 < index < |s|
    ensures MoveAt(s, index, -1).Some?
    ensures MoveAt(MoveAt(s, index, -1).value, index - 1, 1) == Some(s)
  {
    var t := MoveAt(s, index, -1).value;
    var u := MoveAt(t, index - 1, 1).value;
    assert forall k :: 0 <= k < |s| ==> u[k] == s[k];
    assert u == s;
  }

  /** Moving an entry down and then moving it back up restores the list. */
  lemma MoveDownThenUp<T>(s: seq<T>, index: int)
    requires 0 <= index < |s| - 1
    ensures MoveAt(s, index, 1).Some?
    ensures MoveAt(MoveAt(s, index, 1).value, index + 1, -1) == Some(s)
  {
    var t := MoveAt(s, index, 1).value;
    var u := MoveAt(t, index + 1, -1).value;
    assert forall k :: 0 <= k < |s| ==> u[k] == s[k];
    assert u == s;
  }

  /**
   * Where `splice(index, 1)` starts: a negative index counts back from the
   * end, and one reaching past the front starts at 0.
   */
  function SpliceStart(len: nat, index: int): (k: nat)
    ensures k <= len
    ensures 0 <= index <= len ==> k == index
    ensures -(len as int) <= index < 0 ==> k as int == len as int + index
  {
    if index < 0 then (if index + len < 0 then 0 else index + len)
    else if index > len then len
    else index
  }

  /**
   * `s.splice(index, 1)` (`removeProvider`, `removeModel`): removes the entry
   * at the start position when there is one, and keeps the others in order.
   */
  function SpliceOne<T>(s: seq<T>, index: int): (r: seq<T>)
    ensures 0 < |s| && index < |s| ==> |r| == |s| - 1
    ensures index >= |s| ==> r == s
    ensures forall i :: 0 <= i < SpliceStart(|s|, index) && i < |r| ==> r[i] == s[i]
    ensures forall i :: SpliceStart(|s|, index) <= i < |r| && i + 1 < |s| ==> r[i] == s[i + 1]
    ensures 0 <= index < |s| ==> multiset(r) + multiset{s[index]} == multiset(s)
  {
    var k := SpliceStart(|s|, index);
    if k < |s| then
      assert s == s[..k] + [s[k]] + s[k + 1..];
      assert multiset(s) == multiset(s[..k]) + multiset{s[k]} + multiset(s[k + 1..]);
      s[..k] + s[k + 1..]
    else s
  }

  // ------------------------------------------------------------ priorities

  predicate AllObjects(xs: seq<Json>) {
    forall i :: 0 <= i < |xs| ==> xs[i].JObj?
  }

  /** Every model's `priority` is its 1-based position in the list. */
  predicate PrioritiesArePositions(models: seq<Json>) {
    forall i :: 0 <= i < |models| ==> Get(models[i], "priority") == Some(JInt(i + 1))
  }

  /** `m.priority = position`, leaving a non-object as it is. */
  function WithPriority(m: Json, position: int): Json {
    if m.JObj? then SetField(m, "priority", JInt(position)) else m
  }

  /**
   * `models.forEach((m, i) => m.priority = i + 1)`. `None` is the TypeError
   * of assigning to an entry that is not an object.
   */
  function Renumbered(models: seq<Json>): (r: Option<seq<Json>>)
    ensures r.Some? <==> AllObjects(models)
    ensures r.Some? ==> |r.value| == |models| && AllObjects(r.value) && PrioritiesArePositions(r.value)
    ensures r.Some? ==> forall i, k :: 0 <= i < |models| && k != "priority" ==> Get(r.value[i], k) == Get(models[i], k)
  {
    if AllObjects(models) then Some(seq(|models|, i requires 0 <= i < |models| => WithPriority(models[i], i + 1)))
    else None
  }

  /** The `forEach` loop itself, assigning each priority in turn. */
  method RenumberModels(models: seq<Json>) returns (r: Option<seq<Json>>)
    ensures r == Renumbered(models)
  {
    var out: seq<Json> := [];
    var i := 0;
    while i < |models|
      invariant 0 <= i <= |models|
      invariant |out| == i
      invariant forall k :: 0 <= k < i ==> models[k].JObj? && out[k] == WithPriority(models[k], k + 1)
    {
      if !models[i].JObj? {
        return None;
      }
      out := out + [SetField(models[i], "priority", JInt(i + 1))];
      i := i + 1;
    }
    assert out == seq(|models|, k requires 0 <= k < |models| => WithPriority(models[k], k + 1));
    r := Some(out);
  }

  /** Appending a model numbered `length + 1` keeps priorities equal to positions. */
  lemma AddModelKeepsPositions(models: seq<Json>)
    requires PrioritiesArePositions(models)
    ensures PrioritiesArePositions(models + [NewModel(|models|)])
  {
    var ms := models + [NewModel(|models|)];
    forall i | 0 <= i < |ms|
      ensures Get(ms[i], "priority") == Some(JInt(i + 1))
    {
      if i < |models| {
        assert ms[i] == models[i];
      }
    }
  }

  /**
   * Removing a model does not renumber: from a list numbered by position,
   * removing any entry but the last leaves a gap at the removed position.
   */
  lemma {:induction false} RemoveModelLeavesGap(models: seq<Json>, index: nat)
    requires PrioritiesArePositions(models)
    requires index < |models| - 1
    ensures !PrioritiesArePositions(SpliceOne(models, index))
    ensures Get(SpliceOne(models, index)[index], "priority") == Some(JInt(index + 2))
  {
    var r := SpliceOne(models, index);
    assert r[index] == models[index + 1];
  }

  // ------------------------------------------------------------ new entries

  /** The provider `addProvider` appends, its id taken from the clock. */
  function NewProvider(now: int): (p: Json)
    ensures Get(p, "id") == Some(JStr("new_provider_" + IntToString(now)))
    ensures Get(p, "type") == Some(JStr("openai")) && Get(p, "enabled") == Some(JBool(true))
    ensures Get(p, "api_key") == Some(JStr("")) && Get(p, "models") == Some(JArr([]))
    ensures Get(p, "name") == Some(JStr("New Provider"))
    ensures p.JObj? && p.fields.Keys == {"id", "name", "type", "api_key", "enabled", "models"}
  {
    JObj(map[
      "id" := JStr("new_provider_" + IntToString(now)),
      "name" := JStr("New Provider"),
      "type" := JStr("openai"),
      "api_key" := JStr(""),
      "enabled" := JBool(true),
      "models" := JArr([])])
  }

  /** The model `addModel` pushes onto a list of `count` models. */
  function NewModel(count: nat): (m: Json)
    ensures Get(m, "id") == Some(JStr("new-model")) && Get(m, "enabled") == Some(JBool(true))
    ensures Get(m, "priority") == Some(JInt(count + 1))
  {
    JObj(map["id" := JStr("new-model"), "priority" := JInt(count + 1), "enabled" := JBool(true)])
  }

  // ------------------------------------------------------------ the topology value

  const EmptyTopology: Json := JObj(map["providers" := JArr([])])

  /** `config.ai_topology || { providers: [] }` */
  function InitialTopology(config: Doc): (t: Json)
    ensures "ai_topology" in config && Truthy(config["ai_topology"]) ==> t == config["ai_topology"]
    ensures !("ai_topology" in config && Truthy(config["ai_topology"])) ==> Providers(t) == Some([])
  {
    OrElse(Field(config, "ai_topology"), EmptyTopology)
  }

  /** `localConfig.providers` when it is an array. */
  function Providers(t: Json): Option<seq<Json>> {
    match Get(t, "providers")
    case Some(JArr(ps)) => Some(ps)
    case _ => None
  }

  /** `providers[pIndex].models` when the provider is an object holding an array. */
  function Models(t: Json, pIndex: int): Option<seq<Json>> {
    match Providers(t)
    case Some(ps) =>
      if 0 <= pIndex < |ps| then
        match Get(ps[pIndex], "models")
        case Some(JArr(ms)) => Some(ms)
        case _ => None
      else None
    case None => None
  }

  /** `{ ...t, providers: ps }` */
  function WithProviders(t: Json, ps: seq<Json>): (r: Json)
    requires t.JObj?
    ensures Providers(r) == Some(ps)
    ensures forall k :: k != "providers" ==> Get(r, k) == Get(t, k)
  {
    SetField(t, "providers", JArr(ps))
  }

  /** `providers[pIndex].models = ms` inside `t`. */
  function WithModels(t: Json, pIndex: int, ms: seq<Json>): (r: Json)
    requires Models(t, pIndex).Some?
    ensures Models(r, pIndex) == Some(ms)
    ensures forall k :: k != "providers" ==> Get(r, k) == Get(t, k)
    ensures Providers(r).Some? && |Providers(r).value| == |Providers(t).value|
    ensures forall i :: 0 <= i < |Providers(t).value| && i != pIndex ==> Providers(r).value[i] == Providers(t).value[i]
  {
    var ps := Providers(t).value;
    WithProviders(t, ps[pIndex := SetField(ps[pIndex], "models", JArr(ms))])
  }

  /** The page's state: the `config` prop and the edited copy of its `ai_topology`. */
  class TopologyEditor {
    var config: Doc
    var local: Json

    constructor(config: Doc)
      ensures this.config == config && local == InitialTopology(config)
    {
      this.config := config;
      local := InitialTopology(config);
    }

    /** A new `config` prop replaces the copy only when it carries a topology. */
    method Sync(newConfig: Doc)
      modifies this
      ensures config == newConfig
      ensures "ai_topology" in newConfig && Truthy(newConfig["ai_topology"]) ==> local == newConfig["ai_topology"]
      ensures !("ai_topology" in newConfig && Truthy(newConfig["ai_topology"])) ==> local == old(local)
    {
      config := newConfig;
      if "ai_topology" in newConfig && Truthy(newConfig["ai_topology"]) {
        local := newConfig["ai_topology"];
      }
    }

    /** `handleSave`: the full configuration with only `ai_topology` replaced. */
    method Save() returns (saved: Doc)
      ensures saved.Keys == config.Keys + {"ai_topology"}
      ensures saved["ai_topology"] == local
      ensures forall k :: k in config && k != "ai_topology" ==> saved[k] == config[k]
    {
      saved := ReplaceSection(config, "ai_topology", local);
    }

    /** The system-prompt text area: `{ ...localConfig, system_prompt: text }`. */
    method SetSystemPrompt(text: string)
      modifies this
      ensures Get(local, "system_prompt") == Some(JStr(text))
      ensures forall k :: k != "system_prompt" ==> Get(local, k) == Get(old(local), k)
      ensures config == old(config)
    {
      local := JObj(ReplaceSection(Spread(Some(local)), "system_prompt", JStr(text)));
    }

    /**
     * `updateProvider(index, field, value)`: assigns one field of one
     * provider. `ok` is false, and nothing changes, when the assignment would
     * throw (no provider list, no provider at the index, or not an object).
     */
    method UpdateProvider(index: int, field: string, value: Json) returns (ok: bool)
      modifies this
      ensures var ps := Providers(old(local));
              ok <==> ps.Some? && 0 <= index < |ps.value| && ps.value[index].JObj?
      ensures ok ==> var ps := Providers(old(local)).value;
              Providers(local) == Some(ps[index := SetField(ps[index], field, value)])
      ensures ok ==> forall k :: k != "providers" ==> Get(local, k) == Get(old(local), k)
      ensures !ok ==> local == old(local)
      ensures config == old(config)
    {
      var ps := Providers(local);
      if ps.None? || !(0 <= index < |ps.value|) || !ps.value[index].JObj? {
        return false;
      }
      var provider := ps.value[index];
      local := WithProviders(local, ps.value[index := SetField(provider, field, value)]);
      ok := true;
    }

    /** `addProvider`: appends a fresh provider and leaves the others untouched. */
    method AddProvider(now: int) returns (ok: bool)
      modifies this
      ensures ok <==> Providers(old(local)).Some?
      ensures ok ==> Providers(local) == Some(Providers(old(local)).value + [NewProvider(now)])
      ensures ok ==> forall k :: k != "providers" ==> Get(local, k) == Get(old(local), k)
      ensures !ok ==> local == old(local)
      ensures config == old(config)
    {
      var ps := Providers(local);
      if ps.None? {
        return false;
      }
      local := WithProviders(local, ps.value + [NewProvider(now)]);
      ok := true;
    }

    /** `removeProvider`: `splice(index, 1)` on the provider list. */
    method RemoveProvider(index: int) returns (ok: bool)
      modifies this
      ensures ok <==> Providers(old(local)).Some?
      ensures ok ==> Providers(local) == Some(SpliceOne(Providers(old(local)).value, index))
      ensures ok ==> forall k :: k != "providers" ==> Get(local, k) == Get(old(local), k)
      ensures !ok ==> local == old(local)
      ensures config == old(config)
    {
      var ps := Providers(local);
      if ps.None? {
        return false;
      }
      local := WithProviders(local, SpliceOne(ps.value, index));
      ok := true;
    }

    /** `moveProvider`: swaps a provider with its neighbour, or leaves the order. */
    method MoveProvider(index: int, direction: int) returns (ok: bool)
      modifies this
      ensures ok <==> Providers(old(local)).Some? && MoveAt(Providers(old(local)).value, index, direction).Some?
      ensures ok ==> Providers(local) == MoveAt(Providers(old(local)).value, index, direction)
      ensures ok ==> forall k :: k != "providers" ==> Get(local, k) == Get(old(local), k)
      ensures !ok ==> local == old(local)
      ensures config == old(config)
    {
      var ps := Providers(local);
      if ps.None? {
        return false;
      }
      var moved := MoveAt(ps.value, index, direction);
      if moved.None? {
        return false;
      }
      local := WithProviders(local, moved.value);
      ok := true;
    }

    /** `addModel`: pushes a model numbered one past the list's length. */
    method AddModel(pIndex: int) returns (ok: bool)
      modifies this
      ensures ok <==> Models(old(local), pIndex).Some?
      ensures ok ==> var ms := Models(old(local), pIndex).value;
              Models(local, pIndex) == Some(ms + [NewModel(|ms|)])
      ensures ok ==> Providers(local).Some? && |Providers(local).value| == |Providers(old(local)).value|
      ensures ok ==> forall i :: 0 <= i < |Providers(old(local)).value| && i != pIndex ==>
                Providers(local).value[i] == Providers(old(local)).value[i]
      ensures ok ==> forall k :: k != "providers" ==> Get(local, k) == Get(old(local), k)
      ensures !ok ==> local == old(local)
      ensures config == old(config)
    {
      var ms := Models(local, pIndex);
      if ms.None? {
        return false;
      }
      local := WithModels(local, pIndex, ms.value + [NewModel(|ms.value|)]);
      ok := true;
    }

    /** `removeModel`: `splice(mIndex, 1)` on one provider's models, without renumbering. */
    method RemoveModel(pIndex: int, mIndex: int) returns (ok: bool)
      modifies this
      ensures ok <==> Models(old(local), pIndex).Some?
      ensures ok ==> Models(local, pIndex) == Some(SpliceOne(Models(old(local), pIndex).value, mIndex))
      ensures ok ==> Providers(local).Some? && |Providers(local).value| == |Providers(old(local)).value|
      ensures ok ==> forall i :: 0 <= i < |Providers(old(local)).value| && i != pIndex ==>
                Providers(local).value[i] == Providers(old(local)).value[i]
      ensures ok ==> forall k :: k != "providers" ==> Get(local, k) == Get(old(local), k)
      ensures !ok ==> local == old(local)
      ensures config == old(config)
    {
      var ms := Models(local, pIndex);
      if ms.None? {
        return false;
      }
      local := WithModels(local, pIndex, SpliceOne(ms.value, mIndex));
      ok := true;
    }

    /**
     * `moveModel`: swaps a model with its neighbour (or not, at an end) and
     * then renumbers every model of that provider by position.
     */
    method MoveModel(pIndex: int, mIndex: int, direction: int) returns (ok: bool)
      modifies this
      ensures ok <==> Models(old(local), pIndex).Some? &&
                      MoveAt(Models(old(local), pIndex).value, mIndex, direction).Some? &&
                      AllObjects(Models(old(local), pIndex).value)
      ensures ok ==> Models(local, pIndex) == Renumbered(MoveAt(Models(old(local), pIndex).value, mIndex, direction).value)
      ensures ok ==> PrioritiesArePositions(Models(local, pIndex).value)
      ensures ok ==> Providers(local).Some? && |Providers(local).value| == |Providers(old(local)).value|
      ensures ok ==> forall i :: 0 <= i < |Providers(old(local)).value| && i != pIndex ==>
                Providers(local).value[i] == Providers(old(local)).value[i]
      ensures ok ==> forall k :: k != "providers" ==> Get(local, k) == Get(old(local), k)
      ensures !ok ==> local == old(local)
      ensures config == old(config)
    {
      var ms := Models(local, pIndex);
      if ms.None? {
        return false;
      }
      var moved := MoveAt(ms.value, mIndex, direction);
      if moved.None? {
        return false;
      }
      assert multiset(moved.value) == multiset(ms.value);
      assert AllObjects(moved.value) <==> AllObjects(ms.value) by {
        MultisetAllObjects(moved.value, ms.value);
      }
      var renumbered := RenumberModels(moved.value);
      if renumbered.None? {
        return false;
      }
      local := WithModels(local, pIndex, renumbered.value);
      ok := true;
    }

    /**
     * The model row's inline edits (its id box and enabled switch): assign one
     * field of one model, then `updateProvider(pIndex, 'models', models)`.
     */
    method UpdateModel(pIndex: int, mIndex: int, field: string, value: Json) returns (ok: bool)
      modifies this
      ensures ok <==> var ms := Models(old(local), pIndex);
                      ms.Some? && 0 <= mIndex < |ms.value| && ms.value[mIndex].JObj?
      ensures ok ==> var ms := Models(old(local), pIndex).value;
              Models(local, pIndex) == Some(ms[mIndex := SetField(ms[mIndex], field, value)])
      ensures ok ==> Providers(local).Some? && |Providers(local).value| == |Providers(old(local)).value|
      ensures ok ==> forall i :: 0 <= i < |Providers(old(local)).value| && i != pIndex ==>
                Providers(local).value[i] == Providers(old(local)).value[i]
      ensures ok ==> forall k :: k != "providers" ==> Get(local, k) == Get(old(local), k)
      ensures !ok ==> local == old(local)
      ensures config == old(config)
    {
      var ms := Models(local, pIndex);
      if ms.None? || !(0 <= mIndex < |ms.value|) || !ms.value[mIndex].JObj? {
        return false;
      }
      local := WithModels(local, pIndex, ms.value[mIndex := SetField(ms.value[mIndex], field, value)]);
      ok := true;
    }
  }

  /** Lists with the same elements are all objects together. */
  lemma MultisetAllObjects(a: seq<Json>, b: seq<Json>)
    requires multiset(a) == multiset(b)
    ensures AllObjects(a) <==> AllObjects(b)
  {
    if AllObjects(b) {
      forall i | 0 <= i < |a| ensures a[i].JObj? {
        assert a[i] in multiset(b);
      }
    }
    if AllObjects(a) {
      forall i | 0 <= i < |b| ensures b[i].JObj? {
        assert b[i] in multiset(a);
      }
    }
  }
}
