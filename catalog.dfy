/** The layer catalogue: each layer's configuration, the table that binds a
    (player, button) pair to the layers it toggles, and the reset screen. */
module Catalog {
  import opened Wrappers
  import opened LegendElements

  datatype LayerConfig = LayerConfig(name: string, player: int, button: int, file: string, isReset: bool)

  /** A (player, button) pair. */
  type Key = (int, int)

  /** Every index in `s` names one of `n` layers. */
  predicate InRange(s: seq<nat>, n: nat) {
    forall k :: 0 <= k < |s| ==> s[k] < n
  }

  function KeyOf(c: LayerConfig): Key {
    (c.player, c.button)
  }

  /** Indices of the configurations bound to `key`, in table order. */
  function BoundTo(configs: seq<LayerConfig>, key: Key): seq<nat> {
    if configs == [] then []
    else
      var n := |configs| - 1;
      var r := BoundTo(configs[..n], key);
      if KeyOf(configs[n]) == key then r + [n] else r
  }

  function Keys(configs: seq<LayerConfig>): set<Key> {
    set i | 0 <= i < |configs| :: KeyOf(configs[i])
  }

  /** The binding table: for each configured key, its layers in table order. */
  method BuildBindings(configs: seq<LayerConfig>) returns (bindings: map<Key, seq<nat>>)
    ensures bindings.Keys == Keys(configs)
    ensures forall key :: key in bindings ==> bindings[key] == BoundTo(configs, key)
  {
    bindings := map[];
    var i := 0;
    while i < |configs|
      invariant 0 <= i <= |configs|
      invariant Tabulates(bindings, configs[..i])
    {
      var key := KeyOf(configs[i]);
      ghost var before := bindings;
      if key !in bindings {
        bindings := bindings[key := []];
      }
      bindings := bindings[key := bindings[key] + [i]];
      BindingStep(configs, i, before, bindings);
      i := i + 1;
    }
    assert configs[..|configs|] == configs;
  }

  /** `bindings` is the binding table of `configs`. */
  ghost predicate Tabulates(bindings: map<Key, seq<nat>>, configs: seq<LayerConfig>) {
    && bindings.Keys == Keys(configs)
    && forall key :: key in bindings ==> bindings[key] == BoundTo(configs, key)
  }

  /** A key's list holds exactly the configurations with that key, each
      once and in table order. */
  lemma {:induction false} BoundToMeaning(configs: seq<LayerConfig>, key: Key)
    ensures forall k :: 0 <= k < |BoundTo(configs, key)| ==>
              BoundTo(configs, key)[k] < |configs| && KeyOf(configs[BoundTo(configs, key)[k]]) == key
    ensures forall i :: 0 <= i < |configs| && KeyOf(configs[i]) == key ==> i in BoundTo(configs, key)
    ensures forall j, k :: 0 <= j < k < |BoundTo(configs, key)| ==> BoundTo(configs, key)[j] < BoundTo(configs, key)[k]
  {
    if configs != [] {
      var n := |configs| - 1;
      BoundToMeaning(configs[..n], key);
      forall i | 0 <= i < n
        ensures configs[..n][i] == configs[i]
      {
      }
    }
  }

  lemma UnboundIsEmpty(configs: seq<LayerConfig>, key: Key)
    requires key !in Keys(configs)
    ensures BoundTo(configs, key) == []
  {
    BoundToMeaning(configs, key);
  }

  /** One more configuration extends its own key's list and nothing else. */
  lemma BindingStep(configs: seq<LayerConfig>, i: nat, before: map<Key, seq<nat>>, after: map<Key, seq<nat>>)
    requires i < |configs| && Tabulates(before, configs[..i])
    requires var key := KeyOf(configs[i]);
             after == before[key := (if key in before then before[key] else []) + [i]]
    ensures Tabulates(after, configs[..i + 1])
  {
    var key := KeyOf(configs[i]);
    assert configs[..i + 1][..i] == configs[..i];
    assert configs[..i + 1][i] == configs[i];
    if key !in before {
      UnboundIsEmpty(configs[..i], key);
    }
    assert Keys(configs[..i + 1]) == Keys(configs[..i]) + {key};
  }

  /** Every configuration is bound under its own key and under no other. */
  lemma EveryLayerBoundOnce(configs: seq<LayerConfig>, i: nat, key: Key)
    requires i < |configs|
    ensures KeyOf(configs[i]) in Keys(configs)
    ensures i in BoundTo(configs, key) <==> key == KeyOf(configs[i])
  {
    BoundToMeaning(configs, key);
  }

  /** The layer object the table joins configuration `i` to: the first one
      whose name and file match. */
  function FirstMatch(configs: seq<LayerConfig>, i: nat): (j: nat)
    requires i < |configs|
    ensures j <= i && configs[j].name == configs[i].name && configs[j].file == configs[i].file
    ensures forall k :: 0 <= k < j ==> configs[k].name != configs[i].name || configs[k].file != configs[i].file
  {
    FirstMatchFrom(configs, i, 0)
  }

  function FirstMatchFrom(configs: seq<LayerConfig>, i: nat, from: nat): (j: nat)
    requires i < |configs| && from <= i
    requires forall k :: 0 <= k < from ==> configs[k].name != configs[i].name || configs[k].file != configs[i].file
    ensures from <= j <= i && configs[j].name == configs[i].name && configs[j].file == configs[i].file
    ensures forall k :: 0 <= k < j ==> configs[k].name != configs[i].name || configs[k].file != configs[i].file
    decreases i - from
  {
    if configs[from].name == configs[i].name && configs[from].file == configs[i].file then from
    else FirstMatchFrom(configs, i, from + 1)
  }

  /** When no two configurations share both name and file, the join binds
      each configuration to its own layer, so indices stand for the join. */
  lemma JoinIsIdentity(configs: seq<LayerConfig>, i: nat)
    requires i < |configs|
    requires forall j, k :: 0 <= j < k < |configs| ==> configs[j].name != configs[k].name || configs[j].file != configs[k].file
    ensures FirstMatch(configs, i) == i
  {
  }

  /** `imagen_reinicio`: the first layer marked as the reset screen. */
  function FirstReset(resets: seq<bool>): (r: Option<nat>)
    ensures r.Some? ==> r.value < |resets| && resets[r.value] && forall k :: 0 <= k < r.value ==> !resets[k]
    ensures r.None? ==> forall k :: 0 <= k < |resets| ==> !resets[k]
  {
    if resets == [] then None
    else if resets[0] then Some(0)
    else
      var r := FirstReset(resets[1..]);
      if r.Some? then Some(r.value + 1) else None
  }

  method FindReset(resets: seq<bool>) returns (r: Option<nat>)
    ensures r == FirstReset(resets)
  {
    var i := 0;
    while i < |resets|
      invariant 0 <= i <= |resets|
      invariant forall k :: 0 <= k < i ==> !resets[k]
    {
      if resets[i] {
        FirstResetUnique(resets, i);
        return Some(i);
      }
      i := i + 1;
    }
    return None;
  }

  /** The first reset layer is the one with no reset layer before it. */
  lemma FirstResetUnique(resets: seq<bool>, i: nat)
    requires i < |resets| && resets[i] && forall k :: 0 <= k < i ==> !resets[k]
    ensures FirstReset(resets) == Some(i)
  {
  }
}
