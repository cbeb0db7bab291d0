/** The flat variables view (src/components/VariablesDisplay.tsx): the
    variables of the selected collection grouped by the first `/` segment of
    their names, each group open or closed, and the open/closed states saved
    per collection under a storage key. A `Map<string, VariableGroup>` is a
    `GroupMap`: its keys in insertion order and the group of each. Saving
    and loading through the plugin's storage are left to the caller: the
    model returns the record to save and takes the record loaded. */
module Display {
  import opened Util
  import opened Variables

  /** The `Variable` of the cards this view shows. */
  datatype CardVariable = CardVariable(name: string, displayValue: string, value: string, vtype: string)

  datatype Collection = Collection(name: string, variables: seq<CardVariable>)

  datatype VariableGroup = VariableGroup(name: string, variables: seq<CardVariable>, isOpen: bool)

  datatype GroupMap = GroupMap(keys: seq<string>, at: map<string, VariableGroup>)

  const NoGroups: GroupMap := GroupMap([], map[])

  /** What every JavaScript `Map` is: each key once, and the key list and
      the entries agree. */
  ghost predicate Valid(m: GroupMap)
  {
    Distinct(m.keys) && forall k :: k in m.at <==> k in m.keys
  }

  // ---------------------------------------------------------------------
  // The storage key

  const StorageKeyBase: string := "variable-groups-state"

  /** `${STORAGE_KEY}-${collectionName}`. */
  function StorageKey(collectionName: string): string
  {
    StorageKeyBase + "-" + collectionName
  }

  /** Each collection has its own key, and every key has the common prefix. */
  lemma StorageKeyInjective(a: string, b: string)
    ensures StorageKey(a) == StorageKey(b) <==> a == b
    ensures StartsWith(StorageKey(a), StorageKeyBase + "-")
  {
    var n := |StorageKeyBase| + 1;
    assert StorageKey(a)[n..] == a && StorageKey(b)[n..] == b;
    assert StorageKey(a)[..n] == StorageKeyBase + "-";
  }

  // ---------------------------------------------------------------------
  // Grouping by first segment

  /** `name.split("/")[0]`. */
  function BaseName(name: string): string
  {
    Segments(name)[0]
  }

  /** `variables.find((v) => v.name === selected)?.variables || []`. */
  function CurrentVariables(collections: seq<Collection>, selected: string): seq<CardVariable>
  {
    if collections == [] then []
    else if collections[0].name == selected then collections[0].variables
    else CurrentVariables(collections[1..], selected)
  }

  /** `groups.set(baseName, { name: baseName, variables: [], isOpen: true })`. */
  function AddEmpty(m: GroupMap, base: string): GroupMap
  {
    GroupMap(if base in m.at then m.keys else m.keys + [base], m.at[base := VariableGroup(base, [], true)])
  }

  /** `groups.get(baseName)?.variables.push(variable)`. */
  function PushVariable(m: GroupMap, base: string, v: CardVariable): GroupMap
  {
    if base in m.at then GroupMap(m.keys, m.at[base := m.at[base].(variables := m.at[base].variables + [v])])
    else m
  }

  /** One iteration of the `forEach`. */
  function AddToGroup(m: GroupMap, v: CardVariable): GroupMap
  {
    var base := BaseName(v.name);
    PushVariable(if base in m.at then m else AddEmpty(m, base), base, v)
  }

  function GroupFirst(vs: seq<CardVariable>): GroupMap
  {
    if vs == [] then NoGroups else AddToGroup(GroupFirst(vs[..|vs| - 1]), vs[|vs| - 1])
  }

  /** The `groupedVariables` memo: empty while no collection is selected. */
  function Grouped(collections: seq<Collection>, selected: string): GroupMap
  {
    if selected == "" then NoGroups else GroupFirst(CurrentVariables(collections, selected))
  }

  method GroupedVariables(collections: seq<Collection>, selected: string) returns (groups: GroupMap)
    ensures groups == Grouped(collections, selected)
  {
    if selected == "" {
      return NoGroups;
    }
    var currentVariables := CurrentVariables(collections, selected);
    groups := NoGroups;
    for i := 0 to |currentVariables|
      invariant groups == GroupFirst(currentVariables[..i])
    {
      var variable := currentVariables[i];
      var baseName := BaseName(variable.name);
      if baseName !in groups.at {
        groups := AddEmpty(groups, baseName);
      }
      groups := PushVariable(groups, baseName, variable);
      assert currentVariables[..i + 1][..i] == currentVariables[..i];
    }
    assert currentVariables[..|currentVariables|] == currentVariables;
  }

  /** The variables of vs whose first segment is k, in order. */
  function WithBase(vs: seq<CardVariable>, k: string): seq<CardVariable>
  {
    if vs == [] then []
    else WithBase(vs[..|vs| - 1], k) + (if BaseName(vs[|vs| - 1].name) == k then [vs[|vs| - 1]] else [])
  }

  /** The group map holds a group for k exactly when some variable has
      first segment k; that group is named k, starts open and holds those
      variables in input order. */
  lemma {:induction false} GroupFirstGroup(vs: seq<CardVariable>, k: string)
    ensures k in GroupFirst(vs).at <==> |WithBase(vs, k)| >= 1
    ensures k in GroupFirst(vs).at ==> GroupFirst(vs).at[k] == VariableGroup(k, WithBase(vs, k), true)
    decreases |vs|
  {
    if vs != [] {
      GroupFirstGroup(vs[..|vs| - 1], k);
      var pre := GroupFirst(vs[..|vs| - 1]);
      var v := vs[|vs| - 1];
      if BaseName(v.name) == k && k !in pre.at {
        assert [] + [v] == [v];
      }
    }
  }

  lemma {:induction false} GroupFirstValid(vs: seq<CardVariable>)
    ensures Valid(GroupFirst(vs))
    decreases |vs|
  {
    if vs != [] {
      var pre := GroupFirst(vs[..|vs| - 1]);
      GroupFirstValid(vs[..|vs| - 1]);
      var k := BaseName(vs[|vs| - 1].name);
      if k !in pre.at {
        var ks := pre.keys + [k];
        forall a, b | 0 <= a < b < |ks| ensures ks[a] != ks[b] {
          if b < |pre.keys| { assert ks[a] == pre.keys[a] && ks[b] == pre.keys[b]; }
          else { assert ks[a] == pre.keys[a] && pre.keys[a] in pre.keys; }
        }
      }
    }
  }

  /** Each variable lands in exactly one group, the one of its first segment. */
  lemma {:induction false} WithBaseCount(vs: seq<CardVariable>, k: string, v: CardVariable)
    ensures multiset(WithBase(vs, k))[v] == if BaseName(v.name) == k then multiset(vs)[v] else 0
    decreases |vs|
  {
    if vs != [] {
      WithBaseCount(vs[..|vs| - 1], k, v);
      assert vs == vs[..|vs| - 1] + [vs[|vs| - 1]];
    }
  }

  // ---------------------------------------------------------------------
  // Saved states

  /** The record the `reduce` builds: each group's name with its `isOpen`, in map order. */
  function StatesOf(m: GroupMap, ks: seq<string>): (states: seq<(string, bool)>)
    requires forall i :: 0 <= i < |ks| ==> ks[i] in m.at
    ensures |states| == |ks|
    ensures forall i :: 0 <= i < |ks| ==> states[i] == (ks[i], m.at[ks[i]].isOpen)
  {
    if ks == [] then [] else [(ks[0], m.at[ks[0]].isOpen)] + StatesOf(m, ks[1..])
  }

  /** The object a saved record is read back as; a later entry wins. */
  function ToObject(states: seq<(string, bool)>): map<string, bool>
  {
    if states == [] then map[]
    else ToObject(states[..|states| - 1])[states[|states| - 1].0 := states[|states| - 1].1]
  }

  lemma {:induction false} ToObjectLookup(states: seq<(string, bool)>, i: nat)
    requires i < |states|
    requires forall j :: 0 <= j < |states| && j != i ==> states[j].0 != states[i].0
    ensures states[i].0 in ToObject(states) && ToObject(states)[states[i].0] == states[i].1
    decreases |states|
  {
    if i < |states| - 1 {
      ToObjectLookup(states[..|states| - 1], i);
    }
  }

  /** Every map key is in the record of saved states. */
  lemma {:induction false} StatesCover(m: GroupMap, k: string)
    requires Valid(m) && k in m.at
    ensures k in ToObject(StatesOf(m, m.keys)) && ToObject(StatesOf(m, m.keys))[k] == m.at[k].isOpen
  {
    var i :| 0 <= i < |m.keys| && m.keys[i] == k;
    var states := StatesOf(m, m.keys);
    forall j | 0 <= j < |states| && j != i ensures states[j].0 != states[i].0 {
      if j < i { assert m.keys[j] != m.keys[i]; } else { assert m.keys[i] != m.keys[j]; }
    }
    ToObjectLookup(states, i);
  }

  // ---------------------------------------------------------------------
  // toggleGroup

  /** The copied map with the named group's `isOpen` flipped, when it exists. */
  function Flipped(prev: GroupMap, groupName: string): GroupMap
  {
    if groupName !in prev.at then prev
    else GroupMap(prev.keys, prev.at[groupName := prev.at[groupName].(isOpen := !prev.at[groupName].isOpen)])
  }

  /** `toggleGroup(groupName)`: the new map, and the states to save when the
      group exists. */
  function ToggleGroup(prev: GroupMap, groupName: string): (GroupMap, Option<seq<(string, bool)>>)
    requires Valid(prev)
  {
    var newGroups := Flipped(prev, groupName);
    if groupName !in prev.at then (prev, None)
    else (newGroups, Some(StatesOf(newGroups, newGroups.keys)))
  }

  /** Toggling flips exactly the named group and saves every group's state;
      an unknown name changes nothing and saves nothing. */
  lemma ToggleGroupSpec(prev: GroupMap, groupName: string, k: string)
    requires Valid(prev)
    ensures var (next, saved) := ToggleGroup(prev, groupName);
            Valid(next) && next.keys == prev.keys
            && (k in next.at <==> k in prev.at)
            && (k in prev.at ==> next.at[k] == if k == groupName then prev.at[k].(isOpen := !prev.at[k].isOpen) else prev.at[k])
            && (saved.Some? <==> groupName in prev.at)
            && (saved.Some? && k in next.at ==> k in ToObject(saved.value) && ToObject(saved.value)[k] == next.at[k].isOpen)
  {
    var (next, saved) := ToggleGroup(prev, groupName);
    if groupName in prev.at {
      assert Valid(next);
      if k in next.at { StatesCover(next, k); }
    }
  }

  /** Toggling the same group twice restores the map. */
  lemma ToggleTwice(prev: GroupMap, groupName: string)
    ensures Flipped(Flipped(prev, groupName), groupName) == prev
  {
    if groupName in prev.at {
      var g := prev.at[groupName];
      var once := Flipped(prev, groupName);
      assert once.at[groupName].(isOpen := !once.at[groupName].isOpen) == g;
      assert once.at[groupName := g] == prev.at;
    }
  }

  // ---------------------------------------------------------------------
  // Expand all, collapse all, and loading saved states

  /** Every group set to `open`. */
  function WithAllOpen(m: GroupMap, open: bool): GroupMap
  {
    GroupMap(m.keys, map k | k in m.at :: m.at[k].(isOpen := open))
  }

  /** `handleExpandAll` (open) and `handleCollapseAll` (not open): the loop
      over the entries, and the states to save. */
  method SetAllOpen(prev: GroupMap, open: bool) returns (newGroups: GroupMap, states: seq<(string, bool)>)
    requires Valid(prev)
    ensures newGroups == WithAllOpen(prev, open)
    ensures |states| == |prev.keys| && forall i :: 0 <= i < |states| ==> states[i] == (prev.keys[i], open)
  {
    newGroups := prev;
    for i := 0 to |prev.keys|
      invariant newGroups.keys == prev.keys && newGroups.at.Keys == prev.at.Keys
      invariant forall j :: 0 <= j < |prev.keys| ==>
                  newGroups.at[prev.keys[j]] == if j < i then prev.at[prev.keys[j]].(isOpen := open) else prev.at[prev.keys[j]]
    {
      var groupName := prev.keys[i];
      var group := newGroups.at[groupName];
      newGroups := newGroups.(at := newGroups.at[groupName := group.(isOpen := open)]);
      forall j | 0 <= j < |prev.keys| && j != i ensures prev.keys[j] != groupName {
        if j < i { assert prev.keys[j] != prev.keys[i]; } else { assert prev.keys[i] != prev.keys[j]; }
      }
    }
    forall k | k in prev.at ensures newGroups.at[k] == prev.at[k].(isOpen := open) {
      var j :| 0 <= j < |prev.keys| && prev.keys[j] == k;
    }
    states := seq(|prev.keys|, i requires 0 <= i < |prev.keys| => (prev.keys[i], open));
  }

  /** Expand-all and collapse-all keep the groups and their contents and
      set every state; doing it twice is doing it once. */
  lemma WithAllOpenSpec(m: GroupMap, open: bool, other: bool, k: string)
    requires Valid(m)
    ensures Valid(WithAllOpen(m, open))
    ensures k in WithAllOpen(m, open).at <==> k in m.at
    ensures k in m.at ==> WithAllOpen(m, open).at[k] == m.at[k].(isOpen := open)
    ensures WithAllOpen(WithAllOpen(m, other), open) == WithAllOpen(m, open)
  {
  }

  /** `savedStates[groupName] ?? true` for every group. */
  function WithSaved(m: GroupMap, saved: map<string, bool>): GroupMap
  {
    GroupMap(m.keys, map k | k in m.at :: m.at[k].(isOpen := if k in saved then saved[k] else true))
  }

  /** `msg.states || {}`. */
  function SavedOrEmpty(states: Option<map<string, bool>>): map<string, bool>
  {
    if states.Some? then states.value else map[]
  }

  /** The `group-states-loaded` handler: the loop over the entries. */
  method ApplySavedStates(prev: GroupMap, states: Option<map<string, bool>>) returns (newGroups: GroupMap)
    requires Valid(prev)
    ensures newGroups == WithSaved(prev, SavedOrEmpty(states))
  {
    var savedStates := SavedOrEmpty(states);
    newGroups := prev;
    for i := 0 to |prev.keys|
      invariant newGroups.keys == prev.keys && newGroups.at.Keys == prev.at.Keys
      invariant forall j :: 0 <= j < |prev.keys| ==>
                  newGroups.at[prev.keys[j]] == if j < i then WithSaved(prev, savedStates).at[prev.keys[j]] else prev.at[prev.keys[j]]
    {
      var groupName := prev.keys[i];
      var group := newGroups.at[groupName];
      var isOpen := if groupName in savedStates then savedStates[groupName] else true;
      newGroups := newGroups.(at := newGroups.at[groupName := group.(isOpen := isOpen)]);
      forall j | 0 <= j < |prev.keys| && j != i ensures prev.keys[j] != groupName {
        if j < i { assert prev.keys[j] != prev.keys[i]; } else { assert prev.keys[i] != prev.keys[j]; }
      }
    }
    forall k | k in prev.at ensures newGroups.at[k] == WithSaved(prev, savedStates).at[k] {
      var j :| 0 <= j < |prev.keys| && prev.keys[j] == k;
    }
  }

  /** Loading adds and removes no group; a group absent from the record opens. */
  lemma WithSavedSpec(m: GroupMap, saved: map<string, bool>, k: string)
    requires Valid(m)
    ensures Valid(WithSaved(m, saved))
    ensures k in WithSaved(m, saved).at <==> k in m.at
    ensures k in m.at && k !in saved ==> WithSaved(m, saved).at[k].isOpen
    ensures k in m.at && k in saved ==> WithSaved(m, saved).at[k] == m.at[k].(isOpen := saved[k])
  {
  }

  /** Loading the states saved for a map gives back that map. */
  lemma SaveLoadRoundTrip(m: GroupMap)
    requires Valid(m)
    ensures WithSaved(m, ToObject(StatesOf(m, m.keys))) == m
  {
    var obj := ToObject(StatesOf(m, m.keys));
    var loaded := WithSaved(m, obj);
    forall k | k in m.at ensures loaded.at[k] == m.at[k] {
      StatesCover(m, k);
      assert m.at[k].(isOpen := m.at[k].isOpen) == m.at[k];
    }
  }

  /** Loading the states a toggle saved gives back the toggled map. */
  lemma ToggleSaveLoad(prev: GroupMap, groupName: string)
    requires Valid(prev) && groupName in prev.at
    ensures var (next, saved) := ToggleGroup(prev, groupName);
            saved.Some? && WithSaved(next, ToObject(saved.value)) == next
  {
    var next := Flipped(prev, groupName);
    assert Valid(next);
    SaveLoadRoundTrip(next);
  }
}
