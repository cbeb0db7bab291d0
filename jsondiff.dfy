/** The token diff engine (src/utils/jsonDiff.ts): flattening a design-token
    tree into `path/prop` entries, comparing two flattenings, and rendering the
    changes as text blocks. Parsing is outside the model: a document is the
    value `JSON.parse` produced, or None when it threw. */
module JsonDiff {
  import opened Util
  import opened Json
  import opened Sorting

  /** `TOKEN_PROPERTIES`: the token fields recorded, in this order. */
  const TokenProps: seq<string> := ["value", "description", "type"]

  // ---------------------------------------------------------------------
  // Insertion-ordered map (a JavaScript `Map<string, JsonValue>`)

  /** The keys in insertion order and the value of each key. */
  datatype OMap = OMap(keys: seq<string>, vals: map<string, Json>)

  const EmptyMap := OMap([], map[])

  /** Each key listed once, and exactly the keys that have a value. */
  ghost predicate Valid(m: OMap)
  {
    (forall i, j :: 0 <= i < j < |m.keys| ==> m.keys[i] != m.keys[j])
    && (forall k :: k in m.vals <==> k in m.keys)
  }

  /** `m.get(k)`: None stands for `undefined`. */
  function Lookup(m: OMap, k: string): Option<Json>
  {
    if k in m.vals then Some(m.vals[k]) else None
  }

  /** `m.set(k, v)`: a present key keeps its position, a new key goes last. */
  function Assign(m: OMap, k: string, v: Json): OMap
  {
    if k in m.vals then OMap(m.keys, m.vals[k := v]) else OMap(m.keys + [k], m.vals[k := v])
  }

  /** The `set` calls of `es`, in order. */
  function AssignAll(m: OMap, es: seq<(string, Json)>): OMap
    decreases |es|
  {
    if es == [] then m else AssignAll(Assign(m, es[0].0, es[0].1), es[1..])
  }

  lemma AssignValid(m: OMap, k: string, v: Json)
    requires Valid(m)
    ensures Valid(Assign(m, k, v))
  {
  }

  /** After `set(k, v)`, k reads v and every other key reads as before. */
  lemma AssignLookup(m: OMap, k: string, v: Json, k': string)
    ensures Lookup(Assign(m, k, v), k') == if k' == k then Some(v) else Lookup(m, k')
  {
  }

  lemma {:induction false} AssignAllValid(m: OMap, es: seq<(string, Json)>)
    requires Valid(m)
    ensures Valid(AssignAll(m, es))
    decreases |es|
  {
    if es != [] {
      AssignValid(m, es[0].0, es[0].1);
      AssignAllValid(Assign(m, es[0].0, es[0].1), es[1..]);
    }
  }

  lemma {:induction false} AssignAllAppend(m: OMap, a: seq<(string, Json)>, b: seq<(string, Json)>)
    ensures AssignAll(m, a + b) == AssignAll(AssignAll(m, a), b)
    decreases |a|
  {
    if a == [] {
      assert a + b == b;
    } else {
      assert (a + b)[0] == a[0] && (a + b)[1..] == a[1..] + b;
      AssignAllAppend(Assign(m, a[0].0, a[0].1), a[1..], b);
    }
  }

  /** The value the last entry for k in `es` carries, if any. */
  function LastValue(es: seq<(string, Json)>, k: string): Option<Json>
    decreases |es|
  {
    if es == [] then None
    else if es[|es| - 1].0 == k then Some(es[|es| - 1].1)
    else LastValue(es[..|es| - 1], k)
  }

  /** After a run of `set` calls a key reads the value set last, or its
      earlier value when none of the calls names it. */
  lemma {:induction false} AssignAllLookup(m: OMap, es: seq<(string, Json)>, k: string)
    ensures Lookup(AssignAll(m, es), k) == if LastValue(es, k).Some? then LastValue(es, k) else Lookup(m, k)
    decreases |es|
  {
    if es != [] {
      var init, e := es[..|es| - 1], es[|es| - 1];
      assert es == init + [e];
      AssignAllAppend(m, init, [e]);
      AssignAllLookup(m, init, k);
      var mid := AssignAll(m, init);
      assert AssignAll(mid, [e]) == AssignAll(Assign(mid, e.0, e.1), []);
      AssignLookup(mid, e.0, e.1, k);
    }
  }

  /** A key is present after a run of `set` calls iff it was present before
      or one of the calls names it. */
  lemma {:induction false} AssignAllKeys(m: OMap, es: seq<(string, Json)>, k: string)
    ensures k in AssignAll(m, es).vals <==> k in m.vals || exists i :: 0 <= i < |es| && es[i].0 == k
    decreases |es|
  {
    if es != [] {
      AssignAllKeys(Assign(m, es[0].0, es[0].1), es[1..], k);
      if exists i :: 0 <= i < |es[1..]| && es[1..][i].0 == k {
        var i :| 0 <= i < |es[1..]| && es[1..][i].0 == k;
        assert es[i + 1].0 == k;
      }
      if exists i :: 0 <= i < |es| && es[i].0 == k {
        var i :| 0 <= i < |es| && es[i].0 == k;
        if i > 0 { assert es[1..][i - 1].0 == k; }
      }
    }
  }

  /** The `Map` object `flattenTokens` fills. */
  class PathMap {
    var keys: seq<string>
    var vals: map<string, Json>

    function Model(): OMap
      reads this
    {
      OMap(keys, vals)
    }

    /** `new Map()`. */
    constructor ()
      ensures Model() == EmptyMap
    {
      keys := [];
      vals := map[];
    }

    /** `map.get(k)`. */
    method Get(k: string) returns (v: Option<Json>)
      ensures v == Lookup(Model(), k)
    {
      v := if k in vals then Some(vals[k]) else None;
    }

    /** `result.set(k, v)`. */
    method Set(k: string, v: Json)
      modifies this
      ensures Model() == Assign(old(Model()), k, v)
    {
      if k !in vals {
        keys := keys + [k];
      }
      vals := vals[k := v];
    }
  }

  // ---------------------------------------------------------------------
  // flattenTokens

  /** Whether an object is a token: it has one of the `$`-prefixed token
      fields (`TOKEN_PROPERTIES.some`). */
  predicate IsToken(ms: seq<(string, Json)>)
  {
    exists prop :: prop in TokenProps && HasKey(ms, "$" + prop)
  }

  /** The entry one token field contributes when it is defined. */
  function PropEntry(ms: seq<(string, Json)>, path: seq<string>, prop: string): seq<(string, Json)>
  {
    match Get(ms, "$" + prop)
    case Some(v) => [(Join(path + [prop], '/'), v)]
    case None => []
  }

  /** The entries of the given token fields, in the order listed. */
  function PropEntries(ms: seq<(string, Json)>, path: seq<string>, props: seq<string>): seq<(string, Json)>
    decreases |props|
  {
    if props == [] then []
    else PropEntries(ms, path, props[..|props| - 1]) + PropEntry(ms, path, props[|props| - 1])
  }

  function TokenEntries(ms: seq<(string, Json)>, path: seq<string>): seq<(string, Json)>
  {
    PropEntries(ms, path, TokenProps)
  }

  function Width(j: Json): nat
  {
    match j
    case JObj(ms) => |ms|
    case JArr(items) => |items|
    case _ => 0
  }

  /** The `result.set` calls `traverse(j, path)` makes, in order: nothing for a
      primitive, the defined token fields for a token, otherwise the calls of
      each member or element in enumeration order. */
  function Entries(j: Json, path: seq<string>): seq<(string, Json)>
    decreases j, Width(j) + 1
  {
    match j
    case JObj(ms) => if IsToken(ms) then TokenEntries(ms, path) else MemberEntries(ms, 0, path, j)
    case JArr(items) => ItemEntries(items, 0, path, j)
    case _ => []
  }

  /** The calls for the members of `ms` from position i on. */
  function MemberEntries(ms: seq<(string, Json)>, i: nat, path: seq<string>, ghost j: Json): seq<(string, Json)>
    requires j == JObj(ms) && i <= |ms|
    decreases j, |ms| - i
  {
    if i == |ms| then [] else Entries(ms[i].1, path + [ms[i].0]) + MemberEntries(ms, i + 1, path, j)
  }

  /** The calls for the elements of `items` from position i on; an element's
      key is its decimal index, as `Object.entries` gives it. */
  function ItemEntries(items: seq<Json>, i: nat, path: seq<string>, ghost j: Json): seq<(string, Json)>
    requires j == JArr(items) && i <= |items|
    decreases j, |items| - i
  {
    if i == |items| then [] else Entries(items[i], path + [NatToString(i)]) + ItemEntries(items, i + 1, path, j)
  }

  /** The `TOKEN_PROPERTIES.forEach` of `traverse`: records each defined token field. */
  method RecordToken(result: PathMap, ms: seq<(string, Json)>, path: seq<string>)
    modifies result
    ensures result.Model() == AssignAll(old(result.Model()), TokenEntries(ms, path))
  {
    ghost var start := result.Model();
    var k := 0;
    while k < |TokenProps|
      invariant 0 <= k <= |TokenProps|
      invariant result.Model() == AssignAll(start, PropEntries(ms, path, TokenProps[..k]))
    {
      var prop := TokenProps[k];
      ghost var before := result.Model();
      var value := Get(ms, "$" + prop);
      if value.Some? {
        result.Set(Join(path + [prop], '/'), value.value);
      }
      assert TokenProps[..k + 1][..k] == TokenProps[..k];
      AssignAllAppend(start, PropEntries(ms, path, TokenProps[..k]), PropEntry(ms, path, prop));
      assert AssignAll(before, PropEntry(ms, path, prop)) == result.Model() by {
        if value.Some? {
          assert AssignAll(before, PropEntry(ms, path, prop)) == AssignAll(Assign(before, Join(path + [prop], '/'), value.value), []);
        }
      }
      k := k + 1;
    }
    assert TokenProps[..3] == TokenProps;
  }

  /** `traverse`: records the entries of `current` into `result`. */
  method Traverse(result: PathMap, current: Json, path: seq<string>)
    modifies result
    ensures result.Model() == AssignAll(old(result.Model()), Entries(current, path))
    decreases current
  {
    ghost var start := result.Model();
    match current
    case JObj(ms) =>
      if IsToken(ms) {
        RecordToken(result, ms, path);
      } else {
        var i := 0;
        while i < |ms|
          invariant 0 <= i <= |ms|
          invariant AssignAll(result.Model(), MemberEntries(ms, i, path, current)) == AssignAll(start, Entries(current, path))
        {
          ghost var before := result.Model();
          Traverse(result, ms[i].1, path + [ms[i].0]);
          AssignAllAppend(before, Entries(ms[i].1, path + [ms[i].0]), MemberEntries(ms, i + 1, path, current));
          i := i + 1;
        }
      }
    case JArr(items) =>
      var i := 0;
      while i < |items|
        invariant 0 <= i <= |items|
        invariant AssignAll(result.Model(), ItemEntries(items, i, path, current)) == AssignAll(start, Entries(current, path))
      {
        ghost var before := result.Model();
        Traverse(result, items[i], path + [NatToString(i)]);
        AssignAllAppend(before, Entries(items[i], path + [NatToString(i)]), ItemEntries(items, i + 1, path, current));
        i := i + 1;
      }
    case _ =>
  }

  // ---------------------------------------------------------------------
  // What flattening records

  /** Non-containers (null, booleans, numbers, strings) record nothing. */
  lemma PrimitiveEntries(j: Json, path: seq<string>)
    requires !j.JObj? && !j.JArr?
    ensures Entries(j, path) == []
  {
  }

  /** The token field an entry of `PropEntries` comes from. */
  lemma {:induction false} PropEntryOf(ms: seq<(string, Json)>, path: seq<string>, props: seq<string>, e: (string, Json))
    returns (prop: string)
    requires e in PropEntries(ms, path, props)
    ensures prop in props && Get(ms, "$" + prop) == Some(e.1) && e.0 == Join(path + [prop], '/')
    decreases |props|
  {
    var init, last := props[..|props| - 1], props[|props| - 1];
    if e in PropEntries(ms, path, init) {
      prop := PropEntryOf(ms, path, init, e);
      assert prop in props by { assert props == init + [last]; }
    } else {
      prop := last;
    }
  }

  /** A defined token field among `props` has its entry in `PropEntries`. */
  lemma {:induction false} PropEntryIn(ms: seq<(string, Json)>, path: seq<string>, props: seq<string>, prop: string)
    requires prop in props && Get(ms, "$" + prop).Some?
    ensures (Join(path + [prop], '/'), Get(ms, "$" + prop).value) in PropEntries(ms, path, props)
    decreases |props|
  {
    var init, last := props[..|props| - 1], props[|props| - 1];
    if prop != last {
      assert prop in init by { assert props == init + [last]; }
      PropEntryIn(ms, path, init, prop);
    }
  }

  lemma {:induction false} PropEntriesAgree(ms: seq<(string, Json)>, ms': seq<(string, Json)>, path: seq<string>, props: seq<string>)
    requires forall prop :: prop in props ==> Get(ms, "$" + prop) == Get(ms', "$" + prop)
    ensures PropEntries(ms, path, props) == PropEntries(ms', path, props)
    decreases |props|
  {
    if props != [] {
      assert props[|props| - 1] in props;
      assert forall prop :: prop in props[..|props| - 1] ==> prop in props;
      PropEntriesAgree(ms, ms', path, props[..|props| - 1]);
    }
  }

  /** The members of a token other than its token fields are never visited:
      two tokens with the same token fields record the same entries. */
  lemma LeafChildrenUnvisited(ms: seq<(string, Json)>, ms': seq<(string, Json)>, path: seq<string>)
    requires IsToken(ms)
    requires forall prop :: prop in TokenProps ==> Get(ms, "$" + prop) == Get(ms', "$" + prop)
    ensures Entries(JObj(ms), path) == Entries(JObj(ms'), path)
  {
    TokenAgree(ms, ms');
    PropEntriesAgree(ms, ms', path, TokenProps);
    TokenEntriesOf(ms, path);
    TokenEntriesOf(ms', path);
  }

  lemma TokenAgree(ms: seq<(string, Json)>, ms': seq<(string, Json)>)
    requires IsToken(ms)
    requires forall prop :: prop in TokenProps ==> Get(ms, "$" + prop) == Get(ms', "$" + prop)
    ensures IsToken(ms')
  {
    var prop :| prop in TokenProps && HasKey(ms, "$" + prop);
    assert HasKey(ms', "$" + prop);
  }

  lemma TokenEntriesOf(ms: seq<(string, Json)>, path: seq<string>)
    requires IsToken(ms)
    ensures Entries(JObj(ms), path) == TokenEntries(ms, path)
  {
  }

  /** A walk one level further up: the key of the step taken goes first. */
  function Prefix(key: string, w: Option<(seq<string>, Json)>): Option<(seq<string>, Json)>
  {
    if w.Some? then Some(([key] + w.value.0, w.value.1)) else None
  }

  /** Following the member or element positions `steps` down from j, passing
      only through containers that are not tokens: the keys met on the way and
      the value reached. */
  function Walk(j: Json, steps: seq<nat>): Option<(seq<string>, Json)>
    decreases |steps|
  {
    if steps == [] then Some(([], j))
    else match j
      case JObj(ms) =>
        if IsToken(ms) || steps[0] >= |ms| then None
        else Prefix(ms[steps[0]].0, Walk(ms[steps[0]].1, steps[1..]))
      case JArr(items) =>
        if steps[0] >= |items| then None
        else Prefix(NatToString(steps[0]), Walk(items[steps[0]], steps[1..]))
      case _ => None
  }

  /** Entry e comes from token field `prop` of the token that `steps` reach. */
  predicate RecordedVia(j: Json, path: seq<string>, e: (string, Json), steps: seq<nat>, prop: string)
  {
    var w := Walk(j, steps);
    w.Some? && w.value.1.JObj? && IsToken(w.value.1.members) && prop in TokenProps
    && Get(w.value.1.members, "$" + prop) == Some(e.1) && e.0 == Join(path + w.value.0 + [prop], '/')
  }

  ghost predicate Recorded(j: Json, path: seq<string>, e: (string, Json))
  {
    exists steps, prop :: RecordedVia(j, path, e, steps, prop)
  }

  /** A recording below the child reached by one step is a recording of the parent. */
  lemma RecordedStep(j: Json, path: seq<string>, key: string, child: Json, i: nat, e: (string, Json), steps: seq<nat>, prop: string)
    requires RecordedVia(child, path + [key], e, steps, prop)
    requires Walk(j, [i] + steps) == Prefix(key, Walk(child, steps))
    ensures Recorded(j, path, e)
  {
    var w := Walk(child, steps).value;
    assert path + [key] + w.0 + [prop] == path + ([key] + w.0) + [prop];
    assert RecordedVia(j, path, e, [i] + steps, prop);
  }

  /** Every entry `traverse(j, path)` records is a defined token field of a
      token reachable from j through non-token containers, keyed by the path
      to it followed by the field name. */
  lemma {:induction false} EntriesSound(j: Json, path: seq<string>, e: (string, Json))
    requires e in Entries(j, path)
    ensures Recorded(j, path, e)
    decreases j, Width(j) + 1
  {
    match j
    case JObj(ms) =>
      if IsToken(ms) {
        TokenSound(ms, path, e);
      } else {
        MembersSound(ms, 0, path, j, e);
      }
    case JArr(items) =>
      ItemsSound(items, 0, path, j, e);
  }

  lemma TokenSound(ms: seq<(string, Json)>, path: seq<string>, e: (string, Json))
    requires IsToken(ms) && e in TokenEntries(ms, path)
    ensures Recorded(JObj(ms), path, e)
  {
    var prop := PropEntryOf(ms, path, TokenProps, e);
    assert path + [] + [prop] == path + [prop];
    assert RecordedVia(JObj(ms), path, e, [], prop);
  }

  lemma {:induction false} MembersSound(ms: seq<(string, Json)>, i: nat, path: seq<string>, j: Json, e: (string, Json))
    requires j == JObj(ms) && i <= |ms| && !IsToken(ms)
    requires e in MemberEntries(ms, i, path, j)
    ensures Recorded(j, path, e)
    decreases j, |ms| - i
  {
    if e in Entries(ms[i].1, path + [ms[i].0]) {
      EntriesSound(ms[i].1, path + [ms[i].0], e);
      var steps, prop :| RecordedVia(ms[i].1, path + [ms[i].0], e, steps, prop);
      assert ([i] + steps)[0] == i && ([i] + steps)[1..] == steps;
      RecordedStep(j, path, ms[i].0, ms[i].1, i, e, steps, prop);
    } else {
      MembersSound(ms, i + 1, path, j, e);
    }
  }

  lemma {:induction false} ItemsSound(items: seq<Json>, i: nat, path: seq<string>, j: Json, e: (string, Json))
    requires j == JArr(items) && i <= |items|
    requires e in ItemEntries(items, i, path, j)
    ensures Recorded(j, path, e)
    decreases j, |items| - i
  {
    if e in Entries(items[i], path + [NatToString(i)]) {
      EntriesSound(items[i], path + [NatToString(i)], e);
      var steps, prop :| RecordedVia(items[i], path + [NatToString(i)], e, steps, prop);
      assert ([i] + steps)[0] == i && ([i] + steps)[1..] == steps;
      RecordedStep(j, path, NatToString(i), items[i], i, e, steps, prop);
    } else {
      ItemsSound(items, i + 1, path, j, e);
    }
  }

  /** The converse of `EntriesSound`: every defined token field of every
      token reachable from j through non-token containers is recorded, under
      the path to it followed by the field name. */
  lemma {:induction false} EntriesComplete(j: Json, path: seq<string>, e: (string, Json), steps: seq<nat>, prop: string)
    requires RecordedVia(j, path, e, steps, prop)
    ensures e in Entries(j, path)
    decreases |steps|
  {
    var w := Walk(j, steps).value;
    if steps == [] {
      assert path + w.0 + [prop] == path + [prop];
      PropEntryIn(j.members, path, TokenProps, prop);
    } else {
      var i, rest := steps[0], steps[1..];
      var kc := StepInto(j, i);
      var key, child := kc.0, kc.1;
      var w' := Walk(child, rest).value;
      assert path + w.0 + [prop] == (path + [key]) + w'.0 + [prop];
      assert RecordedVia(child, path + [key], e, rest, prop);
      EntriesComplete(child, path + [key], e, rest, prop);
      if j.JObj? {
        MemberEntriesContain(j.members, 0, i, path, j, e);
      } else {
        ItemEntriesContain(j.items, 0, i, path, j, e);
      }
    }
  }

  /** The key and the value one step of a walk moves to. */
  function StepInto(j: Json, i: nat): (string, Json)
    requires (j.JObj? && i < |j.members|) || (j.JArr? && i < |j.items|)
  {
    if j.JObj? then j.members[i] else (NatToString(i), j.items[i])
  }

  /** A member's entries are among those of the members from k on, when its
      position is at least k. */
  lemma {:induction false} MemberEntriesContain(ms: seq<(string, Json)>, k: nat, i: nat, path: seq<string>, j: Json, e: (string, Json))
    requires j == JObj(ms) && k <= i < |ms|
    requires e in Entries(ms[i].1, path + [ms[i].0])
    ensures e in MemberEntries(ms, k, path, j)
    decreases i - k
  {
    if k < i {
      MemberEntriesContain(ms, k + 1, i, path, j, e);
    }
  }

  /** The same for the elements of an array. */
  lemma {:induction false} ItemEntriesContain(items: seq<Json>, k: nat, i: nat, path: seq<string>, j: Json, e: (string, Json))
    requires j == JArr(items) && k <= i < |items|
    requires e in Entries(items[i], path + [NatToString(i)])
    ensures e in ItemEntries(items, k, path, j)
    decreases i - k
  {
    if k < i {
      ItemEntriesContain(items, k + 1, i, path, j, e);
    }
  }

  /** Recorded exactly when reachable: the entries of `traverse(j, path)` are
      the defined token fields of the tokens reachable from j. */
  lemma EntriesIff(j: Json, path: seq<string>, e: (string, Json))
    ensures e in Entries(j, path) <==> Recorded(j, path, e)
  {
    if e in Entries(j, path) {
      EntriesSound(j, path, e);
    }
    if Recorded(j, path, e) {
      var steps, prop :| RecordedVia(j, path, e, steps, prop);
      EntriesComplete(j, path, e, steps, prop);
    }
  }

  /** In the flattened map a key holds the value its last recording gave it,
      and that recording is a token field reachable in the document. */
  lemma FlattenLookup(obj: Json, k: string)
    ensures Lookup(Flatten(obj), k) == LastValue(Entries(obj, []), k)
    ensures Lookup(Flatten(obj), k).Some? ==> Recorded(obj, [], (k, Lookup(Flatten(obj), k).value))
  {
    var es := Entries(obj, []);
    AssignAllLookup(EmptyMap, es, k);
    if LastValue(es, k).Some? {
      var i := LastIndex(es, k);
      EntriesSound(obj, [], es[i]);
    }
  }

  /** Every reachable token field has its key in the flattened map, so a
      change to any token field reaches the comparison. */
  lemma FlattenComplete(obj: Json, e: (string, Json))
    requires Recorded(obj, [], e)
    ensures Lookup(Flatten(obj), e.0).Some?
  {
    EntriesIff(obj, [], e);
    var es := Entries(obj, []);
    LastValueSome(es, e);
    AssignAllLookup(EmptyMap, es, e.0);
  }

  /** A key that some entry names has a last value. */
  lemma {:induction false} LastValueSome(es: seq<(string, Json)>, e: (string, Json))
    requires e in es
    ensures LastValue(es, e.0).Some?
    decreases |es|
  {
    if es[|es| - 1].0 != e.0 {
      assert e in es[..|es| - 1] by { assert es == es[..|es| - 1] + [es[|es| - 1]]; }
      LastValueSome(es[..|es| - 1], e);
    }
  }

  /** The position of the entry `LastValue` reads. */
  lemma {:induction false} LastIndex(es: seq<(string, Json)>, k: string) returns (i: nat)
    requires LastValue(es, k).Some?
    ensures i < |es| && es[i] == (k, LastValue(es, k).value)
    decreases |es|
  {
    if es[|es| - 1].0 == k {
      i := |es| - 1;
    } else {
      i := LastIndex(es[..|es| - 1], k);
    }
  }

  /** What `flattenTokens(obj)` returns. */
  function Flatten(obj: Json): OMap
  {
    AssignAll(EmptyMap, Entries(obj, []))
  }

  /** `flattenTokens(obj)`: a fresh map filled by `traverse(obj, [])`. */
  method FlattenTokens(obj: Json) returns (result: PathMap)
    ensures fresh(result)
    ensures result.Model() == Flatten(obj) && Valid(result.Model())
  {
    result := new PathMap();
    Traverse(result, obj, []);
    AssignAllValid(EmptyMap, Entries(obj, []));
  }

  // ---------------------------------------------------------------------
  // findJsonDiff

  /** `ValueChange`: the key split at '/', and both sides. */
  datatype ValueChange = ValueChange(path: seq<string>, oldValue: Json, newValue: Json)

  /** The same change seen from the other side. */
  function Swap(c: ValueChange): ValueChange
  {
    ValueChange(c.path, c.newValue, c.oldValue)
  }

  /** `v !== undefined ? v : null`. */
  function OrNull(v: Option<Json>): Json
  {
    if v.Some? then v.value else JNull
  }

  /** The keys of ks in order, each kept at its first occurrence and only
      when not in `seen` (how a `Set` built from a key list enumerates). */
  function Unique(ks: seq<string>, seen: seq<string>): seq<string>
    decreases |ks|
  {
    if ks == [] then []
    else if ks[0] in seen then Unique(ks[1..], seen)
    else [ks[0]] + Unique(ks[1..], seen + [ks[0]])
  }

  predicate DistinctPaths(d: seq<ValueChange>)
  {
    forall i, j :: 0 <= i < j < |d| ==> d[i].path != d[j].path
  }

  /** `new Set([...oldTokens.keys(), ...newTokens.keys()])`. */
  function AllPaths(a: OMap, b: OMap): seq<string>
  {
    Unique(a.keys + b.keys, [])
  }

  /** Whether the two sides render differently for key p. */
  predicate Differs(a: OMap, b: OMap, p: string)
  {
    Lookup(a, p) != Lookup(b, p)
  }

  /** The change pushed for key p. */
  function ChangeAt(a: OMap, b: OMap, p: string): ValueChange
  {
    ValueChange(Split(p, '/'), OrNull(Lookup(a, p)), OrNull(Lookup(b, p)))
  }

  /** The changes the loop pushes for the keys `ps`, in order. */
  function DiffOver(a: OMap, b: OMap, ps: seq<string>): seq<ValueChange>
    decreases |ps|
  {
    if ps == [] then []
    else
      var last := ps[|ps| - 1];
      DiffOver(a, b, ps[..|ps| - 1]) + (if Differs(a, b, last) then [ChangeAt(a, b, last)] else [])
  }

  function Diff(a: OMap, b: OMap): seq<ValueChange>
  {
    DiffOver(a, b, AllPaths(a, b))
  }

  /** What `findJsonDiff` returns for two parse results (None: `JSON.parse` threw). */
  function JsonDiffOf(oldDoc: Option<Json>, newDoc: Option<Json>): seq<ValueChange>
  {
    if oldDoc.None? || newDoc.None? then [] else Diff(Flatten(oldDoc.value), Flatten(newDoc.value))
  }

  /** `findJsonDiff`: an input that fails to parse gives no changes. */
  method FindJsonDiff(oldDoc: Option<Json>, newDoc: Option<Json>) returns (changes: seq<ValueChange>)
    ensures changes == JsonDiffOf(oldDoc, newDoc)
    ensures oldDoc.None? || newDoc.None? ==> changes == []
  {
    if oldDoc.None? || newDoc.None? {
      return [];
    }
    var oldTokens := FlattenTokens(oldDoc.value);
    var newTokens := FlattenTokens(newDoc.value);
    ghost var a, b := oldTokens.Model(), newTokens.Model();
    changes := [];
    var allPaths := Unique(oldTokens.keys + newTokens.keys, []);
    var i := 0;
    while i < |allPaths|
      invariant 0 <= i <= |allPaths|
      invariant oldTokens.Model() == a && newTokens.Model() == b
      invariant changes == DiffOver(a, b, allPaths[..i])
    {
      var path := allPaths[i];
      var oldValue := oldTokens.Get(path);
      var newValue := newTokens.Get(path);
      if oldValue != newValue {
        changes := changes + [ValueChange(Split(path, '/'), OrNull(oldValue), OrNull(newValue))];
      }
      assert allPaths[..i + 1][..i] == allPaths[..i] && allPaths[..i + 1][i] == path;
      assert DiffOver(a, b, allPaths[..i + 1]) == DiffOver(a, b, allPaths[..i]) + (if Differs(a, b, path) then [ChangeAt(a, b, path)] else []);
      i := i + 1;
    }
    assert allPaths[..i] == allPaths;
  }

  lemma FlattenValid(obj: Json)
    ensures Valid(Flatten(obj))
  {
    AssignAllValid(EmptyMap, Entries(obj, []));
  }

  lemma {:induction false} UniqueMember(ks: seq<string>, seen: seq<string>, p: string)
    ensures p in Unique(ks, seen) <==> p in ks && p !in seen
    decreases |ks|
  {
    if ks != [] {
      UniqueMember(ks[1..], seen + [ks[0]], p);
      UniqueMember(ks[1..], seen, p);
      assert p in ks <==> p == ks[0] || p in ks[1..] by { assert ks == [ks[0]] + ks[1..]; }
    }
  }

  lemma {:induction false} UniqueDistinct(ks: seq<string>, seen: seq<string>)
    ensures Distinct(Unique(ks, seen))
    decreases |ks|
  {
    if ks != [] && ks[0] !in seen {
      UniqueDistinct(ks[1..], seen + [ks[0]]);
      var rest := Unique(ks[1..], seen + [ks[0]]);
      forall j | 0 <= j < |rest| ensures rest[j] != ks[0] {
        UniqueMember(ks[1..], seen + [ks[0]], rest[j]);
      }
      var u := Unique(ks, seen);
      assert u == [ks[0]] + rest;
      forall i, j | 0 <= i < j < |u| ensures u[i] != u[j] {
        if i > 0 { assert u[i] == rest[i - 1] && u[j] == rest[j - 1]; }
        else { assert u[j] == rest[j - 1]; }
      }
    } else if ks != [] {
      UniqueDistinct(ks[1..], seen);
      assert Unique(ks, seen) == Unique(ks[1..], seen);
    }
  }

  /** The keys compared are exactly those of either side. */
  lemma AllPathsMember(a: OMap, b: OMap, p: string)
    ensures p in AllPaths(a, b) <==> p in a.keys || p in b.keys
  {
    UniqueMember(a.keys + b.keys, [], p);
  }

  lemma {:induction false} DiffOverMember(a: OMap, b: OMap, ps: seq<string>, c: ValueChange)
    ensures c in DiffOver(a, b, ps) <==> exists p :: p in ps && Differs(a, b, p) && c == ChangeAt(a, b, p)
    decreases |ps|
  {
    if ps != [] {
      var init, last := ps[..|ps| - 1], ps[|ps| - 1];
      DiffOverMember(a, b, init, c);
      assert forall p :: p in ps <==> p in init || p == last by { assert ps == init + [last]; }
    }
  }

  /** A change is listed iff some key of either side reads differently on
      the two sides, and the change is the one built for that key. */
  lemma DiffMember(a: OMap, b: OMap, c: ValueChange)
    ensures c in Diff(a, b) <==> exists p :: (p in a.keys || p in b.keys) && Differs(a, b, p) && c == ChangeAt(a, b, p)
  {
    DiffOverMember(a, b, AllPaths(a, b), c);
    forall p ensures p in AllPaths(a, b) <==> p in a.keys || p in b.keys {
      AllPathsMember(a, b, p);
    }
  }

  /** Comparing a flattening with itself finds nothing. */
  lemma {:induction false} DiffOverSelf(a: OMap, ps: seq<string>)
    ensures DiffOver(a, a, ps) == []
    decreases |ps|
  {
    if ps != [] {
      DiffOverSelf(a, ps[..|ps| - 1]);
    }
  }

  /** `findJsonDiff(X, X)` is empty. */
  lemma JsonDiffSelf(doc: Option<Json>)
    ensures JsonDiffOf(doc, doc) == []
  {
    if doc.Some? {
      DiffOverSelf(Flatten(doc.value), AllPaths(Flatten(doc.value), Flatten(doc.value)));
    }
  }

  /** Every change is keyed by a key of either side that reads differently on
      the two sides; its path joins back to that key, and a side is `null`
      exactly when the key is absent there or holds `null`. */
  lemma DiffEntry(a: OMap, b: OMap, c: ValueChange)
    requires Valid(a) && Valid(b) && c in Diff(a, b)
    ensures var p := Join(c.path, '/');
            (p in a.keys || p in b.keys) && Differs(a, b, p)
            && c.oldValue == OrNull(Lookup(a, p)) && c.newValue == OrNull(Lookup(b, p))
            && (c.oldValue == JNull <==> p !in a.keys || a.vals[p] == JNull)
            && (c.newValue == JNull <==> p !in b.keys || b.vals[p] == JNull)
  {
    DiffMember(a, b, c);
    var p :| (p in a.keys || p in b.keys) && Differs(a, b, p) && c == ChangeAt(a, b, p);
    JoinSplit(p, '/');
  }

  /** Swapping the two sides lists the same keys with the values exchanged. */
  lemma DiffSwap(a: OMap, b: OMap, c: ValueChange)
    ensures c in Diff(a, b) <==> Swap(c) in Diff(b, a)
  {
    DiffMember(a, b, c);
    DiffMember(b, a, Swap(c));
    if c in Diff(a, b) {
      var p :| (p in a.keys || p in b.keys) && Differs(a, b, p) && c == ChangeAt(a, b, p);
      assert Swap(c) == ChangeAt(b, a, p);
    }
    if Swap(c) in Diff(b, a) {
      var p :| (p in b.keys || p in a.keys) && Differs(b, a, p) && Swap(c) == ChangeAt(b, a, p);
      assert c == ChangeAt(a, b, p);
    }
  }

  lemma {:induction false} DiffOverDistinct(a: OMap, b: OMap, ps: seq<string>)
    requires Distinct(ps)
    ensures DistinctPaths(DiffOver(a, b, ps))
    decreases |ps|
  {
    if ps != [] {
      var init, last := ps[..|ps| - 1], ps[|ps| - 1];
      DiffOverDistinct(a, b, init);
      var d0 := DiffOver(a, b, init);
      var d := DiffOver(a, b, ps);
      if !Differs(a, b, last) {
        assert d == d0;
      } else {
        assert d == d0 + [ChangeAt(a, b, last)];
        forall i | 0 <= i < |d0| ensures d0[i].path != Split(last, '/') {
          DiffOverMember(a, b, init, d0[i]);
          var p :| p in init && Differs(a, b, p) && d0[i] == ChangeAt(a, b, p);
          JoinSplit(p, '/');
          JoinSplit(last, '/');
        }
        forall i, j | 0 <= i < j < |d| ensures d[i].path != d[j].path {
          if j < |d0| { assert d[i] == d0[i] && d[j] == d0[j]; }
          else { assert d[i] == d0[i] && d[j] == ChangeAt(a, b, last); }
        }
      }
    }
  }

  /** Each key is reported at most once. */
  lemma DiffDistinct(a: OMap, b: OMap)
    ensures DistinctPaths(Diff(a, b))
  {
    UniqueDistinct(a.keys + b.keys, []);
    DiffOverDistinct(a, b, AllPaths(a, b));
  }

  /** The swap property for the documents themselves. */
  lemma JsonDiffSwap(oldDoc: Option<Json>, newDoc: Option<Json>, c: ValueChange)
    ensures c in JsonDiffOf(oldDoc, newDoc) <==> Swap(c) in JsonDiffOf(newDoc, oldDoc)
  {
    if oldDoc.Some? && newDoc.Some? {
      DiffSwap(Flatten(oldDoc.value), Flatten(newDoc.value), c);
    }
  }

  // ---------------------------------------------------------------------
  // isHexColor, formatValue

  /** `/^#([A-Fa-f0-9]{6}|[A-Fa-f0-9]{3})$/`. */
  predicate IsHexColor(s: string)
  {
    (|s| == 7 || |s| == 4) && s[0] == '#' && forall i :: 1 <= i < |s| ==> IsHexDigit(s[i])
  }

  /** `\w`: ASCII letters, digits and '_'. */
  predicate IsWordChar(c: char)
  {
    ('a' <= c <= 'z') || ('A' <= c <= 'Z') || ('0' <= c <= '9') || c == '_'
  }

  /** The number of word characters at the start of s. */
  function WordRun(s: string): (n: nat)
    ensures n <= |s|
    ensures forall i :: 0 <= i < n ==> IsWordChar(s[i])
    ensures n < |s| ==> !IsWordChar(s[n])
  {
    if s == [] || !IsWordChar(s[0]) then 0 else 1 + WordRun(s[1..])
  }

  /** The length of the name in a match of `"\$(\w+)":` at the start of s,
      if one starts there. */
  function KeyMatch(s: string): Option<nat>
  {
    if |s| < 2 || s[0] != '"' || s[1] != '$' then None
    else
      var n := WordRun(s[2..]);
      if n >= 1 && 2 + n + 2 <= |s| && s[2 + n] == '"' && s[3 + n] == ':' then Some(n) else None
  }

  /** `value.replace(/"\$(\w+)":/g, '"$1":')`: scanning left to right, each
      match loses its '$' and the scan resumes after it. */
  function CleanKeys(s: string): string
    decreases |s|
  {
    if s == [] then ""
    else match KeyMatch(s)
      case Some(n) => s[..1] + s[2..4 + n] + CleanKeys(s[4 + n..])
      case None => [s[0]] + CleanKeys(s[1..])
  }

  /** s without its '$' characters. */
  function DropDollars(s: string): string
    decreases |s|
  {
    if s == [] then "" else (if s[0] == '$' then "" else [s[0]]) + DropDollars(s[1..])
  }

  lemma {:induction false} DropDollarsAppend(a: string, b: string)
    ensures DropDollars(a + b) == DropDollars(a) + DropDollars(b)
    decreases |a|
  {
    if a == [] {
      assert a + b == b;
    } else {
      assert (a + b)[0] == a[0] && (a + b)[1..] == a[1..] + b;
      DropDollarsAppend(a[1..], b);
    }
  }

  /** The rewrite deletes '$' characters and nothing else. */
  lemma {:induction false} CleanKeysDropsOnlyDollars(s: string)
    ensures DropDollars(CleanKeys(s)) == DropDollars(s)
    ensures |CleanKeys(s)| <= |s|
    decreases |s|
  {
    if s != [] {
      match KeyMatch(s)
      case Some(n) =>
        assert CleanKeys(s) == s[..1] + s[2..4 + n] + CleanKeys(s[4 + n..]);
        CleanKeysDropsOnlyDollars(s[4 + n..]);
        DropMatchedDollar(s, n, CleanKeys(s[4 + n..]));
      case None =>
        assert CleanKeys(s) == [s[0]] + CleanKeys(s[1..]);
        CleanKeysDropsOnlyDollars(s[1..]);
        assert s == [s[0]] + s[1..];
        DropDollarsAppend([s[0]], CleanKeys(s[1..]));
    }
  }

  /** Deleting the '$' of one match keeps the '$'-free text. */
  lemma DropMatchedDollar(s: string, n: nat, cleanedRest: string)
    requires 4 + n <= |s| && s[1] == '$'
    requires DropDollars(cleanedRest) == DropDollars(s[4 + n..])
    ensures DropDollars(s[..1] + s[2..4 + n] + cleanedRest) == DropDollars(s)
  {
    assert s == s[..1] + [s[1]] + s[2..4 + n] + s[4 + n..];
    DropOneDollar(s[..1], s[2..4 + n], s[4 + n..], cleanedRest);
  }

  /** The '$'-free text of a + "$" + m + r, with r rewritten to r'. */
  lemma DropOneDollar(a: string, m: string, r: string, r': string)
    requires DropDollars(r') == DropDollars(r)
    ensures DropDollars(a + m + r') == DropDollars(a + ['$'] + m + r)
  {
    var da, dm, dr := DropDollars(a), DropDollars(m), DropDollars(r);
    DropDollarsAppend(a, ['$']);
    assert DropDollars(['$']) == "";
    assert DropDollars(a + ['$']) == da;
    DropDollarsAppend(a + ['$'], m);
    assert DropDollars(a + ['$'] + m) == da + dm;
    DropDollarsAppend(a + ['$'] + m, r);
    assert DropDollars(a + ['$'] + m + r) == da + dm + dr;
    DropDollarsAppend(a, m);
    DropDollarsAppend(a + m, r');
    assert DropDollars(a + m + r') == da + dm + dr;
  }

  /** A string without '$' is left as it is. */
  lemma {:induction false} CleanKeysNoDollar(s: string)
    requires '$' !in s
    ensures CleanKeys(s) == s
    decreases |s|
  {
    if s != [] {
      if |s| >= 2 { assert s[1] in s; }
      assert '$' !in s[1..];
      CleanKeysNoDollar(s[1..]);
    }
  }

  /** A member name `"$name":` at the front is rewritten to `"name":`, and the
      rest is rewritten on its own. */
  lemma CleanKeysName(name: string, rest: string)
    requires |name| >= 1 && forall i :: 0 <= i < |name| ==> IsWordChar(name[i])
    ensures CleanKeys("\"$" + name + "\":" + rest) == "\"" + name + "\":" + CleanKeys(rest)
  {
    var s := "\"$" + name + "\":" + rest;
    var n := |name|;
    assert s[0] == '"' && s[1] == '$' && s[2..] == name + "\":" + rest;
    WordRunPrefix(name, "\":" + rest);
    assert s[2 + n] == '"' && s[3 + n] == ':';
    assert KeyMatch(s) == Some(n);
    assert s[..1] + s[2..4 + n] == "\"" + name + "\":" && s[4 + n..] == rest;
  }

  lemma {:induction false} WordRunPrefix(name: string, t: string)
    requires forall i :: 0 <= i < |name| ==> IsWordChar(name[i])
    requires t != [] && !IsWordChar(t[0])
    ensures WordRun(name + t) == |name|
    decreases |name|
  {
    if name == [] {
      assert name + t == t;
    } else {
      assert (name + t)[0] == name[0] && (name + t)[1..] == name[1..] + t;
      WordRunPrefix(name[1..], t);
    }
  }

  /** The swatch markup for a colour value. */
  function Swatch(action: string, prop: string, value: string): string
  {
    "<span style=\"display: flex; align-items: center; gap: 4px; height: 26px;\"><span>" + action + " " + prop
    + ":</span><span style=\"background-color: " + value
    + "; display: inline-block; width: 16px; height: 16px;\"></span><span>" + action + " " + value + "</span></span>"
  }

  /** `formatValue`; `prop` is None when the path has no segment (`undefined`). */
  function FormatValue(action: string, prop: Option<string>, value: Json): (r: string)
    ensures !value.JStr? ==> r == Stringify(value)
    ensures value.JStr? && prop == Some("value") && IsHexColor(value.s) ==> r == Swatch(action, "value", value.s)
    ensures value.JStr? && !(prop == Some("value") && IsHexColor(value.s)) ==> r == CleanKeys(value.s)
  {
    if !value.JStr? then Stringify(value)
    else if prop == Some("value") && IsHexColor(value.s) then Swatch(action, "value", value.s)
    else CleanKeys(value.s)
  }

  /** An absent side (`null`) renders as `null`. */
  lemma AbsentRendersNull(action: string, prop: Option<string>)
    ensures FormatValue(action, prop, JNull) == "null"
  {
  }

  // ---------------------------------------------------------------------
  // formatJsonDiff

  /** `segment.replace(/^\$/, "")`. */
  function StripDollar(seg: string): (r: string)
    ensures seg != [] && seg[0] == '$' ==> r == seg[1..]
    ensures (seg == [] || seg[0] != '$') ==> r == seg
  {
    if seg != [] && seg[0] == '$' then seg[1..] else seg
  }

  function StripAll(segs: seq<string>): (r: seq<string>)
    ensures |r| == |segs| && forall i :: 0 <= i < |segs| ==> r[i] == StripDollar(segs[i])
  {
    seq(|segs|, i requires 0 <= i < |segs| => StripDollar(segs[i]))
  }

  /** `lines.join(sep)` for a string separator. */
  function JoinWith(parts: seq<string>, sep: string): string
    decreases |parts|
  {
    if parts == [] then ""
    else if |parts| == 1 then parts[0]
    else parts[0] + sep + JoinWith(parts[1..], sep)
  }

  /** The text block of one change: `lines.join("\n")` of the header
      `@ <path>`, the old side and the new side (neither side is ever
      `undefined`, so all three lines are always there). */
  function Block(c: ValueChange): string
  {
    Header(c) + "\n" + FormatValue("-", Prop(c), c.oldValue) + "\n" + FormatValue("+", Prop(c), c.newValue)
  }

  /** `@ <path>`, with the segments stripped of a leading '$'. */
  function Header(c: ValueChange): string
  {
    "@ " + Join(StripAll(c.path), '/')
  }

  /** `propertyName`: the last stripped segment (`undefined` for no segment). */
  function Prop(c: ValueChange): Option<string>
  {
    var segs := StripAll(c.path);
    if segs == [] then None else Some(segs[|segs| - 1])
  }

  /** The property name of a change keyed by a token field is that field's
      name: a `$value` change is shown as `value`, so a hex colour gets the
      swatch. */
  lemma PropOfField(c: ValueChange, prefix: seq<string>, prop: string)
    requires prop in TokenProps && c.path == Split(Join(prefix + [prop], '/'), '/')
    ensures Prop(c) == Some(prop)
  {
    LastSegment(prefix, prop);
    var segs := StripAll(c.path);
    assert segs[|segs| - 1] == StripDollar(prop);
    assert prop == "value" || prop == "description" || prop == "type";
  }

  /** The last segment of a key ending in a field name is that name. */
  lemma LastSegment(prefix: seq<string>, prop: string)
    requires prop in TokenProps
    ensures var segs := Split(Join(prefix + [prop], '/'), '/');
            |segs| >= 1 && segs[|segs| - 1] == prop
  {
    assert '/' !in prop by {
      assert prop == "value" || prop == "description" || prop == "type";
    }
    SplitNoSepString(prop, '/');
    if prefix == [] {
      assert prefix + [prop] == [prop];
    } else {
      JoinSnoc(prefix, prop, '/');
      SplitAround(Join(prefix, '/'), prop, '/');
    }
  }

  /** Every key of a flattening was set by some entry of the walk. */
  lemma KeyEntry(doc: Json, p: string) returns (e: (string, Json))
    requires p in Flatten(doc).keys
    ensures e in Entries(doc, []) && e.0 == p
  {
    var es := Entries(doc, []);
    FlattenValid(doc);
    AssignAllKeys(EmptyMap, es, p);
    var i :| 0 <= i < |es| && es[i].0 == p;
    e := es[i];
  }

  /** The key of a recorded entry is the path, the keys walked and a field name. */
  lemma RecordedKey(j: Json, path: seq<string>, e: (string, Json)) returns (keys: seq<string>, prop: string)
    requires Recorded(j, path, e)
    ensures prop in TokenProps && e.0 == Join(path + keys + [prop], '/')
  {
    var steps, pr :| RecordedVia(j, path, e, steps, pr);
    keys, prop := Walk(j, steps).value.0, pr;
  }

  /** Every key of a flattening is the key of some token field. */
  lemma FlattenKeyField(doc: Json, p: string) returns (prefix: seq<string>, prop: string)
    requires p in Flatten(doc).keys
    ensures prop in TokenProps && p == Join(prefix + [prop], '/')
  {
    var e := KeyEntry(doc, p);
    EntriesSound(doc, [], e);
    prefix, prop := RecordedKey(doc, [], e);
    assert [] + prefix + [prop] == prefix + [prop];
  }

  /** Every change `findJsonDiff` reports names a token field as its
      property: `value`, `description` or `type`. */
  lemma DiffProp(oldDoc: Option<Json>, newDoc: Option<Json>, c: ValueChange)
    requires c in JsonDiffOf(oldDoc, newDoc)
    ensures Prop(c).Some? && Prop(c).value in TokenProps
  {
    var a, b := Flatten(oldDoc.value), Flatten(newDoc.value);
    DiffMember(a, b, c);
    var p :| (p in a.keys || p in b.keys) && Differs(a, b, p) && c == ChangeAt(a, b, p);
    var prefix, prop;
    if p in a.keys {
      prefix, prop := FlattenKeyField(oldDoc.value, p);
    } else {
      prefix, prop := FlattenKeyField(newDoc.value, p);
    }
    PropOfField(c, prefix, prop);
  }

  /** A block is exactly three lines, the header, the old side and the new
      side, whenever none of them itself holds a line break. */
  lemma BlockLines(c: ValueChange)
    requires '\n' !in Header(c)
    requires '\n' !in FormatValue("-", Prop(c), c.oldValue) && '\n' !in FormatValue("+", Prop(c), c.newValue)
    ensures Split(Block(c), '\n') == [Header(c), FormatValue("-", Prop(c), c.oldValue), FormatValue("+", Prop(c), c.newValue)]
  {
    ThreeLines(Header(c), FormatValue("-", Prop(c), c.oldValue), FormatValue("+", Prop(c), c.newValue));
  }

  lemma ThreeLines(a: string, b: string, d: string)
    requires '\n' !in a && '\n' !in b && '\n' !in d
    ensures Split(a + "\n" + b + "\n" + d, '\n') == [a, b, d]
  {
    assert a + "\n" + b + "\n" + d == a + ['\n'] + (b + ['\n'] + d);
    SplitAround(a, b + ['\n'] + d, '\n');
    SplitAround(b, d, '\n');
    SplitNoSepString(a, '\n');
    SplitNoSepString(b, '\n');
    SplitNoSepString(d, '\n');
  }

  /** The sort key: the path joined with '/'. */
  function Key(c: ValueChange): string
  {
    Join(c.path, '/')
  }

  function Blocks(s: seq<ValueChange>): (bs: seq<string>)
    ensures |bs| == |s| && forall i :: 0 <= i < |s| ==> bs[i] == Block(s[i])
  {
    seq(|s|, i requires 0 <= i < |s| => Block(s[i]))
  }

  lemma {:induction false} JoinWithPrefix(parts: seq<string>, sep: string)
    requires parts != []
    ensures |JoinWith(parts, sep)| >= |parts[0]|
  {
  }

  /** `formatJsonDiff`: "" exactly for no changes, otherwise the blocks of the
      changes in ascending key order, separated by a blank line. */
  function FormatJsonDiff(cs: seq<ValueChange>): (r: string)
    ensures r == "" <==> cs == []
  {
    if cs == [] then ""
    else
      var sorted := SortBy(cs, Key);
      SortBySpec(cs, Key);
      JoinWithPrefix(Blocks(sorted), "\n\n");
      JoinWith(Blocks(sorted), "\n\n")
  }

  /** The blocks are those of an ascending arrangement of the changes given. */
  lemma FormatOrder(cs: seq<ValueChange>)
    requires cs != []
    ensures FormatJsonDiff(cs) == JoinWith(Blocks(SortBy(cs, Key)), "\n\n")
    ensures SortedBy(SortBy(cs, Key), Key) && multiset(SortBy(cs, Key)) == multiset(cs)
  {
    SortBySpec(cs, Key);
  }

  /** With distinct keys the text does not depend on the order the changes come in. */
  lemma FormatOrderIndependent(x: seq<ValueChange>, y: seq<ValueChange>)
    requires multiset(x) == multiset(y) && DistinctBy(x, Key)
    ensures FormatJsonDiff(x) == FormatJsonDiff(y)
  {
    SortByUnique(x, y, Key);
  }

  /** The changes `findJsonDiff` reports have distinct keys, so their
      rendering does not depend on the order they were found in. */
  lemma DiffKeysDistinct(a: OMap, b: OMap)
    ensures DistinctBy(Diff(a, b), Key)
  {
    var d := Diff(a, b);
    DiffDistinct(a, b);
    forall i, j | 0 <= i < j < |d| ensures Key(d[i]) != Key(d[j]) {
      DiffMember(a, b, d[i]);
      DiffMember(a, b, d[j]);
      var p :| (p in a.keys || p in b.keys) && Differs(a, b, p) && d[i] == ChangeAt(a, b, p);
      var q :| (q in a.keys || q in b.keys) && Differs(a, b, q) && d[j] == ChangeAt(a, b, q);
      JoinSplit(p, '/');
      JoinSplit(q, '/');
    }
  }

  /** Rendering the changes of two documents gives the same text whatever
      order the changes are listed in. */
  lemma JsonDiffFormatIndependent(oldDoc: Option<Json>, newDoc: Option<Json>, cs: seq<ValueChange>)
    requires multiset(cs) == multiset(JsonDiffOf(oldDoc, newDoc))
    ensures FormatJsonDiff(cs) == FormatJsonDiff(JsonDiffOf(oldDoc, newDoc))
  {
    var d := JsonDiffOf(oldDoc, newDoc);
    if oldDoc.Some? && newDoc.Some? {
      DiffKeysDistinct(Flatten(oldDoc.value), Flatten(newDoc.value));
    }
    FormatOrderIndependent(d, cs);
  }
}
