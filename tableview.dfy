/** The variables table view (src/components/VariablesTableView/index.tsx):
    the variables shown at the top level, the buckets keyed by group path,
    path helpers for display, and finding and toggling a group of the tree
    `createNestedGroups` builds. */
module TableView {
  import opened Util
  import opened Variables
  import opened NestedGroups
  import opened GroupRow

  // ---------------------------------------------------------------------
  // Root variables and the group-path buckets

  /** `getRootVariables`: the variables whose name has no `/`, in order. */
  function GetRootVariables(vs: seq<Variable>): (r: seq<Variable>)
    ensures forall i :: 0 <= i < |r| ==> !HasSlash(r[i].name)
  {
    if vs == [] then [] else (if HasSlash(vs[0].name) then [] else [vs[0]]) + GetRootVariables(vs[1..])
  }

  /** `.filter((v) => v.name.includes("/"))`. */
  function WithSlash(vs: seq<Variable>): (r: seq<Variable>)
    ensures forall i :: 0 <= i < |r| ==> HasSlash(r[i].name)
  {
    if vs == [] then [] else (if HasSlash(vs[0].name) then [vs[0]] else []) + WithSlash(vs[1..])
  }

  /** A `Map<string, Variable[]>`: keys in insertion order and each bucket. */
  datatype Buckets = Buckets(keys: seq<string>, at: map<string, seq<Variable>>)

  const NoBuckets: Buckets := Buckets([], map[])

  /** The key a variable is filed under. */
  function GroupPathOf(v: Variable): string
  {
    ResolvePathParts(v.name).groupPath
  }

  /** `acc.get(k)`, with a missing key read as an empty bucket. */
  function Bucket(b: Buckets, k: string): seq<Variable>
  {
    if k in b.at then b.at[k] else []
  }

  /** One step of the reduce: create the bucket if absent, then push. */
  function Push(b: Buckets, k: string, v: Variable): Buckets
  {
    if k in b.at then Buckets(b.keys, b.at[k := b.at[k] + [v]])
    else Buckets(b.keys + [k], b.at[k := [v]])
  }

  /** The reduce over `vs`. */
  function GroupBy(vs: seq<Variable>): Buckets
  {
    if vs == [] then NoBuckets else Push(GroupBy(vs[..|vs| - 1]), GroupPathOf(vs[|vs| - 1]), vs[|vs| - 1])
  }

  /** The `groupedVariables` memo: nothing without a current collection,
      otherwise the variables with a `/` reduced by group path. */
  function GroupedOf(collection: Option<seq<Variable>>): Buckets
  {
    if collection.None? then NoBuckets else GroupBy(WithSlash(collection.value))
  }

  method GroupedVariables(collection: Option<seq<Variable>>) returns (acc: Buckets)
    ensures acc == GroupedOf(collection)
  {
    acc := NoBuckets;
    if collection.None? {
      return;
    }
    var filtered := WithSlash(collection.value);
    var i := 0;
    while i < |filtered|
      invariant 0 <= i <= |filtered|
      invariant acc == GroupBy(filtered[..i])
    {
      var variable := filtered[i];
      var groupPath := GroupPathOf(variable);
      ghost var before := acc;
      if groupPath !in acc.at {
        acc := SetEmpty(acc, groupPath);
      }
      acc := Append(acc, groupPath, variable);
      PushInTwoSteps(before, groupPath, variable);
      GroupByStep(filtered, i);
      i := i + 1;
    }
    assert filtered[..i] == filtered;
  }

  lemma GroupByStep(vs: seq<Variable>, i: nat)
    requires i < |vs|
    ensures GroupBy(vs[..i + 1]) == Push(GroupBy(vs[..i]), GroupPathOf(vs[i]), vs[i])
  {
    assert vs[..i + 1][..i] == vs[..i];
  }

  /** `acc.set(k, [])`. */
  function SetEmpty(b: Buckets, k: string): Buckets
  {
    Buckets(if k in b.at then b.keys else b.keys + [k], b.at[k := []])
  }

  /** `acc.get(k)!.push(v)`. */
  function Append(b: Buckets, k: string, v: Variable): Buckets
    requires k in b.at
  {
    b.(at := b.at[k := b.at[k] + [v]])
  }

  /** The loop body's two updates (create the bucket if absent, push) make one `Push`. */
  lemma PushInTwoSteps(b: Buckets, k: string, v: Variable)
    ensures Append(if k in b.at then b else SetEmpty(b, k), k, v) == Push(b, k, v)
  {
    if k !in b.at {
      assert [] + [v] == [v];
      assert b.at[k := []][k := [v]] == b.at[k := [v]];
    }
  }

  /** The variables of vs filed under k, in order. */
  function FiledUnder(vs: seq<Variable>, k: string): seq<Variable>
  {
    if vs == [] then []
    else FiledUnder(vs[..|vs| - 1], k) + (if GroupPathOf(vs[|vs| - 1]) == k then [vs[|vs| - 1]] else [])
  }

  /** No key twice, keys and map agree, and no bucket is empty. */
  ghost predicate ValidBuckets(b: Buckets)
  {
    Distinct(b.keys) && (forall k :: k in b.at <==> k in b.keys)
    && forall k | k in b.at :: |b.at[k]| >= 1
  }

  /** Each bucket holds exactly the variables with its group path, in input order. */
  lemma {:induction false} BucketIsFiltered(vs: seq<Variable>, k: string)
    ensures Bucket(GroupBy(vs), k) == FiledUnder(vs, k)
    decreases |vs|
  {
    if vs != [] {
      BucketIsFiltered(vs[..|vs| - 1], k);
    }
  }

  lemma {:induction false} GroupByValid(vs: seq<Variable>)
    ensures ValidBuckets(GroupBy(vs))
    decreases |vs|
  {
    if vs != [] {
      var pre := GroupBy(vs[..|vs| - 1]);
      GroupByValid(vs[..|vs| - 1]);
      var k := GroupPathOf(vs[|vs| - 1]);
      if k !in pre.at {
        var ks := pre.keys + [k];
        forall a, b | 0 <= a < b < |ks| ensures ks[a] != ks[b] {
          if b < |pre.keys| { assert ks[a] == pre.keys[a] && ks[b] == pre.keys[b]; }
          else { assert ks[a] == pre.keys[a] && pre.keys[a] in pre.keys; }
        }
      }
    }
  }

  lemma {:induction false} FiledUnderCount(vs: seq<Variable>, k: string, v: Variable)
    ensures multiset(FiledUnder(vs, k))[v] == if GroupPathOf(v) == k then multiset(vs)[v] else 0
    decreases |vs|
  {
    if vs != [] {
      FiledUnderCount(vs[..|vs| - 1], k, v);
      assert vs == vs[..|vs| - 1] + [vs[|vs| - 1]];
    }
  }

  /** Every position moved up by one. */
  lemma Shift(rest: seq<nat>) returns (sh: seq<nat>)
    ensures |sh| == |rest| && forall k :: 0 <= k < |sh| ==> sh[k] == rest[k] + 1
    ensures forall i: nat :: i in sh <==> i > 0 && i - 1 in rest
  {
    sh := seq(|rest|, k requires 0 <= k < |rest| => rest[k] + 1);
    forall i: nat | i in sh ensures i > 0 && i - 1 in rest {
      var k :| 0 <= k < |sh| && sh[k] == i;
      assert rest[k] == i - 1;
    }
    forall i: nat | i > 0 && i - 1 in rest ensures i in sh {
      var k :| 0 <= k < |rest| && rest[k] == i - 1;
      assert sh[k] == i;
    }
  }

  /** The root list keeps the input order: it is the input read at an
      increasing run of positions, which are exactly the positions of the
      names without `/`. */
  lemma {:induction false} RootOrder(vs: seq<Variable>) returns (idx: seq<nat>)
    ensures |idx| == |GetRootVariables(vs)|
    ensures forall k :: 0 <= k < |idx| ==> idx[k] < |vs| && GetRootVariables(vs)[k] == vs[idx[k]]
    ensures forall k, l :: 0 <= k < l < |idx| ==> idx[k] < idx[l]
    ensures forall i :: 0 <= i < |vs| ==> (i in idx <==> !HasSlash(vs[i].name))
    decreases |vs|
  {
    if vs == [] {
      idx := [];
    } else {
      var rest := RootOrder(vs[1..]);
      var sh := Shift(rest);
      var head := if HasSlash(vs[0].name) then [] else [0];
      idx := head + sh;
      ConsRead(vs, rest, sh, head);
      ConsIncreasing(rest, sh, head);
      ConsCover(vs, rest, sh, head);
    }
  }

  /** Reading the input at the shifted positions, after position 0 when
      the first name has no `/`, gives the root list. */
  lemma ConsRead(vs: seq<Variable>, rest: seq<nat>, sh: seq<nat>, head: seq<nat>)
    requires vs != [] && head == if HasSlash(vs[0].name) then [] else [0]
    requires |rest| == |GetRootVariables(vs[1..])|
    requires forall k :: 0 <= k < |rest| ==> rest[k] < |vs| - 1 && GetRootVariables(vs[1..])[k] == vs[1..][rest[k]]
    requires |sh| == |rest| && forall k :: 0 <= k < |sh| ==> sh[k] == rest[k] + 1
    ensures |head + sh| == |GetRootVariables(vs)|
    ensures forall k :: 0 <= k < |head + sh| ==> (head + sh)[k] < |vs| && GetRootVariables(vs)[k] == vs[(head + sh)[k]]
  {
    var idx := head + sh;
    var r := GetRootVariables(vs[1..]);
    var out := GetRootVariables(vs);
    assert out == (if HasSlash(vs[0].name) then [] else [vs[0]]) + r;
    forall k | 0 <= k < |idx| ensures idx[k] < |vs| && out[k] == vs[idx[k]] {
      if k >= |head| {
        var m := k - |head|;
        assert idx[k] == sh[m] == rest[m] + 1 && out[k] == r[m];
      }
    }
  }

  /** Shifted increasing positions stay increasing, also after a leading 0. */
  lemma ConsIncreasing(rest: seq<nat>, sh: seq<nat>, head: seq<nat>)
    requires head == [] || head == [0]
    requires forall k, l :: 0 <= k < l < |rest| ==> rest[k] < rest[l]
    requires |sh| == |rest| && forall k :: 0 <= k < |sh| ==> sh[k] == rest[k] + 1
    ensures forall k, l :: 0 <= k < l < |head + sh| ==> (head + sh)[k] < (head + sh)[l]
  {
    var idx := head + sh;
    var h := |head|;
    forall k, l | 0 <= k < l < |idx| ensures idx[k] < idx[l] {
      var b := l - h;
      assert idx[l] == sh[b];
      if k >= h {
        assert idx[k] == sh[k - h];
        assert rest[k - h] < rest[b];
      }
    }
  }

  /** The positions covered are those of the names without `/`. */
  lemma ConsCover(vs: seq<Variable>, rest: seq<nat>, sh: seq<nat>, head: seq<nat>)
    requires vs != [] && head == if HasSlash(vs[0].name) then [] else [0]
    requires forall i :: 0 <= i < |vs| - 1 ==> (i in rest <==> !HasSlash(vs[1..][i].name))
    requires forall i: nat :: i in sh <==> i > 0 && i - 1 in rest
    ensures forall i :: 0 <= i < |vs| ==> (i in head + sh <==> !HasSlash(vs[i].name))
  {
    forall i | 0 <= i < |vs| ensures i in head + sh <==> !HasSlash(vs[i].name) {
      assert i in head + sh <==> i in head || i in sh;
      if i > 0 {
        assert vs[i] == vs[1..][i - 1];
      }
    }
  }

  lemma {:induction false} RootCount(vs: seq<Variable>, v: Variable)
    ensures multiset(GetRootVariables(vs))[v] == if HasSlash(v.name) then 0 else multiset(vs)[v]
    decreases |vs|
  {
    if vs != [] {
      RootCount(vs[1..], v);
      assert vs == [vs[0]] + vs[1..];
      var head := if HasSlash(vs[0].name) then [] else [vs[0]];
      assert GetRootVariables(vs) == head + GetRootVariables(vs[1..]);
    }
  }

  lemma {:induction false} WithSlashCount(vs: seq<Variable>, v: Variable)
    ensures multiset(WithSlash(vs))[v] == if HasSlash(v.name) then multiset(vs)[v] else 0
    decreases |vs|
  {
    if vs != [] {
      WithSlashCount(vs[1..], v);
      assert vs == [vs[0]] + vs[1..];
    }
  }

  /** The root variables and the buckets partition the collection: every
      occurrence of a variable is either at the root or in the bucket of its
      group path, and in no other bucket. */
  lemma Partition(vs: seq<Variable>, v: Variable, k: string)
    ensures var b := GroupedOf(Some(vs));
            multiset(GetRootVariables(vs))[v] + multiset(Bucket(b, GroupPathOf(v)))[v] == multiset(vs)[v]
            && (k != GroupPathOf(v) ==> multiset(Bucket(b, k))[v] == 0)
  {
    var ws := WithSlash(vs);
    RootCount(vs, v);
    WithSlashCount(vs, v);
    BucketIsFiltered(ws, GroupPathOf(v));
    FiledUnderCount(ws, GroupPathOf(v), v);
    BucketIsFiltered(ws, k);
    FiledUnderCount(ws, k, v);
  }

  // ---------------------------------------------------------------------
  // Display paths

  /** `getRelevantPath`: with no (or an empty) selected group, every segment
      but the last; otherwise the segment right after the group's segments,
      or the last segment when that one is missing or "". */
  function GetRelevantPath(fullPath: string, selectedGroup: Option<string>): string
  {
    var parts := Segments(fullPath);
    if selectedGroup.None? || selectedGroup.value == "" then Join(DropLast(parts), '/')
    else
      var groupParts := Segments(selectedGroup.value);
      var relevantParts := if |groupParts| <= |parts| then parts[|groupParts|..] else [];
      if |relevantParts| >= 1 && relevantParts[0] != "" then relevantParts[0] else Last(parts)
  }

  /** `getGroupDisplayName`: the last segment. */
  function GetGroupDisplayName(fullPath: string): (r: string)
    ensures '/' !in r
  {
    SplitNoSep(fullPath, '/');
    Last(Segments(fullPath))
  }

  /** In the "All variables" view the relevant path is the group path: what
      is left once the display name is taken off. */
  lemma RelevantPathAll(fullPath: string)
    ensures HasSlash(fullPath) ==> GetRelevantPath(fullPath, None) + "/" + GetGroupDisplayName(fullPath) == fullPath
    ensures !HasSlash(fullPath) ==> GetRelevantPath(fullPath, None) == ""
  {
    DisplayNameLast(fullPath);
    if HasSlash(fullPath) { ResolveRoundTrip(fullPath); }
  }

  /** Inside a selected group the relevant path is the first segment below
      the group, or the last segment when that first one is "". */
  lemma RelevantPathInGroup(group: string, rest: string)
    requires group != ""
    ensures var r := Segments(rest);
            GetRelevantPath(group + "/" + rest, Some(group)) == if r[0] != "" then r[0] else Last(r)
  {
    SplitAround(group, rest, '/');
    var g, r := Segments(group), Segments(rest);
    var parts := Segments(group + "/" + rest);
    assert parts == g + r;
    assert parts[|g|..] == r;
  }

  // ---------------------------------------------------------------------
  // findGroupByPath and handleToggleGroup

  /** One more segment: the child of the group reached so far. */
  lemma {:induction false} NodeSnoc(gs: Groups, p: seq<string>, x: string)
    requires |p| >= 1
    ensures var n := Node(gs, p);
            Node(gs, p + [x]) == if n.Some? && x in n.value.children.at then Some(n.value.children.at[x]) else None
    decreases |p|
  {
    var px := p + [x];
    assert px[0] == p[0] && px[1..] == p[1..] + [x];
    if |p| > 1 && p[0] in gs.at {
      NodeSnoc(gs.at[p[0]].children, p[1..], x);
    }
  }

  /** A missing step anywhere along the path means there is no group. */
  lemma {:induction false} NodeMissing(gs: Groups, p: seq<string>, j: nat)
    requires 1 <= j <= |p| && Node(gs, p[..j]) == None
    ensures Node(gs, p) == None
    decreases |p|
  {
    if p[0] in gs.at {
      assert p[..j][0] == p[0];
      if j == 1 {
        assert false;
      }
      assert p[..j][1..] == p[1..][..j - 1];
      NodeMissing(gs.at[p[0]].children, p[1..], j - 1);
    }
  }

  /** `findGroupByPath` over the given groups. */
  method FindGroupByPath(groups: Groups, path: string) returns (found: Option<Group>)
    ensures found == Node(groups, Segments(path))
  {
    var parts := Segments(path);
    var currentMap := groups;
    var currentGroup: Option<Group> := None;
    for i := 0 to |parts|
      invariant i == 0 ==> currentMap == groups
      invariant i > 0 ==> currentGroup == Node(groups, parts[..i]) && currentGroup.Some?
                          && currentMap == currentGroup.value.children
    {
      var part := parts[i];
      if i > 0 {
        NodeSnoc(groups, parts[..i], part);
        assert parts[..i] + [part] == parts[..i + 1];
      } else {
        assert parts[..1] == [part];
      }
      if part !in currentMap.at {
        NodeMissing(groups, parts, i + 1);
        return None;
      }
      currentGroup := Some(currentMap.at[part]);
      currentMap := currentGroup.value.children;
    }
    assert parts[..|parts|] == parts;
    return currentGroup;
  }

  /** The segments of a built group's path hold no `/`. */
  lemma BuiltPathNoSep(vs: seq<Variable>, p: seq<string>)
    requires Present(vs, p)
    ensures |p| >= 1 && NoSep(p, '/')
  {
    PresentIff(vs, p);
    var i :| 0 <= i < |vs| && OnPath(vs[i], p);
    var segs := Segments(vs[i].name);
    SplitNoSep(vs[i].name, '/');
    forall j | 0 <= j < |p| ensures '/' !in p[j] { assert p[j] == segs[j]; }
  }

  /** For the tree `createNestedGroups` builds, looking up the `fullPath` of a
      group whose path does not start with an empty segment finds that
      group. (A name starting with `/` breaks this: see
      `NestedGroups.LeadingSlashAsWritten`.) */
  lemma FindBuiltGroup(vs: seq<Variable>, p: seq<string>)
    requires Present(vs, p) && |p| >= 1 && p[0] != ""
    ensures var gs := Build(vs);
            var n := Node(gs, p);
            n.Some? && Node(gs, Segments(n.value.fullPath)) == n
  {
    BuildNode(AsWritten, vs, p);
    BuiltPathNoSep(vs, p);
    PathAsWrittenJoin(p);
    SplitJoin(p, '/');
  }

  /** With the joined path as each group's `fullPath`, looking up any built
      group's path finds that group. */
  lemma FindCorrectedGroup(vs: seq<Variable>, p: seq<string>)
    requires Present(vs, p)
    ensures var gs := BuildBy(Joined, vs);
            var n := Node(gs, p);
            n.Some? && Node(gs, Segments(n.value.fullPath)) == n
  {
    BuildNode(Joined, vs, p);
    BuiltPathNoSep(vs, p);
    SplitJoin(p, '/');
  }

  /** The display name of a built group's path is the group's name, even
      where the path has lost its leading empty segments. */
  lemma BuiltGroupDisplayName(vs: seq<Variable>, p: seq<string>)
    requires Present(vs, p)
    ensures var n := Node(Build(vs), p);
            n.Some? && GetGroupDisplayName(n.value.fullPath) == n.value.name
  {
    BuildNode(AsWritten, vs, p);
    BuiltPathNoSep(vs, p);
    GroupPathLast(AsWritten, p);
  }

  /** The group at p with its `isOpen` flipped; every map keeps its keys. */
  function Toggle(gs: Groups, p: seq<string>): Groups
    decreases |p|
  {
    if |p| == 0 || p[0] !in gs.at then gs
    else
      var g := gs.at[p[0]];
      Groups(gs.order, gs.at[p[0] := if |p| == 1 then g.(isOpen := !g.isOpen)
                                     else g.(children := Toggle(g.children, p[1..]))])
  }

  /** `handleToggleGroup(path)`. */
  function HandleToggleGroup(groups: Groups, path: string): Groups
  {
    Toggle(groups, Segments(path))
  }

  /** Toggling p flips the `isOpen` of the group at p and of no other group;
      no group appears or disappears and nothing else about a group changes. */
  lemma {:induction false} ToggleNode(gs: Groups, p: seq<string>, q: seq<string>)
    ensures Toggle(gs, p).order == gs.order
    ensures var r, o := Node(Toggle(gs, p), q), Node(gs, q);
            r.Some? == o.Some?
            && (o.Some? ==> Like(r.value, o.value.(isOpen := if q == p then !o.value.isOpen else o.value.isOpen),
                                 o.value.variables))
    decreases |q|
  {
    if |q| >= 1 && |p| >= 1 && q[0] == p[0] && p[0] in gs.at {
      var g := gs.at[p[0]];
      if |q| >= 2 && |p| >= 2 {
        ToggleNode(g.children, p[1..], q[1..]);
        assert q == [q[0]] + q[1..] && p == [p[0]] + p[1..];
        assert (q == p) == (q[1..] == p[1..]);
      } else if |q| == 1 && |p| >= 2 {
        assert q != p;
      } else if |q| >= 2 && |p| == 1 {
        assert q != p;
      }
    }
  }

  /** Toggling a path with no group changes nothing. */
  lemma {:induction false} ToggleMissing(gs: Groups, p: seq<string>)
    requires Node(gs, p) == None
    ensures Toggle(gs, p) == gs
    decreases |p|
  {
    if |p| >= 2 && p[0] in gs.at {
      var g := gs.at[p[0]];
      ToggleMissing(g.children, p[1..]);
      assert g.(children := g.children) == g;
      assert gs.at[p[0] := g] == gs.at;
    }
  }
}
