/** The group tree of src/utils/groupUtils.ts (`createNestedGroups`, repeated
    verbatim in src/components/VariablesTableView/index.tsx): every variable
    whose name holds a `/` creates or reuses one group per segment but the
    last, and is pushed into the deepest of them. A `Map<string, NestedGroup>`
    is a `Groups` value: its keys in insertion order and the group of each. */
module NestedGroups {
  import opened Util
  import opened Variables

  datatype Group = Group(
    name: string, fullPath: string, variables: seq<Variable>, children: Groups, isOpen: bool)

  datatype Groups = Groups(order: seq<string>, at: map<string, Group>)

  const NoGroups: Groups := Groups([], map[])

  /** The record created for a segment met for the first time. */
  function NewGroup(part: string, path: string): Group
  {
    Group(part, path, [], NoGroups, true)
  }

  /** How a group's `fullPath` is formed. The source (line 18) extends the
      running path only once it is non-empty (`currentPath ? … : part`);
      `Joined` is the `/`-join of all the segments, which looking a group up
      by its path needs. The tree of the source is the one built with
      `AsWritten`. */
  datatype PathRule = AsWritten | Joined

  /** The path a rule gives the group at the segments `parts`. */
  function GroupPath(rule: PathRule, parts: seq<string>): string
  {
    match rule
    case AsWritten => PathAsWritten(parts)
    case Joined => Join(parts, '/')
  }

  /** The running path after one more segment, at depth i. */
  function Extend(rule: PathRule, i: nat, currentPath: string, part: string): string
  {
    match rule
    case AsWritten => if currentPath != "" then currentPath + "/" + part else part
    case Joined => if i == 0 then part else currentPath + "/" + part
  }

  /** One step of the walk down the segments of a name, at depth i: find or
      create the group for `parts[i]`, push the variable when this is the last
      group, otherwise continue in its children. `currentPath` is the path of
      the group above ("" at depth 0). */
  function AddAt(rule: PathRule, gs: Groups, parts: seq<string>, i: nat, currentPath: string, v: Variable): Groups
    requires i < |parts| - 1
    decreases |parts| - i
  {
    var part := parts[i];
    var path := Extend(rule, i, currentPath, part);
    var g := if part in gs.at then gs.at[part] else NewGroup(part, path);
    var g' := if i == |parts| - 2 then g.(variables := g.variables + [v])
              else g.(children := AddAt(rule, g.children, parts, i + 1, path, v));
    Groups(if part in gs.at then gs.order else gs.order + [part], gs.at[part := g'])
  }

  /** The body of the `forEach`: names without `/` are skipped. */
  function AddVariable(rule: PathRule, gs: Groups, v: Variable): Groups
  {
    if !HasSlash(v.name) then gs
    else
      SlashSegments(v.name);
      AddAt(rule, gs, Segments(v.name), 0, "", v)
  }

  /** The groups built from `vs`, one variable after the other. */
  function BuildBy(rule: PathRule, vs: seq<Variable>): Groups
  {
    if vs == [] then NoGroups else AddVariable(rule, BuildBy(rule, vs[..|vs| - 1]), vs[|vs| - 1])
  }

  /** The tree `createNestedGroups` builds. */
  function Build(vs: seq<Variable>): Groups
  {
    BuildBy(AsWritten, vs)
  }

  /** `createNestedGroups`. */
  method CreateNestedGroups(variables: seq<Variable>) returns (groups: Groups)
    ensures groups == Build(variables)
  {
    groups := NoGroups;
    var i := 0;
    while i < |variables|
      invariant 0 <= i <= |variables|
      invariant groups == BuildBy(AsWritten, variables[..i])
    {
      var variable := variables[i];
      if HasSlash(variable.name) {
        var parts := Segments(variable.name);
        SlashSegments(variable.name);
        groups := AddAt(AsWritten, groups, parts, 0, "", variable);
      }
      assert variables[..i + 1][..i] == variables[..i];
      i := i + 1;
    }
    assert variables[..i] == variables;
  }

  // ---------------------------------------------------------------------
  // What the tree holds

  /** The group reached from the top level by following the segments p, if
      every step exists. */
  function Node(gs: Groups, p: seq<string>): Option<Group>
    decreases |p|
  {
    if |p| == 0 || p[0] !in gs.at then None
    else if |p| == 1 then Some(gs.at[p[0]])
    else Node(gs.at[p[0]].children, p[1..])
  }

  /** The name of v creates the group at p: p is a non-empty proper prefix of its segments. */
  predicate OnPath(v: Variable, p: seq<string>)
  {
    HasSlash(v.name) && 1 <= |p| < |Segments(v.name)| && p == Segments(v.name)[..|p|]
  }

  /** p is the group v is pushed into: all its segments but the last. */
  predicate ParentOf(v: Variable, p: seq<string>)
  {
    HasSlash(v.name) && p == DropLast(Segments(v.name))
  }

  /** Some variable of vs creates the group at p. */
  predicate Present(vs: seq<Variable>, p: seq<string>)
  {
    vs != [] && (Present(vs[..|vs| - 1], p) || OnPath(vs[|vs| - 1], p))
  }

  /** The variables of vs whose group is p, in input order. */
  function Members(vs: seq<Variable>, p: seq<string>): seq<Variable>
  {
    if vs == [] then []
    else
      var last := vs[|vs| - 1];
      Members(vs[..|vs| - 1], p) + (if ParentOf(last, p) then [last] else [])
  }

  /** Agreement on everything but the children. */
  predicate Like(g: Group, b: Group, vars: seq<Variable>)
  {
    g.name == b.name && g.fullPath == b.fullPath && g.isOpen == b.isOpen && g.variables == vars
  }

  /** q continues the walk started at depth i: it is a run of `parts[i..]`
      that stops before the last segment. */
  predicate Chain(parts: seq<string>, i: nat, q: seq<string>)
  {
    1 <= |q| && i + |q| < |parts| && q == parts[i..i + |q|]
  }

  /** The group the walk finds at depth d, or the one it creates there. */
  function Before(rule: PathRule, o: Option<Group>, parts: seq<string>, d: nat): Group
    requires 1 <= d <= |parts|
  {
    if o.Some? then o.value else NewGroup(parts[d - 1], GroupPath(rule, parts[..d]))
  }

  /** After the walk, the group at depth d is the one found or created
      there, with the variable added when d is the deepest level. */
  predicate Grown(rule: PathRule, r: Option<Group>, o: Option<Group>, parts: seq<string>, d: nat, v: Variable)
    requires 1 <= d <= |parts|
  {
    r.Some? && Like(r.value, Before(rule, o, parts, d), Added(Before(rule, o, parts, d).variables, d == |parts| - 1, v))
  }

  /** The variables of a group after the walk: one more at the deepest level. */
  function Added(vars: seq<Variable>, deepest: bool, v: Variable): seq<Variable>
  {
    if deepest then vars + [v] else vars
  }

  /** The group at a path off the walk is as it was. */
  predicate Kept(r: Option<Group>, o: Option<Group>)
  {
    r.Some? == o.Some? && (r.Some? ==> Like(r.value, o.value, o.value.variables))
  }

  /** The group the step at depth i finds or creates, and what it becomes. */
  lemma AddAtStep(rule: PathRule, gs: Groups, parts: seq<string>, i: nat, cp: string, v: Variable)
    returns (path: string, g: Group, g': Group)
    requires i < |parts| - 1
    requires cp == GroupPath(rule, parts[..i])
    ensures path == GroupPath(rule, parts[..i + 1])
    ensures path == Extend(rule, i, cp, parts[i])
    ensures g == if parts[i] in gs.at then gs.at[parts[i]] else NewGroup(parts[i], path)
    ensures g' == if i == |parts| - 2 then g.(variables := g.variables + [v])
                  else g.(children := AddAt(rule, g.children, parts, i + 1, path, v))
    ensures AddAt(rule, gs, parts, i, cp, v).at == gs.at[parts[i] := g']
  {
    var part := parts[i];
    path := Extend(rule, i, cp, part);
    assert parts[..i + 1] == parts[..i] + [part];
    ExtendPath(rule, parts[..i], part);
    g := if part in gs.at then gs.at[part] else NewGroup(part, path);
    g' := if i == |parts| - 2 then g.(variables := g.variables + [v])
          else g.(children := AddAt(rule, g.children, parts, i + 1, path, v));
  }

  /** Extending the path of `init` by one segment gives the path of the
      longer run, under either rule. */
  lemma ExtendPath(rule: PathRule, init: seq<string>, part: string)
    ensures Extend(rule, |init|, GroupPath(rule, init), part) == GroupPath(rule, init + [part])
  {
    var parts := init + [part];
    assert parts[..|parts| - 1] == init;
    if rule == Joined {
      if init == [] {
        assert parts == [part];
      } else {
        JoinSnoc(init, part, '/');
      }
    }
  }

  /** A path not starting with the walk's segment is untouched. */
  lemma AddAtOff(rule: PathRule, gs: Groups, parts: seq<string>, i: nat, cp: string, v: Variable, q: seq<string>)
    requires i < |parts| - 1
    requires cp == GroupPath(rule, parts[..i])
    requires |q| == 0 || q[0] != parts[i]
    ensures Node(AddAt(rule, gs, parts, i, cp, v), q) == Node(gs, q)
  {
    var path, g, g' := AddAtStep(rule, gs, parts, i, cp, v);
  }

  lemma {:induction false} ChainTail(parts: seq<string>, i: nat, q: seq<string>)
    requires |q| >= 2 && i < |parts| && q[0] == parts[i]
    ensures Chain(parts, i, q) <==> Chain(parts, i + 1, q[1..])
  {
    assert q == [q[0]] + q[1..];
    if i + |q| <= |parts| {
      assert parts[i..i + |q|] == [parts[i]] + parts[i + 1..i + |q|];
    }
  }

  /** The path of length one on the walk: the group found or created. */
  lemma AddAtHere(rule: PathRule, gs: Groups, parts: seq<string>, i: nat, cp: string, v: Variable, q: seq<string>)
    requires i < |parts| - 1
    requires cp == GroupPath(rule, parts[..i])
    requires |q| == 1 && q[0] == parts[i]
    ensures Chain(parts, i, q)
    ensures Grown(rule, Node(AddAt(rule, gs, parts, i, cp, v), q), Node(gs, q), parts, i + 1, v)
  {
    var path, g, g' := AddAtStep(rule, gs, parts, i, cp, v);
    assert parts[i..i + 1] == [parts[i]];
    assert Node(AddAt(rule, gs, parts, i, cp, v), q) == Some(g');
  }

  /** A longer path on the walk continues in the children of the group. */
  lemma AddAtBelow(rule: PathRule, gs: Groups, parts: seq<string>, i: nat, cp: string, v: Variable, q: seq<string>)
    returns (path: string, g: Group, g': Group)
    requires i < |parts| - 1
    requires cp == GroupPath(rule, parts[..i])
    requires |q| >= 2 && q[0] == parts[i]
    ensures path == GroupPath(rule, parts[..i + 1])
    ensures i == |parts| - 2 ==> g'.children == g.children
    ensures i < |parts| - 2 ==> g'.children == AddAt(rule, g.children, parts, i + 1, path, v)
    ensures Node(AddAt(rule, gs, parts, i, cp, v), q) == Node(g'.children, q[1..])
    ensures Node(gs, q) == Node(g.children, q[1..])
  {
    path, g, g' := AddAtStep(rule, gs, parts, i, cp, v);
  }

  /** One walk, seen from every path q below depth i: the groups along the
      walk exist afterwards, keep their name, path and state, and only the
      deepest gains the variable; every other group is as it was. */
  lemma {:induction false} AddAtNode(rule: PathRule, gs: Groups, parts: seq<string>, i: nat, cp: string, v: Variable, q: seq<string>)
    requires i < |parts| - 1
    requires cp == GroupPath(rule, parts[..i])
    ensures Chain(parts, i, q) ==> Grown(rule, Node(AddAt(rule, gs, parts, i, cp, v), q), Node(gs, q), parts, i + |q|, v)
    ensures !Chain(parts, i, q) ==> Kept(Node(AddAt(rule, gs, parts, i, cp, v), q), Node(gs, q))
  {
    if Chain(parts, i, q) {
      AddAtAlong(rule, gs, parts, i, cp, v, i + |q|, q);
    } else {
      AddAtAside(rule, gs, parts, i, cp, v, q);
    }
  }

  /** The group at depth d of the walk, for i < d < |parts|, reached by the
      segments q = `parts[i..d]`: found or created, and grown at the deepest level. */
  lemma {:induction false} AddAtAlong(rule: PathRule, gs: Groups, parts: seq<string>, i: nat, cp: string, v: Variable, d: nat, q: seq<string>)
    requires i < d < |parts| && q == parts[i..d]
    requires cp == GroupPath(rule, parts[..i])
    ensures Grown(rule, Node(AddAt(rule, gs, parts, i, cp, v), q), Node(gs, q), parts, d, v)
    decreases d - i
  {
    if d == i + 1 {
      AddAtHere(rule, gs, parts, i, cp, v, q);
    } else {
      var path, g, g' := AddAtBelow(rule, gs, parts, i, cp, v, q);
      assert q[1..] == parts[i + 1..d];
      AddAtAlong(rule, g.children, parts, i + 1, path, v, d, q[1..]);
    }
  }

  /** A path off the walk names the same group, unchanged, before and after. */
  lemma {:induction false} AddAtAside(rule: PathRule, gs: Groups, parts: seq<string>, i: nat, cp: string, v: Variable, q: seq<string>)
    requires i < |parts| - 1
    requires cp == GroupPath(rule, parts[..i])
    requires !Chain(parts, i, q)
    ensures Kept(Node(AddAt(rule, gs, parts, i, cp, v), q), Node(gs, q))
    decreases |q|
  {
    if |q| == 0 || q[0] != parts[i] {
      AddAtOff(rule, gs, parts, i, cp, v, q);
    } else if |q| == 1 {
      assert false;
    } else {
      var path, g, g' := AddAtBelow(rule, gs, parts, i, cp, v, q);
      ChainTail(parts, i, q);
      if i < |parts| - 2 {
        AddAtAside(rule, g.children, parts, i + 1, path, v, q[1..]);
      }
    }
  }

  lemma ParentOnPath(v: Variable, p: seq<string>)
    requires ParentOf(v, p)
    ensures OnPath(v, p)
  {
    SlashSegments(v.name);
  }

  lemma {:induction false} MembersAbsent(vs: seq<Variable>, p: seq<string>)
    requires !Present(vs, p)
    ensures Members(vs, p) == []
    decreases |vs|
  {
    if vs != [] {
      MembersAbsent(vs[..|vs| - 1], p);
      if ParentOf(vs[|vs| - 1], p) { ParentOnPath(vs[|vs| - 1], p); }
    }
  }

  /** What `createNestedGroups` builds, path by path: a group exists at p
      exactly when some name creates it; it is named by the last segment of
      p, its `fullPath` is the path the rule gives p (for the source's tree,
      `PathAsWritten(p)`), it is open, and it holds the variables whose
      parent is p, in input order. */
  lemma {:induction false} BuildNode(rule: PathRule, vs: seq<Variable>, p: seq<string>)
    ensures Node(BuildBy(rule, vs), p).Some? <==> Present(vs, p)
    ensures Present(vs, p) ==>
              var g := Node(BuildBy(rule, vs), p).value;
              |p| >= 1 && g.name == p[|p| - 1] && g.fullPath == GroupPath(rule, p) && g.isOpen
              && g.variables == Members(vs, p)
    decreases |vs|
  {
    if vs != [] {
      var pre := vs[..|vs| - 1];
      var w := vs[|vs| - 1];
      BuildNode(rule, pre, p);
      if HasSlash(w.name) {
        var parts := Segments(w.name);
        SlashSegments(w.name);
        assert parts[..0] == [];
        AddAtNode(rule, BuildBy(rule, pre), parts, 0, "", w, p);
        assert AddVariable(rule, BuildBy(rule, pre), w) == AddAt(rule, BuildBy(rule, pre), parts, 0, "", w);
        assert Chain(parts, 0, p) <==> OnPath(w, p) by {
          if 1 <= |p| <= |parts| { assert parts[0..|p|] == parts[..|p|]; }
        }
        assert ParentOf(w, p) <==> Chain(parts, 0, p) && |p| == |parts| - 1 by {
          if ParentOf(w, p) { ParentOnPath(w, p); }
        }
        if Chain(parts, 0, p) && !Present(pre, p) {
          MembersAbsent(pre, p);
        }
      } else {
        assert !OnPath(w, p) && !ParentOf(w, p);
      }
    }
  }

  /** Present spelled out: some variable's name creates the group. */
  lemma {:induction false} PresentIff(vs: seq<Variable>, p: seq<string>)
    ensures Present(vs, p) <==> exists i :: 0 <= i < |vs| && OnPath(vs[i], p)
    decreases |vs|
  {
    if vs != [] {
      var pre := vs[..|vs| - 1];
      PresentIff(pre, p);
      if exists i :: 0 <= i < |vs| && OnPath(vs[i], p) {
        var i :| 0 <= i < |vs| && OnPath(vs[i], p);
        if i < |pre| { assert pre[i] == vs[i]; }
      }
      if exists i :: 0 <= i < |pre| && OnPath(pre[i], p) {
        var i :| 0 <= i < |pre| && OnPath(pre[i], p);
        assert vs[i] == pre[i];
      }
    }
  }

  /** A group holds every variable whose parent it is, as often as it
      occurs, and no other. */
  lemma {:induction false} MembersCount(vs: seq<Variable>, p: seq<string>, v: Variable)
    ensures multiset(Members(vs, p))[v] == if ParentOf(v, p) then multiset(vs)[v] else 0
    decreases |vs|
  {
    if vs != [] {
      var pre := vs[..|vs| - 1];
      MembersCount(pre, p, v);
      assert vs == pre + [vs[|vs| - 1]];
    }
  }

  /** Names without `/` create nothing. */
  lemma {:induction false} NoSlashNoGroups(rule: PathRule, vs: seq<Variable>)
    requires forall i :: 0 <= i < |vs| ==> !HasSlash(vs[i].name)
    ensures BuildBy(rule, vs) == NoGroups
    decreases |vs|
  {
    if vs != [] {
      NoSlashNoGroups(rule, vs[..|vs| - 1]);
    }
  }

  // ---------------------------------------------------------------------
  // Keys and names stay consistent

  /** No key occurs twice, the key list and the map agree, and each group is
      filed under its own name, at every level. */
  ghost predicate WellFormed(gs: Groups)
    decreases gs
  {
    Distinct(gs.order) && (forall k :: k in gs.at <==> k in gs.order)
    && forall k | k in gs.at :: gs.at[k].name == k && WellFormed(gs.at[k].children)
  }

  lemma {:induction false} AddAtWellFormed(rule: PathRule, gs: Groups, parts: seq<string>, i: nat, cp: string, v: Variable)
    requires i < |parts| - 1 && WellFormed(gs)
    requires cp == GroupPath(rule, parts[..i])
    ensures WellFormed(AddAt(rule, gs, parts, i, cp, v))
    decreases |parts| - i
  {
    var part := parts[i];
    var path, g, g' := AddAtStep(rule, gs, parts, i, cp, v);
    assert g.name == part && WellFormed(g.children);
    if i < |parts| - 2 {
      AddAtWellFormed(rule, g.children, parts, i + 1, path, v);
    }
    FileWellFormed(gs, part, g');
  }

  /** Filing a well-formed group under its own name keeps a level well formed. */
  lemma FileWellFormed(gs: Groups, part: string, g: Group)
    requires WellFormed(gs) && g.name == part && WellFormed(g.children)
    ensures WellFormed(Groups(if part in gs.at then gs.order else gs.order + [part], gs.at[part := g]))
  {
    var r := Groups(if part in gs.at then gs.order else gs.order + [part], gs.at[part := g]);
    if part !in gs.at {
      assert part !in gs.order;
      forall a, b | 0 <= a < b < |r.order| ensures r.order[a] != r.order[b] {
        if b < |gs.order| { assert r.order[a] == gs.order[a] && r.order[b] == gs.order[b]; }
        else { assert r.order[a] == gs.order[a]; }
      }
    }
    assert forall k | k in r.at :: r.at[k].name == k && WellFormed(r.at[k].children);
  }

  lemma {:induction false} BuildWellFormed(rule: PathRule, vs: seq<Variable>)
    ensures WellFormed(BuildBy(rule, vs))
    decreases |vs|
  {
    if vs != [] {
      BuildWellFormed(rule, vs[..|vs| - 1]);
      var w := vs[|vs| - 1];
      if HasSlash(w.name) {
        SlashSegments(w.name);
        var pre := BuildBy(rule, vs[..|vs| - 1]);
        assert Segments(w.name)[..0] == [];
        AddAtWellFormed(rule, pre, Segments(w.name), 0, "", w);
        assert AddVariable(rule, pre, w) == AddAt(rule, pre, Segments(w.name), 0, "", w);
      }
    }
  }

  // ---------------------------------------------------------------------
  // Line 18 as written

  /** `currentPath = currentPath ? `${currentPath}/${part}` : part`: the
      running path starts over while it is still "" (falsy). */
  function PathAsWritten(parts: seq<string>): string
    decreases |parts|
  {
    if parts == [] then ""
    else
      var currentPath := PathAsWritten(parts[..|parts| - 1]);
      var part := parts[|parts| - 1];
      if currentPath != "" then currentPath + "/" + part else part
  }

  /** With a non-empty first segment the source's rule gives the joined path. */
  lemma {:induction false} PathAsWrittenJoin(parts: seq<string>)
    requires |parts| >= 1 && parts[0] != ""
    ensures PathAsWritten(parts) == Join(parts, '/')
    decreases |parts|
  {
    if |parts| > 1 {
      var init := parts[..|parts| - 1];
      PathAsWrittenJoin(init);
      assert parts == init + [parts[|parts| - 1]];
      JoinSnoc(init, parts[|parts| - 1], '/');
      assert Join(init, '/') != "" by { JoinHead(init, '/'); }
    } else {
      assert parts[..0] == [];
    }
  }

  lemma {:induction false} JoinHead(parts: seq<string>, sep: char)
    requires |parts| >= 1
    ensures |Join(parts, sep)| >= |parts[0]|
  {
  }

  /** Under either rule the last segment of a group's path is the group's
      own segment, when no segment holds `/`. */
  lemma GroupPathLast(rule: PathRule, parts: seq<string>)
    requires |parts| >= 1 && NoSep(parts, '/')
    ensures Last(Segments(GroupPath(rule, parts))) == parts[|parts| - 1]
  {
    var part := parts[|parts| - 1];
    assert '/' !in part;
    SplitNoSepString(part, '/');
    if rule == Joined {
      SplitJoin(parts, '/');
    } else {
      var cp := PathAsWritten(parts[..|parts| - 1]);
      if cp != "" {
        SplitAround(cp, part, '/');
        assert cp + "/" + part == cp + ['/'] + part;
      }
    }
  }

  /** The variable the lemmas below use. */
  function LeadingSlash(): Variable
  {
    Variable(false, "/a/b", "COLOR", None, map[])
  }

  /** "/a/b" creates a group at ["", "a"], with the path the rule gives it. */
  lemma LeadingSlashTree(rule: PathRule)
    ensures Segments("/a/b") == ["", "a", "b"]
    ensures Node(BuildBy(rule, [LeadingSlash()]), ["", "a"]).Some?
    ensures Node(BuildBy(rule, [LeadingSlash()]), ["", "a"]).value.fullPath == GroupPath(rule, ["", "a"])
    ensures BuildBy(rule, [LeadingSlash()]).at.Keys == {""}
  {
    var parts := ["", "a", "b"];
    assert Join(parts, '/') == "/a/b" by {
      assert parts[1..] == ["a", "b"] && parts[1..][1..] == ["b"];
    }
    assert NoSep(parts, '/');
    SplitJoin(parts, '/');
    var v := LeadingSlash();
    assert [v][..0] == [];
    assert Present([v], ["", "a"]) by {
      assert parts[..2] == ["", "a"];
    }
    BuildNode(rule, [v], ["", "a"]);
    var gs := BuildBy(rule, [v]);
    forall k | k in gs.at ensures k == "" {
      assert Node(gs, [k]).Some?;
      BuildNode(rule, [v], [k]);
      assert [k] == parts[..1];
    }
  }

  /** As written, the group "/a/b" creates at ["", "a"] gets the path "a",
      and following "a" from the top finds nothing. */
  lemma LeadingSlashAsWritten()
    ensures var gs := Build([LeadingSlash()]);
            Node(gs, ["", "a"]).Some? && Node(gs, ["", "a"]).value.fullPath == "a"
            && Node(gs, Segments(Node(gs, ["", "a"]).value.fullPath)) == None
  {
    LeadingSlashTree(AsWritten);
    assert ["", "a"][..1] == [""] && [""][..0] == [];
    SplitNoSepString("a", '/');
  }

  /** With the joined path the same group's path is "/a", and following it
      finds the group. */
  lemma LeadingSlashCorrected()
    ensures var gs := BuildBy(Joined, [LeadingSlash()]);
            Node(gs, ["", "a"]).Some? && Node(gs, ["", "a"]).value.fullPath == "/a"
            && Node(gs, Segments(Node(gs, ["", "a"]).value.fullPath)) == Node(gs, ["", "a"])
  {
    LeadingSlashTree(Joined);
    assert Join(["", "a"], '/') == "/a" by { assert ["", "a"][1..] == ["a"]; }
    assert NoSep(["", "a"], '/');
    SplitJoin(["", "a"], '/');
  }
}
