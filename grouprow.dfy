/** The row of the variables table
    (src/components/VariablesTableView/components/VariablesGroupRow.tsx):
    splitting a variable's name into its group path and display name, the
    "hidden from publishing" badge, the type icon and one cell per mode.
    `resolvePathParts` is repeated verbatim in
    src/components/VariablesTableView/index.tsx; both are this one function. */
module GroupRow {
  import opened Util
  import opened Variables

  datatype PathParts = PathParts(groupPath: string, displayName: string, groupDisplayName: string)

  /** `resolvePathParts`: the last segment, the others joined, and the
      second-to-last segment unless it is missing or "" (`||` falls back to
      the group path then). */
  function ResolvePathParts(fullPath: string): PathParts
  {
    var parts := Segments(fullPath);
    var groupPath := Join(DropLast(parts), '/');
    PathParts(
      groupPath,
      Last(parts),
      if |parts| >= 2 && parts[|parts| - 2] != "" then parts[|parts| - 2] else groupPath)
  }

  /** The display name is the last segment and holds no `/`; a name without
      `/` is all display name with an empty group path. */
  lemma DisplayNameLast(fullPath: string)
    ensures var r := ResolvePathParts(fullPath);
            '/' !in r.displayName
            && (!HasSlash(fullPath) ==> r.groupPath == "" && r.displayName == fullPath && r.groupDisplayName == "")
  {
    SplitNoSep(fullPath, '/');
    if !HasSlash(fullPath) {
      SplitNoSepString(fullPath, '/');
    }
  }

  /** The group path and the display name put back together give the name. */
  lemma {:induction false} ResolveRoundTrip(fullPath: string)
    requires HasSlash(fullPath)
    ensures var r := ResolvePathParts(fullPath);
            r.groupPath + "/" + r.displayName == fullPath
  {
    var parts := Segments(fullPath);
    SlashSegments(fullPath);
    assert parts == DropLast(parts) + [Last(parts)];
    JoinSnoc(DropLast(parts), Last(parts), '/');
    JoinSplit(fullPath, '/');
  }

  /** The group display name is the last segment of the group path, or the
      whole group path when that segment is "". */
  lemma {:induction false} GroupDisplayNameIsParent(fullPath: string)
    ensures var r := ResolvePathParts(fullPath);
            var up := Segments(r.groupPath);
            r.groupDisplayName == if Last(up) != "" then Last(up) else r.groupPath
  {
    var parts := Segments(fullPath);
    var init := DropLast(parts);
    if |parts| >= 2 {
      SplitNoSep(fullPath, '/');
      assert NoSep(init, '/') by {
        forall i | 0 <= i < |init| ensures '/' !in init[i] { assert init[i] == parts[i]; }
      }
      SplitJoin(init, '/');
      assert Last(Segments(Join(init, '/'))) == parts[|parts| - 2];
    } else {
      assert init == [];
    }
  }

  /** The badge condition in `VariableRow`. The prop is optional, so only a
      defined `true` counts. */
  predicate ShowsHiddenBadge(hiddenFromPublishing: Option<bool>, v: Variable)
  {
    hiddenFromPublishing == Some(true) || StartsWith(v.name, "_")
  }

  lemma HiddenBadgeIff(hiddenFromPublishing: Option<bool>, v: Variable)
    ensures ShowsHiddenBadge(hiddenFromPublishing, v)
            <==> hiddenFromPublishing == Some(true) || (|v.name| >= 1 && v.name[0] == '_')
  {
    if |v.name| >= 1 { assert v.name[..1] == [v.name[0]]; }
  }

  datatype Icon = HashStraight | Palette | TextT | ToggleLeft | BugBeetle

  const KnownTypes: seq<string> := ["FLOAT", "COLOR", "STRING", "BOOLEAN"]

  /** The icons the five guarded elements render, in order. */
  function Icons(vtype: string): seq<Icon>
  {
    (if vtype == "FLOAT" then [HashStraight] else [])
    + (if vtype == "COLOR" then [Palette] else [])
    + (if vtype == "STRING" then [TextT] else [])
    + (if vtype == "BOOLEAN" then [ToggleLeft] else [])
    + (if vtype !in KnownTypes then [BugBeetle] else [])
  }

  /** The icon each type should get: one per known type, the fallback otherwise. */
  function IconFor(vtype: string): Icon
  {
    match vtype
    case "FLOAT" => HashStraight
    case "COLOR" => Palette
    case "STRING" => TextT
    case "BOOLEAN" => ToggleLeft
    case _ => BugBeetle
  }

  /** Exactly one icon is rendered, and it is the one for the type. */
  lemma ExactlyOneIcon(vtype: string)
    ensures Icons(vtype) == [IconFor(vtype)]
  {
    assert KnownTypes[0] == "FLOAT" && KnownTypes[1] == "COLOR";
    assert KnownTypes[2] == "STRING" && KnownTypes[3] == "BOOLEAN";
  }

  /** `modes.map(mode => variable.modes[mode])`: one cell per mode, in order;
      a mode the variable has no value for shows `undefined`. */
  function ValueCells(v: Variable, modes: seq<string>): (cells: seq<Option<VariableValue>>)
    ensures |cells| == |modes|
    ensures forall i :: 0 <= i < |modes| ==>
              cells[i] == if modes[i] in v.modes then Some(v.modes[modes[i]]) else None
  {
    if modes == [] then []
    else
      [if modes[0] in v.modes then Some(v.modes[modes[0]]) else None] + ValueCells(v, modes[1..])
  }
}
