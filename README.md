# A verified model of the test-plugin core

This project models, in Dafny, the parts of a Figma plugin that carry
stateable behaviour. The plugin exports a file's design variables as design
tokens, shows what changed, and commits the export to GitHub through a pull
request form. Every module corresponds to one source file (or to one pair
of files that repeat the same function):

| module | file | models |
|---|---|---|
| `Util` | (shared) | JavaScript `split`/`join` on one character, `startsWith`, the "blank after `trim()`" test, ASCII lower-casing, decimal and hex digits |
| `Json` | (shared) | JSON values with members in enumeration order, member lookup and assignment, JavaScript truthiness, `JSON.stringify` |
| `Sorting` | (shared) | the stable `Array.prototype.sort` with a string-key comparator |
| `JsonDiff` | src/utils/jsonDiff.ts | `flattenTokens` (the `traverse` walk filling a `Map`), `findJsonDiff`, `isHexColor`, `formatValue`, `formatJsonDiff` |
| `Base64` | src/utils/base64.ts | `base64Encode` as written, and the base64 encoding of section 4 of RFC 4648 with its decoder |
| `PluginStore` | src/PluginStore.ts | `updateCommitData`, `updateSettings`, `DEFAULT_SETTINGS`, `loadSettings`, `saveSettings` |
| `Variables` | src/types/index.ts | the variable records the table views display |
| `NestedGroups` | src/utils/groupUtils.ts | `createNestedGroups`, the group tree (repeated in src/components/VariablesTableView/index.tsx) |
| `TableView` | src/components/VariablesTableView/index.tsx | `getRootVariables`, `getRelevantPath`, `getGroupDisplayName`, the `groupedVariables` reduce, `findGroupByPath`, `handleToggleGroup` |
| `GroupRow` | src/components/VariablesTableView/components/VariablesGroupRow.tsx | `resolvePathParts`, the hidden-from-publishing badge, the type icon, the value cells |
| `Display` | src/components/VariablesDisplay.tsx | grouping by first segment, `toggleGroup`, expand-all and collapse-all, the loaded-states merge, the storage key |
| `DesignTokens` | src/components/ViewLocalChanges.tsx | `rgbaToHex`, `formatAsDesignTokens` |
| `GitHub` | src/services/github.ts | `GitHubService`: the URL rule and response handling of `request`, the five steps of `commitChanges`, `findPullRequest` |
| `PrForm` | src/components/PullRequestForm.tsx | the pull-request form: initial state, `handleChange`, `toggleBranchCreation`, `validateBranch`, `handleSubmit` |
| `CommitForm` | src/components/PullRequest/PullRequestForm.tsx | the commit form: initial state, `validateForm`, `handleBranchChange`, `checkExistingPR`, `handleCommit`, `createPRUrl` |

The model follows the source's own form. Loops are methods with loop
invariants, each proved equal to a function that specifies it: the
`traverse` walk, the base64 loop, the group-building and reduce loops, the
token export loops and the state-map loops. Each of those functions then
has its properties proved as lemmas. Objects the source updates in place
are classes: the `Map` that `flattenTokens` fills, the two forms (their
React state is fields, their handlers are methods), GitHub's repository and
the GitHub client. Pure helpers are functions.

GitHub is an in-memory repository. It holds a map from branch names to
commit SHAs, an object store of blobs, trees and commits, the open pull
requests, and the log of requests received. A fault oracle, given with the
repository, says for each kind of request whether GitHub answers it,
rejects it (a non-ok response with a message), or answers with a body that
fails schema validation. Object names come from a hash function that is
also given. The commit is proved step by step: exactly five requests in
order on success, each built from the SHA returned before. On failure no
further request is sent, and the branch is unchanged unless the last step
was sent.

Some behaviours of the code that are easy to miss:

- A token is any object with `$value`, `$description` or `$type`, not only one with `$value` or `$type` (src/utils/jsonDiff.ts:46-49).
- Both value lines of a diff block are always written. An absent side is `null`, never left out (src/utils/jsonDiff.ts:90-91, 137-142).
- Three-digit hex colours get the swatch too (src/utils/jsonDiff.ts:103-105).
- A failing GitHub step throws with GitHub's message alone. The step number is not kept (src/services/github.ts:68-83).
- An export that fails on one variable fails as a whole. That variable is not skipped (src/components/ViewLocalChanges.tsx:43-70).

## Model

| member | source | states |
|---|---|---|
| JsonDiff.AssignValid | src/utils/jsonDiff.ts:55 | a `set` on the result map keeps every key listed once and exactly the keys holding a value |
| JsonDiff.AssignLookup | src/utils/jsonDiff.ts:55 | after `set(k, v)` key k reads v and every other key reads what it read before |
| JsonDiff.AssignAllValid | src/utils/jsonDiff.ts:51-57 | a run of `set` calls keeps the map well formed |
| JsonDiff.AssignAllAppend | src/utils/jsonDiff.ts:51-64 | the `set` calls of two walks in sequence act as the calls of the first walk and then those of the second |
| JsonDiff.AssignAllLookup | src/utils/jsonDiff.ts:55 | after a run of `set` calls a key reads the value set last for it, or its earlier value when no call names it |
| JsonDiff.AssignAllKeys | src/utils/jsonDiff.ts:55 | a key is present after a run of `set` calls iff it was present before or some call names it |
| JsonDiff.PathMap.constructor | src/utils/jsonDiff.ts:38 | a new `Map` is empty |
| JsonDiff.PathMap.Get | src/utils/jsonDiff.ts:84-85 | `get` answers the value held for the key, or nothing (`undefined`) |
| JsonDiff.PathMap.Set | src/utils/jsonDiff.ts:55 | `set` replaces the value of a present key in its place and appends a new key |
| JsonDiff.RecordToken | src/utils/jsonDiff.ts:51-57 | the map after recording a token is the map before with the entries of its defined `$value`, `$description`, `$type` fields set in that order, each under the path joined with '/' and the field name without '$' |
| JsonDiff.Traverse | src/utils/jsonDiff.ts:40-65 | the map after `traverse(current, path)` is the map before with exactly the entries of `current` set, in walk order: none for a primitive or null, a token's fields for a token, and the members or elements in order otherwise |
| JsonDiff.PrimitiveEntries | src/utils/jsonDiff.ts:41-43 | null, booleans, numbers and strings record nothing |
| JsonDiff.PropEntryOf | src/utils/jsonDiff.ts:51-57 | every entry recorded for a token comes from one of the listed fields that is defined, keyed by the path and the field name |
| JsonDiff.PropEntryIn | src/utils/jsonDiff.ts:51-57 | every defined token field among those listed is recorded |
| JsonDiff.PropEntriesAgree | src/utils/jsonDiff.ts:51-57 | the entries recorded for a token depend only on its token fields |
| JsonDiff.LeafChildrenUnvisited | src/utils/jsonDiff.ts:46-59 | the walk stops at a token: members other than the token fields are never visited, so two tokens with the same token fields record the same entries |
| JsonDiff.TokenAgree | src/utils/jsonDiff.ts:46-49 | whether an object is a token depends only on its `$value`, `$description`, `$type` fields |
| JsonDiff.TokenEntriesOf | src/utils/jsonDiff.ts:46-59 | a token records only its own token fields |
| JsonDiff.RecordedStep | src/utils/jsonDiff.ts:62-64 | an entry recorded below a member is recorded for the object holding the member, with the member's key added to the path |
| JsonDiff.EntriesSound | src/utils/jsonDiff.ts:40-65 | every entry the walk records is a defined token field of a token reachable in the document, keyed by the keys leading to it and the field name (the converse is `EntriesComplete`) |
| JsonDiff.EntriesComplete | src/utils/jsonDiff.ts:40-65 | every defined token field of a token reachable in the document through non-token containers is recorded by the walk, under the keys leading to it and the field name |
| JsonDiff.MemberEntriesContain | src/utils/jsonDiff.ts:61-64 | an entry recorded for one member is among the entries recorded for the members of its object from that member's position or earlier |
| JsonDiff.ItemEntriesContain | src/utils/jsonDiff.ts:61-64 | an entry recorded for one element is among the entries recorded for the elements of its array, keyed by the element index |
| JsonDiff.EntriesIff | src/utils/jsonDiff.ts:40-65 | an entry is recorded by the walk iff it is a defined token field reachable in the document |
| JsonDiff.TokenSound | src/utils/jsonDiff.ts:46-59 | every entry a token records is one of its own defined fields |
| JsonDiff.MembersSound | src/utils/jsonDiff.ts:62-64 | every entry recorded for the members of an object comes from a token reachable through one of them |
| JsonDiff.ItemsSound | src/utils/jsonDiff.ts:62-64 | every entry recorded for the elements of an array comes from a token reachable through one of them, keyed by the element index |
| JsonDiff.FlattenLookup | src/utils/jsonDiff.ts:34-69 | in the flattened map a key holds the value of its last recording, and that value is a token field reachable in the document |
| JsonDiff.LastIndex | src/utils/jsonDiff.ts:55 | the value a key reads last was set by one of the recorded entries |
| JsonDiff.FlattenTokens | src/utils/jsonDiff.ts:34-69 | `flattenTokens` returns a fresh, well-formed map holding the entries of a walk from the root with an empty path |
| JsonDiff.FlattenValid | src/utils/jsonDiff.ts:34-69 | the flattened map lists each key once |
| JsonDiff.Flatten | src/utils/jsonDiff.ts:34-69 | the map `flattenTokens` returns: the entries of the walk from the root with an empty path, set one after the other (its properties are `FlattenValid`, `FlattenLookup`, `FlattenComplete`, `FlattenKeyField`) |
| JsonDiff.FlattenComplete | src/utils/jsonDiff.ts:34-69 | every defined token field reachable in the document has a key in the flattened map |
| JsonDiff.LastValueSome | src/utils/jsonDiff.ts:55 | a key that some `set` call names reads a value after the calls |
| JsonDiff.KeyEntry | src/utils/jsonDiff.ts:55 | every key of the flattened map was set by an entry of the walk |
| JsonDiff.RecordedKey | src/utils/jsonDiff.ts:51-57 | the key of a recorded entry is the path, the keys walked and a field name, joined with '/' |
| JsonDiff.FlattenKeyField | src/utils/jsonDiff.ts:51-57 | every key of the flattened map is the path of a token joined with '/' and then one of the field names "value", "description", "type" |
| JsonDiff.FindJsonDiff | src/utils/jsonDiff.ts:71-101 | `findJsonDiff` returns the changes between the two flattenings, and no changes when either input fails to parse |
| JsonDiff.JsonDiffOf | src/utils/jsonDiff.ts:71-101 | the changes `findJsonDiff` returns: none when either input fails to parse, else the changes between the two flattenings (its properties are `JsonDiffSelf`, `JsonDiffSwap`, `DiffKeysDistinct`, `DiffProp`) |
| JsonDiff.Diff | src/utils/jsonDiff.ts:81-94 | one change per key of either side that renders differently, in the order the `Set` enumerates the keys (its properties are `DiffMember`, `DiffEntry`, `DiffSwap`, `DiffDistinct`) |
| JsonDiff.UniqueMember | src/utils/jsonDiff.ts:81 | a key is enumerated by the `Set` iff it occurs in the key list and was not enumerated already |
| JsonDiff.UniqueDistinct | src/utils/jsonDiff.ts:81 | the `Set` enumerates each key once |
| JsonDiff.AllPathsMember | src/utils/jsonDiff.ts:81 | the keys compared are exactly those present on either side |
| JsonDiff.DiffOverMember | src/utils/jsonDiff.ts:83-94 | the loop pushes a change iff some key it visits renders differently on the two sides, and the change is the one built for that key |
| JsonDiff.DiffMember | src/utils/jsonDiff.ts:81-94 | a change is reported iff some key of either side renders differently on the two sides, and the change is built from that key |
| JsonDiff.DiffOverSelf | src/utils/jsonDiff.ts:87 | comparing a flattening with itself pushes nothing |
| JsonDiff.JsonDiffSelf | src/utils/jsonDiff.ts:71-101 | a document compared with itself has no changes |
| JsonDiff.DiffEntry | src/utils/jsonDiff.ts:84-92 | a change's path joined with '/' is a key of either side that renders differently, and a side reads `null` exactly when the key is absent there or holds `null` |
| JsonDiff.DiffSwap | src/utils/jsonDiff.ts:83-94 | exchanging the two flattenings reports the same keys with old and new values exchanged |
| JsonDiff.DiffOverDistinct | src/utils/jsonDiff.ts:83-94 | from distinct keys the loop pushes changes with distinct paths |
| JsonDiff.DiffDistinct | src/utils/jsonDiff.ts:81-94 | each key is reported at most once |
| JsonDiff.JsonDiffSwap | src/utils/jsonDiff.ts:71-101 | a change is reported from A to B iff its swap is reported from B to A |
| JsonDiff.WordRun | src/utils/jsonDiff.ts:113 | the run measured is the longest prefix of `\w` characters |
| JsonDiff.CleanKeys | src/utils/jsonDiff.ts:113 | the `"$name":` to `"name":` rewrite of a string value (its properties are `CleanKeysDropsOnlyDollars`, `CleanKeysNoDollar`, `CleanKeysName`) |
| JsonDiff.DropDollarsAppend | src/utils/jsonDiff.ts:113 | deleting '$' characters distributes over concatenation |
| JsonDiff.CleanKeysDropsOnlyDollars | src/utils/jsonDiff.ts:113 | the `"$name":` rewrite deletes '$' characters and nothing else, so it never lengthens the text |
| JsonDiff.DropMatchedDollar | src/utils/jsonDiff.ts:113 | rewriting one match keeps the '$'-free text |
| JsonDiff.CleanKeysNoDollar | src/utils/jsonDiff.ts:113 | text without '$' is left as it is |
| JsonDiff.CleanKeysName | src/utils/jsonDiff.ts:113 | a leading `"$name":` becomes `"name":` and the rest is rewritten on its own |
| JsonDiff.WordRunPrefix | src/utils/jsonDiff.ts:113 | the `\w+` match of a name ends where the name ends |
| JsonDiff.FormatValue | src/utils/jsonDiff.ts:103-120 | a non-string renders as its JSON text, a hex colour under `value` as the swatch markup, and any other string with its `"$name":` keys rewritten |
| JsonDiff.IsHexColor | src/utils/jsonDiff.ts:103-105 | `#` followed by exactly three or six hex digits of either case; `FormatValue` shows the swatch exactly for such a string under `value` |
| JsonDiff.AbsentRendersNull | src/utils/jsonDiff.ts:90-91 | a side that is absent renders as `null` |
| JsonDiff.JoinWithPrefix | src/utils/jsonDiff.ts:144-146 | joining blocks never drops the first one |
| JsonDiff.FormatJsonDiff | src/utils/jsonDiff.ts:122-147 | `formatJsonDiff` is "" exactly when there are no changes |
| JsonDiff.FormatOrder | src/utils/jsonDiff.ts:125-146 | the text is the blocks of a sorted permutation of the changes, ascending by path joined with '/', separated by a blank line |
| JsonDiff.FormatOrderIndependent | src/utils/jsonDiff.ts:125-126 | with distinct keys the text does not depend on the order of the changes given |
| JsonDiff.DiffKeysDistinct | src/utils/jsonDiff.ts:81-94 | the changes `findJsonDiff` reports have distinct sort keys |
| JsonDiff.JsonDiffFormatIndependent | src/utils/jsonDiff.ts:71-147 | rendering the changes of two documents gives the same text whatever order they are listed in |
| JsonDiff.BlockLines | src/utils/jsonDiff.ts:135-144 | a block is exactly three lines (the `@ <path>` header, the old side, the new side) whenever none of them holds a line break itself |
| JsonDiff.ThreeLines | src/utils/jsonDiff.ts:144 | three lines without line breaks joined with "\n" split back into those three lines |
| JsonDiff.PropOfField | src/utils/jsonDiff.ts:129-131 | a change whose key ends with a token field's name has that name as its property |
| JsonDiff.LastSegment | src/utils/jsonDiff.ts:55 | splitting a key that ends in a field name at '/' gives that name as the last segment |
| JsonDiff.DiffProp | src/utils/jsonDiff.ts:71-133 | every change `findJsonDiff` reports has "value", "description" or "type" as its property, so a changed `$value` holding a hex colour is shown with the swatch |
| JsonDiff.DropOneDollar | src/utils/jsonDiff.ts:113 | deleting one '$' keeps the '$'-free text |
| Base64.TableEntry | src/utils/base64.ts:2-3 | entry k of the lookup table is the k-th alphabet letter, and entry 64 is '=' |
| Base64.CharsIsTable | src/utils/base64.ts:2-3 | the table built from the letter ranges is the 65-character table the encoder writes out |
| Base64.Index | src/utils/base64.ts:2-3 | a character has an alphabet position iff it is one of the 64 letters, and that position is below 64 |
| Base64.IndexDigit | src/utils/base64.ts:2-3 | the position of the letter for value k is k |
| Base64.OrDisjoint | src/utils/base64.ts:13-14 | `\|` of a multiple of 2^k and a number below 2^k is their sum |
| Base64.Base64Encode | src/utils/base64.ts:1-27 | the while loop, taking up to three code units per iteration, outputs the group-by-group encoding of the whole input, where each group is a JavaScript `+` chain over table lookups that may be `undefined`: a string operand makes the sum a string, two `undefined` operands make NaN |
| Base64.EncodeGroup | src/utils/base64.ts:12-23 | the text one iteration appends: the four indices of the group looked up in the 65-entry table and added with JavaScript `+` (padding "==" or "=" for a short group) |
| Base64.EncodeUnits | src/utils/base64.ts:7-24 | the whole output, one group per three code units (its properties are `EncodeUnitsAppend`, `UnitsAgree`, `DecodeEncodeUnits`, and the counterexamples `CodeUnit256`, `CodeUnit1000`, `CodeUnitPairNaN`) |
| Base64.EncodeUnitsFirst | src/utils/base64.ts:7-24 | the output of a non-empty input is the first group's text followed by the output for the rest |
| Base64.LoopStep | src/utils/base64.ts:7-24 | one loop iteration at `start` appends the text of the group read there and leaves the output for the code units from the new `i` |
| Base64.Plus | src/utils/base64.ts:18-22 | JavaScript `+` on a string, `undefined` or NaN: concatenation of the texts when either side is a string, NaN otherwise |
| Base64.Group | src/utils/base64.ts:12-15 | three bytes give four 6-bit values |
| Base64.Sextets | src/utils/base64.ts:7-24 | a byte string gives four 6-bit values per full group and two or three for a final one or two bytes |
| Base64.Render | src/utils/base64.ts:18-22 | each 6-bit value is written as its alphabet letter |
| Base64.Read | src/utils/base64.ts:2-3 | reading letters back gives one 6-bit value per character, and fails on a character outside the alphabet |
| Base64.PadLength | src/utils/base64.ts:18-20 | at most two '=' end an encoding |
| Base64.ReadRender | src/utils/base64.ts:18-22 | reading the letters written for a list of values gives the values back |
| Base64.GroupBytes | src/utils/base64.ts:12-15 | the four values of a group put back together give its three bytes |
| Base64.FromSextetsCons | src/utils/base64.ts:7-24 | decoding a full group followed by more values gives its three bytes followed by the decoding of the rest |
| Base64.FromSextetsSextets | src/utils/base64.ts:7-24 | turning bytes into 6-bit values and back gives the bytes |
| Base64.EncodeLength | src/utils/base64.ts:7-24 | an encoding of n bytes has 4 * ceil(n / 3) characters |
| Base64.Encode | src/utils/base64.ts:1-27 | the base64 encoding of section 4 of RFC 4648 that the function is meant to compute on bytes (its properties are `EncodeLength`, `EncodeShape`, `DecodeEncode`) |
| Base64.Decode | src/utils/base64.ts:1-27 | the inverse of the encoding, failing on a length not a multiple of four or a character outside the alphabet; `DecodeEncode` proves the round trip |
| Base64.PadLengthEncode | src/utils/base64.ts:17-23 | the padding counted at the end of an encoding is the padding written |
| Base64.DecodeEncode | src/utils/base64.ts:1-27 | decoding an encoding gives back the bytes (the round trip) |
| Base64.EncodeShape | src/utils/base64.ts:17-23 | the padding is "==" for n % 3 == 1, "=" for n % 3 == 2 and nothing for n % 3 == 0, and every character before it is an alphabet letter |
| Base64.EncodeUnitsAppend | src/utils/base64.ts:7-10 | a prefix whose length is a multiple of three encodes independently of what follows |
| Base64.SymDigit | src/utils/base64.ts:18-22 | `chars[k]` for k below 64 is the letter for k |
| Base64.OrFields | src/utils/base64.ts:13-14 | for code units below 256 the two fields or-ed into the second and third index do not overlap |
| Base64.GroupLetters | src/utils/base64.ts:22 | an iteration over three code units below 256 writes the letters of their group |
| Base64.GroupLetters2 | src/utils/base64.ts:19-20 | an iteration over the last two code units writes three letters and '=' |
| Base64.GroupLetters1 | src/utils/base64.ts:17-18 | an iteration over the last code unit writes two letters and "==" |
| Base64.RenderAppend | src/utils/base64.ts:18-22 | writing two lists of values is writing one after the other |
| Base64.EncodeCons | src/utils/base64.ts:7-24 | three or more bytes encode as the letters of the first group followed by the encoding of the rest |
| Base64.UnitsAgreeStep | src/utils/base64.ts:7-24 | one iteration step of the agreement between the loop and the byte encoding |
| Base64.UnitsAgree | src/utils/base64.ts:1-27 | for code units below 256 the loop computes the base64 encoding of those bytes |
| Base64.DecodeEncodeUnits | src/utils/base64.ts:1-27 | for code units below 256 decoding the loop's output gives back the input |
| Base64.CodeUnit256 | src/utils/base64.ts:8-18 | the code unit 256 makes index 64, so '=' is written in a data position and the output does not decode |
| Base64.CodeUnit1000 | src/utils/base64.ts:8-18 | a larger code unit indexes past the table and "undefined" is written |
| Base64.CodeUnitPairNaN | src/utils/base64.ts:8-22 | two code units 1040 make the first two indices 65 and 65, both past the table, so their sum is NaN and the output is "NaNA=" |
| PluginStore.AsPartial | src/PluginStore.ts:78-81 | a complete commit-data record passed as the current one has every field present |
| PluginStore.Merge | src/PluginStore.ts:30-51 | a defined update wins even when it is "", else a non-empty current value, else the default |
| PluginStore.UpdateCommitData | src/PluginStore.ts:26-54 | each of branch, message, filename and content is merged from the current value, the update and the default ("", "", "test.md", "") |
| PluginStore.UpdateSettings | src/PluginStore.ts:59-84 | token, organization, repository and label come from the update when it is defined and from the current settings otherwise, and the commit data is always rebuilt by the merge |
| PluginStore.CommitDataDefaults | src/PluginStore.ts:30-35 | with nothing current and nothing to apply the merge gives the default commit data |
| PluginStore.BaseBranchIgnored | src/PluginStore.ts:46-51 | an update's `baseBranch` never influences the merged commit data |
| PluginStore.CommitDataExt | src/PluginStore.ts:30-53 | two commit-data records that agree on the four fields are equal |
| PluginStore.UpdateCommitDataIdempotent | src/PluginStore.ts:26-54 | merging the same updates into a merge result changes nothing |
| PluginStore.UpdateSettingsIdempotent | src/PluginStore.ts:59-84 | applying the same updates twice gives the settings of applying them once |
| PluginStore.ToStored | src/PluginStore.ts:92 | the record written has every field present |
| PluginStore.UpdateWithComplete | src/PluginStore.ts:59-84 | merging a complete record over any settings gives that record |
| PluginStore.LoadSettings | src/PluginStore.ts:100-116 | the defaults when nothing is stored or the read fails, otherwise the stored value merged over the defaults |
| PluginStore.SaveSettings | src/PluginStore.ts:86-98 | a successful save stores and returns the given fields merged over the loaded settings; a failed write raises an error and leaves storage as it was |
| PluginStore.LoadEmptyObject | src/PluginStore.ts:104-111 | an empty stored object loads as the defaults |
| PluginStore.LoadAfterSave | src/PluginStore.ts:86-116 | after a successful save, loading returns exactly what the save returned |
| PluginStore.SaveTwice | src/PluginStore.ts:86-98 | saving the same fields twice stores the settings of saving them once |
| Sorting.LexTotal | src/utils/jsonDiff.ts:126 | any two keys compare one way or the other |
| Sorting.LexTrans | src/utils/jsonDiff.ts:126 | the key order is transitive |
| Sorting.LexAntisym | src/utils/jsonDiff.ts:126 | keys that compare both ways are equal |
| Sorting.InsertPerm | src/utils/jsonDiff.ts:125-126 | inserting an element adds exactly that element |
| Sorting.SortedTail | src/utils/jsonDiff.ts:125-126 | the tail of an ascending list is ascending |
| Sorting.SortedCons | src/utils/jsonDiff.ts:125-126 | putting an element no greater than the rest in front keeps the order |
| Sorting.InsertSorted | src/utils/jsonDiff.ts:125-126 | inserting into an ascending list keeps it ascending |
| Sorting.SortBySpec | src/utils/jsonDiff.ts:125-126 | the sort's result is ascending by key and a permutation of its input |
| Sorting.SortBy | src/utils/jsonDiff.ts:125-126 | the stable sort by a string key (its properties are `SortBySpec`, `SortByStable` and `SortByUnique`) |
| Sorting.PermDistinct | src/utils/jsonDiff.ts:125-126 | a rearrangement of elements with distinct keys has distinct keys |
| Sorting.CountTwo | src/utils/jsonDiff.ts:125-126 | an element at two positions occurs at least twice |
| Sorting.DistinctOnce | src/utils/jsonDiff.ts:125-126 | with distinct keys every element occurs once |
| Sorting.LexRefl | src/utils/jsonDiff.ts:126 | every key compares equal to itself |
| Sorting.SortedHeads | src/utils/jsonDiff.ts:125-126 | two ascending arrangements of the same elements with distinct keys start alike |
| Sorting.SortedUnique | src/utils/jsonDiff.ts:125-126 | with distinct keys there is only one ascending arrangement |
| Sorting.SortByUnique | src/utils/jsonDiff.ts:125-126 | sorting two arrangements of the same elements with distinct keys gives the same list |
| Sorting.WithKeyAppend | src/utils/jsonDiff.ts:125-126 | the elements with one key of a concatenation are those of each part, in order |
| Sorting.WithKeyNone | src/utils/jsonDiff.ts:125-126 | a list without the key has no elements with it |
| Sorting.AboveKey | src/utils/jsonDiff.ts:125-126 | in a sorted list starting above a key, no element has that key |
| Sorting.InsertWithKey | src/utils/jsonDiff.ts:125-126 | inserting into a sorted list places the element after every element with the same key, leaving the others of that key in order |
| Sorting.SortByStable | src/utils/jsonDiff.ts:125-126 | stability: for every key, the elements with that key come out in their input order |
| Json.Keys | src/utils/jsonDiff.ts:62 | the member names, one per member, in enumeration order |
| Json.Get | src/utils/jsonDiff.ts:52 | a member lookup finds a value iff the object has the name, and the value is that member's |
| Json.Put | src/components/ViewLocalChanges.tsx:57-65 | assigning a member keeps an existing name in its place and appends a new one |
| Json.GetPut | src/components/ViewLocalChanges.tsx:57-65 | after assigning k, k reads the new value and every other name reads as before |
| Json.GetAppend | src/utils/jsonDiff.ts:62 | looking a name up in two runs of members finds it in the first run when it is there |
| Json.PutPut | src/components/ViewLocalChanges.tsx:57-65 | assigning the same member twice is assigning the second value |
| Json.PutKeepsDistinct | src/components/ViewLocalChanges.tsx:57-65 | assigning a member keeps the names distinct |
| Util.JoinSplit | src/utils/jsonDiff.ts:89 | joining the parts of a split gives back the string |
| Util.SplitJoin | src/utils/jsonDiff.ts:55 | splitting a join of parts without the separator gives back the parts |
| Variables.Segments | src/utils/groupUtils.ts:12 | `split("/")` gives at least one segment |
| Variables.SlashSegments | src/utils/groupUtils.ts:10-12 | a name holding a `/` splits into at least two segments |
| Variables.CountPositive | src/utils/groupUtils.ts:10 | a character that occurs in a name is counted at least once |
| NestedGroups.CreateNestedGroups | src/utils/groupUtils.ts:4-40 | the `forEach` with its inner `for` loop builds the groups of the variables taken one after the other, each group's path made by the source's rule `currentPath ? currentPath + "/" + part : part` |
| NestedGroups.AddAt | src/utils/groupUtils.ts:16-35 | one variable's walk down the tree with the running path, as recursion on the segment index (its properties are `AddAtStep`, `AddAtNode`, `AddAtWellFormed`) |
| NestedGroups.Build | src/utils/groupUtils.ts:4-40 | the tree `createNestedGroups` returns, with the source's path rule (its properties are `BuildNode`, `PresentIff`, `MembersCount`, `BuildWellFormed`) |
| NestedGroups.AddAtStep | src/utils/groupUtils.ts:16-35 | one step of the walk finds the group for the segment or creates it with the running path (made by the given path rule: as written, or always joined), pushes the variable at the deepest level, and continues in the children |
| NestedGroups.ExtendPath | src/utils/groupUtils.ts:18 | extending the running path of some segments by one more segment gives the running path of the longer list, for either rule |
| NestedGroups.AddAtOff | src/utils/groupUtils.ts:20-30 | a path that does not start with the walk's segment is untouched |
| NestedGroups.ChainTail | src/utils/groupUtils.ts:16 | a path lies on the walk from depth i iff its tail lies on the walk from depth i + 1 |
| NestedGroups.AddAtHere | src/utils/groupUtils.ts:18-33 | the group at the walk's own segment is the one found or created there, with the running path of the rule, grown by the variable when it is the deepest |
| NestedGroups.AddAtBelow | src/utils/groupUtils.ts:30-35 | a longer path on the walk is followed in the children of the group found or created |
| NestedGroups.AddAtNode | src/utils/groupUtils.ts:16-36 | after a walk the groups along it exist and keep their name, path and open state, a created one gets the rule's running path, only the deepest gains the variable, and every other group is as it was |
| NestedGroups.AddAtAlong | src/utils/groupUtils.ts:16-36 | for either path rule, every run `parts[i..d]` of the walk that stops before the last segment leads afterwards to a group with the name, path and open state it had (or was created with), gaining the variable only at the deepest level |
| NestedGroups.AddAtAside | src/utils/groupUtils.ts:16-36 | for either path rule, every path that leaves the walk leads to the same group, or to none, as before, with the same name, path, open state and variables |
| NestedGroups.ParentOnPath | src/utils/groupUtils.ts:31-33 | the group a variable is pushed into is one its name creates |
| NestedGroups.MembersAbsent | src/utils/groupUtils.ts:31-33 | no variable is filed under a path no name creates |
| NestedGroups.BuildNode | src/utils/groupUtils.ts:4-40 | a group exists at a path iff some name creates it; it is named by the path's last segment, its `fullPath` is the rule's running path for those segments (as written: restarted after an empty prefix), it starts open and holds exactly the variables whose parent it is, in input order |
| NestedGroups.PresentIff | src/utils/groupUtils.ts:10-16 | a group exists for a path iff some variable's name has that path as a proper prefix of its segments |
| NestedGroups.MembersCount | src/utils/groupUtils.ts:31-33 | a group holds each variable whose parent it is as often as it occurs in the input, and no other |
| NestedGroups.NoSlashNoGroups | src/utils/groupUtils.ts:10 | names without `/` create nothing, for either path rule |
| NestedGroups.AddAtWellFormed | src/utils/groupUtils.ts:16-36 | a walk keeps each level's keys distinct, its key list and map in agreement, and each group filed under its own name, for either path rule |
| NestedGroups.FileWellFormed | src/utils/groupUtils.ts:20-34 | setting a well-formed group under its own name, appending the name when it is new, keeps a level well formed |
| NestedGroups.BuildWellFormed | src/utils/groupUtils.ts:4-40 | the groups built are well formed at every level, for either path rule |
| NestedGroups.PathAsWrittenJoin | src/utils/groupUtils.ts:18 | when the first segment is not empty the running path is the segments joined with '/' |
| NestedGroups.JoinHead | src/utils/groupUtils.ts:18 | a join is at least as long as its first part |
| NestedGroups.LeadingSlashTree | src/utils/groupUtils.ts:12-28 | the name "/a/b" splits into "", "a", "b" and creates, under either path rule, a group at ["", "a"] with that rule's running path, and a top level holding only "" |
| NestedGroups.LeadingSlashAsWritten | src/utils/groupUtils.ts:18 | with the rule as written the group at ["", "a"] gets the path "a", and looking that path up from the top finds nothing |
| NestedGroups.LeadingSlashCorrected | src/utils/groupUtils.ts:18 | with the joined path the same group's path is "/a", and looking it up finds the group |
| NestedGroups.GroupPathLast | src/utils/groupUtils.ts:18 | the last segment of a running path made from segments without `/` is the last of those segments, for either rule |
| TableView.GetRootVariables | src/components/VariablesTableView/index.tsx:14-16 | every variable kept has no `/` in its name |
| TableView.WithSlash | src/components/VariablesTableView/index.tsx:213 | every variable kept has a `/` in its name |
| TableView.GroupedVariables | src/components/VariablesTableView/index.tsx:209-222 | the reduce loop gives no buckets without a collection, and otherwise the variables with a `/` filed by group path |
| TableView.GroupByStep | src/components/VariablesTableView/index.tsx:214-221 | the reduce over one more variable is one more push |
| TableView.PushInTwoSteps | src/components/VariablesTableView/index.tsx:216-219 | creating the bucket when it is missing and then pushing is one push |
| TableView.BucketIsFiltered | src/components/VariablesTableView/index.tsx:212-221 | each bucket holds exactly the variables with its group path, in input order |
| TableView.GroupByValid | src/components/VariablesTableView/index.tsx:212-221 | no key twice, keys and buckets in agreement, and no bucket empty |
| TableView.FiledUnderCount | src/components/VariablesTableView/index.tsx:215-219 | a bucket holds each variable with its group path as often as it occurs, and no other |
| TableView.RootCount | src/components/VariablesTableView/index.tsx:14-16 | the root list holds each variable without `/` as often as it occurs, and no other |
| TableView.RootOrder | src/components/VariablesTableView/index.tsx:14-16 | the root list is the input read at an increasing run of positions, exactly the positions of names without `/`, so `filter` keeps the input order |
| TableView.WithSlashCount | src/components/VariablesTableView/index.tsx:213 | the filter keeps each variable with a `/` as often as it occurs, and no other |
| TableView.Partition | src/components/VariablesTableView/index.tsx:209-227 | every occurrence of a variable is either at the root or in the bucket of its group path, and in no other bucket |
| TableView.GetGroupDisplayName | src/components/VariablesTableView/index.tsx:44-47 | a group's display name holds no `/` |
| TableView.RelevantPathAll | src/components/VariablesTableView/index.tsx:28-33 | in the "All variables" view the relevant path and the last segment put back together give the name, and a name without `/` has an empty relevant path |
| TableView.RelevantPathInGroup | src/components/VariablesTableView/index.tsx:35-38 | inside a selected group the relevant path is the first segment below the group, or the last segment when that one is "" |
| TableView.GetRelevantPath | src/components/VariablesTableView/index.tsx:24-39 | the path shown for a variable: the name without its last segment in the "All variables" view, otherwise the first segment below the selected group or the last segment (its properties are `RelevantPathAll`, `RelevantPathInGroup`) |
| TableView.NodeSnoc | src/components/VariablesTableView/index.tsx:242-246 | one more segment steps into the children of the group reached so far |
| TableView.NodeMissing | src/components/VariablesTableView/index.tsx:243-244 | a missing step anywhere along a path means no group is found |
| TableView.FindGroupByPath | src/components/VariablesTableView/index.tsx:237-249 | the loop finds the group reached by following the path's segments from the top, or nothing when a step is missing |
| TableView.BuiltPathNoSep | src/utils/groupUtils.ts:12 | the segments of a created group's path hold no `/` |
| TableView.FindBuiltGroup | src/components/VariablesTableView/index.tsx:237-249 | in a tree `createNestedGroups` built, looking up the `fullPath` of a group whose first segment is not empty finds that group; `NestedGroups.LeadingSlashAsWritten` shows that with an empty first segment the lookup fails |
| TableView.FindCorrectedGroup | src/components/VariablesTableView/index.tsx:237-249 | with the always-joined path rule, looking up any created group's `fullPath` finds that group |
| TableView.BuiltGroupDisplayName | src/components/VariablesTableView/index.tsx:44-47 | the display name of a created group's `fullPath` is the group's name, also when the path was restarted after an empty segment |
| TableView.ToggleNode | src/components/VariablesTableView/index.tsx:251-260 | toggling flips the open state of the group at the path and of no other, and no group appears, disappears or changes otherwise |
| TableView.ToggleMissing | src/components/VariablesTableView/index.tsx:254-257 | toggling a path with no group changes nothing |
| TableView.Toggle | src/components/VariablesTableView/index.tsx:251-260 | the tree with the open state of the group at the segments flipped (its properties are `ToggleNode`, `ToggleMissing`) |
| TableView.HandleToggleGroup | src/components/VariablesTableView/index.tsx:251-260 | `handleToggleGroup` flips the group `findGroupByPath` finds for the path, and changes nothing when it finds none |
| GroupRow.DisplayNameLast | src/components/VariablesTableView/components/VariablesGroupRow.tsx:40-41 | the display name is the last segment and holds no `/`; a name without `/` is all display name with an empty group path |
| GroupRow.ResolveRoundTrip | src/components/VariablesTableView/components/VariablesGroupRow.tsx:40-42 | the group path, `/` and the display name put back together give the name |
| GroupRow.GroupDisplayNameIsParent | src/components/VariablesTableView/components/VariablesGroupRow.tsx:43 | the group display name is the second-to-last segment, or the whole group path when that segment is missing or "" |
| GroupRow.ResolvePathParts | src/components/VariablesTableView/components/VariablesGroupRow.tsx:35-50 | the group path, display name and group display name of a full path (its properties are `DisplayNameLast`, `ResolveRoundTrip`, `GroupDisplayNameIsParent`) |
| GroupRow.HiddenBadgeIff | src/components/VariablesTableView/components/VariablesGroupRow.tsx:73 | the badge shows iff the prop is `true` or the name starts with '_' |
| GroupRow.ShowsHiddenBadge | src/components/VariablesTableView/components/VariablesGroupRow.tsx:73 | the hidden-from-publishing badge condition; `HiddenBadgeIff` states when it holds |
| GroupRow.ExactlyOneIcon | src/components/VariablesTableView/components/VariablesGroupRow.tsx:65-71 | exactly one icon is rendered for any type: the type's own for the four known types, the fallback otherwise |
| GroupRow.Icons | src/components/VariablesTableView/components/VariablesGroupRow.tsx:65-71 | the icons rendered for a variable type; `ExactlyOneIcon` proves there is always exactly one |
| GroupRow.ValueCells | src/components/VariablesTableView/components/VariablesGroupRow.tsx:84-91 | one cell per mode, in the order of the modes, holding the variable's value for that mode or nothing |
| Display.StorageKeyInjective | src/components/VariablesDisplay.tsx:31-62 | each collection has its own storage key, and every key starts with `variable-groups-state-` |
| Display.StorageKey | src/components/VariablesDisplay.tsx:31-62 | the client-storage key of a collection's group states; `StorageKeyInjective` proves distinct collections get distinct keys |
| Display.GroupedVariables | src/components/VariablesDisplay.tsx:96-116 | the `forEach` over the selected collection's variables builds the groups by first segment, and nothing while no collection is selected |
| Display.GroupFirstGroup | src/components/VariablesDisplay.tsx:103-113 | there is a group for k iff some variable's first segment is k; it is named k, starts open and holds those variables in input order |
| Display.GroupFirstValid | src/components/VariablesDisplay.tsx:101-113 | the group map lists each key once, with keys and entries in agreement |
| Display.WithBaseCount | src/components/VariablesDisplay.tsx:104-112 | each variable lands in exactly one group, the one of its first segment, as often as it occurs |
| Display.StatesOf | src/components/VariablesDisplay.tsx:141-147 | the saved record lists every group's name with its open state, in map order |
| Display.ToObjectLookup | src/components/VariablesDisplay.tsx:141-147 | a name listed once in the record reads its own state |
| Display.StatesCover | src/components/VariablesDisplay.tsx:141-147 | every group of the map is in the saved record with its state |
| Display.ToggleGroupSpec | src/components/VariablesDisplay.tsx:132-152 | toggling flips exactly the named group and saves every group's state; an unknown name changes nothing and saves nothing |
| Display.ToggleTwice | src/components/VariablesDisplay.tsx:132-152 | toggling the same group twice restores the map |
| Display.ToggleGroup | src/components/VariablesDisplay.tsx:132-152 | the new group map and the states saved by `toggleGroup` (its properties are `ToggleGroupSpec`, `ToggleTwice`, `ToggleSaveLoad`) |
| Display.SetAllOpen | src/components/VariablesDisplay.tsx:159-199 | expand-all and collapse-all set every group to the one state and save that state for every group, in map order |
| Display.WithAllOpenSpec | src/components/VariablesDisplay.tsx:159-199 | expand-all and collapse-all keep the groups and their contents and set every state; doing it twice is doing it once |
| Display.WithAllOpen | src/components/VariablesDisplay.tsx:159-199 | the group map after expand-all or collapse-all; `WithAllOpenSpec` states what it keeps and sets |
| Display.ApplySavedStates | src/components/VariablesDisplay.tsx:76-87 | on loaded states each group takes its saved state, or opens when none is saved or nothing was loaded |
| Display.WithSavedSpec | src/components/VariablesDisplay.tsx:77-86 | loading adds and removes no group, and only sets each group's open state |
| Display.WithSaved | src/components/VariablesDisplay.tsx:77-86 | the group map with loaded states applied, `savedStates[groupName] ?? true`; `WithSavedSpec` and `SaveLoadRoundTrip` state its properties |
| Display.SaveLoadRoundTrip | src/components/VariablesDisplay.tsx:76-87 | loading the states saved for a map gives back that map |
| Display.ToggleSaveLoad | src/components/VariablesDisplay.tsx:132-152 | loading the states a toggle saved gives back the toggled map |
| DesignTokens.HexString | src/components/ViewLocalChanges.tsx:22 | `toString(16)` writes at least one digit |
| DesignTokens.ToHexDigits | src/components/ViewLocalChanges.tsx:20-23 | every byte gives exactly two lower-case hex digits that read back as that byte |
| DesignTokens.RgbaToHexShape | src/components/ViewLocalChanges.tsx:19-26 | `#` and six hex digits when the alpha is exactly 1 (also the default), eight otherwise, the channels in the order r, g, b, a |
| DesignTokens.RgbaToHex | src/components/ViewLocalChanges.tsx:19-26 | `rgbaToHex`: `#` and the hex of r, g, b, and the hex of the alpha only when it is not exactly 1; `RgbaToHexShape` states its shape |
| DesignTokens.LeafSpec | src/components/ViewLocalChanges.tsx:49-63 | the leaf's `$type` is the lower-cased type; `$description` is there iff the description is truthy; `$value` is there iff the processed value is truthy; a truthy resolved value is preferred; a COLOR variable's colour object becomes its hex |
| DesignTokens.Leaf | src/components/ViewLocalChanges.tsx:49-63 | the leaf written for a variable; `LeafSpec` states its members |
| DesignTokens.SetAtPathGet | src/components/ViewLocalChanges.tsx:45-68 | after the walk the leaf sits at the variable's path |
| DesignTokens.SetAtPathFrame | src/components/ViewLocalChanges.tsx:64-67 | the walk changes only the top-level member on the path: every other member is kept, none is removed, the result is an object, and an object leaf leaves an object under the first segment |
| DesignTokens.SetAtPathKeeps | src/components/ViewLocalChanges.tsx:64-67 | `current[segment] \|\| {}` creates a level only when it is absent: every value found before the walk at a path that leaves the written path (agrees up to some position and differs there) is found unchanged after it |
| DesignTokens.SetAtPathTwice | src/components/ViewLocalChanges.tsx:48-68 | writing a second leaf at the same path is writing only the second |
| DesignTokens.SetAtPath | src/components/ViewLocalChanges.tsx:45-68 | the walk down the token object creating missing levels, or a `TypeError` when it meets a primitive (its properties are `SetAtPathGet`, `SetAtPathFrame`, `SetAtPathKeeps`, `SetAtPathTwice`, `ThroughSchemaFails`) |
| DesignTokens.ThroughSchemaFails | src/components/ViewLocalChanges.tsx:36-67 | a variable whose path runs through `$schema` cannot be placed: it would assign into a string |
| DesignTokens.TransparentPaintAsWritten | src/components/ViewLocalChanges.tsx:105 | a solid black paint with opacity 0 and no description is exported as `{"$value": "#000000", "$type": "color"}`, because `opacity \|\| 1` turns 0 into 1 |
| DesignTokens.TransparentPaintCorrected | src/components/ViewLocalChanges.tsx:105 | with the default applied only to a missing opacity the transparent paint keeps its zero alpha, "#00000000", and any given opacity is used |
| DesignTokens.TransparentShadowAsWritten | src/components/ViewLocalChanges.tsx:150 | a shadow whose colour is black with alpha 0 is exported with the opaque colour "#000000", because `a \|\| 1` turns 0 into 1 |
| DesignTokens.TransparentShadowCorrected | src/components/ViewLocalChanges.tsx:150 | with the default applied only to a missing alpha a shadow colour has eight hex digits exactly when its alpha is not 1, and a zero alpha ends it in "00" |
| DesignTokens.PaintToken | src/components/ViewLocalChanges.tsx:95-115 | the `colors` entry of a paint style: the hex of the first paint with `opacity \|\| 1` as alpha when it is solid with a colour, no `$value` otherwise, `$type` "color" and a truthy description |
| DesignTokens.TextToken | src/components/ViewLocalChanges.tsx:117-131 | the `typography` entry of a text style, each property with its default; `StyleTokens` states the defaults |
| DesignTokens.ShadowJson | src/components/ViewLocalChanges.tsx:143-156 | one exported shadow: its type, its colour in hex with `a \|\| 1` as alpha (left out when there is no colour), its offset or {x: 0, y: 0}, its radius and spread or 0 |
| DesignTokens.EffectToken | src/components/ViewLocalChanges.tsx:133-161 | the `effects` entry of an effect style: its shadows, or `[]` without effects, `$type` "shadow" and a truthy description |
| DesignTokens.PlaceStyle | src/components/ViewLocalChanges.tsx:94-162 | one style written into its bucket by kind; other kinds and paint styles without paints change nothing (`PlaceStyleWritten` reads each entry back, `PlaceStyleShaped` proves it never fails on a shaped object) |
| DesignTokens.Shadows | src/components/ViewLocalChanges.tsx:136-157 | one shadow object per effect, in order, each the `ShadowJson` of its effect, with `a \|\| 1` as the alpha as written |
| DesignTokens.PlaceVariablesAppend | src/components/ViewLocalChanges.tsx:43-70 | placing two runs of variables is placing the first and then the second, stopping at the first error |
| DesignTokens.PlaceStylesAppend | src/components/ViewLocalChanges.tsx:73-165 | placing two runs of styles is placing the first and then the second |
| DesignTokens.PlaceCollection | src/components/ViewLocalChanges.tsx:44-69 | the loop over a collection's variables places each leaf in turn and stops at the first error |
| DesignTokens.PlaceAllVariables | src/components/ViewLocalChanges.tsx:43-70 | the loop over the collections places all their variables in order |
| DesignTokens.PlaceStyleList | src/components/ViewLocalChanges.tsx:74-164 | the loop over one kind's styles places each in turn, paints and shadow colours with `\|\| 1` as written |
| DesignTokens.PlaceAllStyles | src/components/ViewLocalChanges.tsx:73-165 | the loop over the kinds places every style in order, paints and shadow colours with `\|\| 1` as written |
| DesignTokens.FormatAsDesignTokens | src/components/ViewLocalChanges.tsx:28-168 | `formatAsDesignTokens` places the variables and then the styles in the initial token object, failing as a whole when a variable cannot be placed, with `\|\| 1` for paint and shadow alphas as written (what each placement writes and keeps is `EarlierVariableKept`, `PlaceVariablesKeeps` and `PlaceStyleWritten`) |
| DesignTokens.RootShaped | src/components/ViewLocalChanges.tsx:35-40 | the initial token object has `$schema` and the three style buckets as objects |
| DesignTokens.PlaceVariableShaped | src/components/ViewLocalChanges.tsx:45-68 | placing a variable keeps `$schema` and the three buckets |
| DesignTokens.PlaceVariablesShaped | src/components/ViewLocalChanges.tsx:43-70 | placing variables keeps `$schema` and the three buckets |
| DesignTokens.SetMemberShaped | src/components/ViewLocalChanges.tsx:109-134 | writing an entry into a bucket succeeds and keeps the shape |
| DesignTokens.PlaceStyleShaped | src/components/ViewLocalChanges.tsx:94-162 | placing a style never fails and keeps the shape |
| DesignTokens.SetMemberWritten | src/components/ViewLocalChanges.tsx:109-160 | `tokens[bucket][name] = entry` on an object whose bucket is an object: the bucket holds the entry under the name, its other names and the other top-level members read as before |
| DesignTokens.PlaceStyleWritten | src/components/ViewLocalChanges.tsx:94-162 | on a shaped object a paint style with a paint is read back as `colors[name]`, a text style as `typography[name]` and an effect style as `effects[name]`, with their entries; every other name in that bucket and every other top-level member read as before; any other style leaves the object as it was |
| DesignTokens.PlaceStylesShaped | src/components/ViewLocalChanges.tsx:73-165 | placing styles never fails and keeps the shape |
| DesignTokens.ExportShape | src/components/ViewLocalChanges.tsx:43-165 | after variables are placed, styles always succeed and keep the shape |
| DesignTokens.DesignTokenTreeShape | src/components/ViewLocalChanges.tsx:28-168 | the export fails iff placing a variable does, and otherwise always has `$schema`, `colors`, `typography` and `effects` |
| DesignTokens.DesignTokenTree | src/components/ViewLocalChanges.tsx:28-168 | the object `formatAsDesignTokens` returns; `DesignTokenTreeShape` states when it fails and its shape otherwise |
| DesignTokens.LastVariablePlaced | src/components/ViewLocalChanges.tsx:45-68 | a variable placed last is found at its path |
| DesignTokens.LaterVariableWins | src/components/ViewLocalChanges.tsx:57-63 | of two variables with the same name, the later one's leaf is kept |
| DesignTokens.PlaceVariablesKeeps | src/components/ViewLocalChanges.tsx:43-70 | placing variables keeps every value found at a path that leaves each of their paths |
| DesignTokens.EarlierVariableKept | src/components/ViewLocalChanges.tsx:43-70 | a variable's leaf is still found at its path after later variables are placed, as long as each later path leaves its path |
| DesignTokens.StyleTokens | src/components/ViewLocalChanges.tsx:94-161 | paint, text and effect entries carry the types "color", "typography" and "shadow", text properties get their defaults ("System", 16, ...), and a style without effects has `[]` as its value |
| DesignTokens.TextTokenFields | src/components/ViewLocalChanges.tsx:118-130 | a text entry is typed "typography", its value is the text value, and a missing font family or size falls back to "System" and 16 |
| DesignTokens.EffectTokenFields | src/components/ViewLocalChanges.tsx:134-160 | an effect entry is typed "shadow", with `[]` as its value when the style has no effects |
| GitHub.RequestUrlSpec | src/services/github.ts:25-38 | every request URL starts with `http`, an endpoint lands under `https://api.github.com/repos/{organization}/{repository}`, and the rule is idempotent |
| GitHub.RequestUrl | src/services/github.ts:36-38 | the URL `request` fetches: the endpoint itself when it starts with `http`, else the base URL followed by the endpoint; `RequestUrlSpec` states its properties |
| GitHub.Remote.constructor | src/services/github.ts:49-57 | the repository starts with the given branches and objects and has received no request |
| GitHub.Remote.Serve | src/services/github.ts:49-59 | a request received is logged, and the response and the new repository are what GitHub does with it: nothing for a rejection, the effect for an answer |
| GitHub.NextRequest | src/services/github.ts:204-217 | only the last step of a commit moves a branch |
| GitHub.Next | src/services/github.ts:204-217 | each step of a commit leaves fewer requests to send |
| GitHub.Service.constructor | src/services/github.ts:24-26 | the client keeps the given token, organization and repository |
| GitHub.Service.Send | src/services/github.ts:31-92 | `request` sends one request to the URL its rule gives, and returns GitHub's data, or the error "GitHub API Error: " with GitHub's message (the status text when the message is empty), or "API response validation failed" |
| GitHub.Interpret | src/services/github.ts:68-85 | what `request` makes of a response: an error "GitHub API Error: " with the message or the status text, an error for a body failing validation, or the data; `Service.Send` returns it |
| GitHub.Service.SendForSha | src/services/github.ts:31-92 | one request whose answer carries a SHA, sent and interpreted |
| GitHub.Service.GetBranchRef | src/services/github.ts:97-103 | a GET of `/git/refs/heads/{branch}`, answered with the branch's SHA, or "Not Found" for a missing branch |
| GitHub.Service.CreateBlob | src/services/github.ts:108-120 | a POST of `/git/blobs` with the content and encoding "utf-8" stores the blob and returns its SHA |
| GitHub.Service.CreateTree | src/services/github.ts:125-144 | a POST of `/git/trees` on the base tree with one entry (the path, mode "100644", type "blob", the blob's SHA) stores the tree and returns its SHA |
| GitHub.Service.CreateCommit | src/services/github.ts:149-166 | a POST of `/git/commits` with the message, the tree and the one parent stores the commit and returns its SHA |
| GitHub.Service.UpdateRef | src/services/github.ts:171-183 | a PATCH of `/git/refs/heads/{branch}` with the SHA and `force: true` moves the branch when it exists |
| GitHub.Service.CommitChanges | src/services/github.ts:188-224 | `commitChanges` sends the requests of the commit flow in order, with the path defaulting to "variables.json", stops at the first error, and returns the new commit's SHA; the repository and the request log end as the flow says |
| GitHub.Service.CommitOnTip | src/services/github.ts:208-223 | the steps after the tip was read, from the blob on |
| GitHub.Service.CommitBlob | src/services/github.ts:211-223 | the steps after the blob was stored, from the tree on |
| GitHub.Service.CommitTree | src/services/github.ts:214-223 | the steps after the tree was stored, from the commit on |
| GitHub.Service.FindPullRequest | src/services/github.ts:229-245 | `findPullRequest` sends one GET of `/pulls?head={org}:{head}&base={base}&state=open`, changes nothing in the repository, and returns the first pull request of the answer, or none on any error |
| GitHub.ExchangeKeepsRefs | src/services/github.ts:97-166 | only moving a branch changes the branches |
| GitHub.ExchangeCreated | src/services/github.ts:108-166 | a creation that succeeded stored its object under the SHA it returned |
| GitHub.MoveBranchOk | src/services/github.ts:171-183 | a successful move needs an existing branch, points it at the commit and changes nothing else |
| GitHub.CommitStepOk | src/services/github.ts:214-217 | after a successful commit step the new commit is stored with the tree and the one parent, and the branch points at it |
| GitHub.TreeStepOk | src/services/github.ts:211-217 | after a successful tree step the tree is stored with its one blob entry |
| GitHub.BlobStepOk | src/services/github.ts:208-217 | after a successful blob step the blob is stored with the content |
| GitHub.CommitSucceeds | src/services/github.ts:188-224 | a successful commit sent exactly the five requests in order, each built from the SHA the previous one returned: the tree is based on the prior tip and holds one blob entry at the path, the commit's only parent is the prior tip, and the branch is force-moved to the commit, which is what was asked for |
| GitHub.StepsFail | src/services/github.ts:204-217 | from any stage a failure stops the flow: at most the remaining requests were sent, and unless the last of them was the branches are as they were |
| GitHub.CommitFails | src/services/github.ts:188-224 | a failed commit sent only a prefix of the five requests, and unless the fifth was sent no branch moved |
| GitHub.MoveUnreadable | src/services/github.ts:79-83 | an unreadable answer to moving an existing branch fails the step although the branch has moved |
| GitHub.UnreadableMove | src/services/github.ts:171-217 | from any stage, when every request is sent and the answer to the last fails validation, the flow fails although the branch has moved |
| GitHub.MovedButFailed | src/services/github.ts:79-83 | when the branch is moved but the answer fails validation, `commitChanges` reports an error and the branch points at the commit the last request named |
| GitHub.FindPullRequestSpec | src/services/github.ts:233-244 | the first matching open pull request when GitHub answers, and none when it rejects the request or its answer fails validation |
| GitHub.MatchingFirst | src/services/github.ts:240 | some pull request matches iff the answer has one, and the first one answered is the first that matches |
| PrForm.WithField | src/components/PullRequestForm.tsx:50 | the field named gets the value and every other field keeps its own |
| PrForm.WithFieldLaws | src/components/PullRequestForm.tsx:50 | setting a field to what it holds changes nothing, and setting it twice keeps the second value |
| PrForm.ValidateBranchSpec | src/components/PullRequestForm.tsx:78-93 | `validateBranch` finds no error iff the branch is named, is not the base, and is new when creating a branch and listed otherwise; a blank name gives "Branch name is required" before any other rule, the base in either mode gives "Update branch cannot be the same as base branch", a listed new branch gives "Branch already exists", and an unlisted existing one gives "Selected branch does not exist" |
| PrForm.ValidateBranch | src/components/PullRequestForm.tsx:78-93 | `validateBranch`'s message for the branch field, or none; `ValidateBranchSpec` states when each message is given |
| PrForm.StoredBranchOrEmpty | src/components/PullRequestForm.tsx:30 | the initial branch is the one saved with the last commit, or "" |
| PrForm.PullRequestForm.constructor | src/components/PullRequestForm.tsx:28-47 | empty title and description, the saved branch, base "main", no errors, and new-branch mode exactly when no branch was saved |
| PrForm.PullRequestForm.HandleChange | src/components/PullRequestForm.tsx:49-58 | one field set, that field's error cleared and every other error kept |
| PrForm.PullRequestForm.ToggleBranchCreation | src/components/PullRequestForm.tsx:60-76 | the mode flips and the branch error is cleared; leaving new-branch mode selects the first listed branch, or "" when none is listed |
| PrForm.PullRequestForm.CollectErrors | src/components/PullRequestForm.tsx:98-107 | the validation block yields the errors of a submit |
| PrForm.PullRequestForm.HandleSubmit | src/components/PullRequestForm.tsx:95-119 | with any error the errors are shown and nothing is submitted, otherwise `onSubmit` receives the form and the errors are left as they were |
| PrForm.SubmitErrors | src/components/PullRequestForm.tsx:99-107 | a blank title, description or base each gets its own message, and the branch gets `validateBranch`'s message exactly when it has one; every message is non-empty |
| PrForm.SubmitErrorsEmpty | src/components/PullRequestForm.tsx:109-115 | the form is submitted iff a submit finds no error |
| PrForm.LeavingNewBranchModePicksListed | src/components/PullRequestForm.tsx:70-74 | the branch picked on leaving new-branch mode is listed, so it is accepted unless it is blank or the base |
| CommitForm.CreatePrUrl | src/components/PullRequest/PullRequestForm.tsx:148-150 | the open pull request's page when one is known, otherwise a URL starting with `https://github.com/{organization}/{repository}/compare/` |
| CommitForm.CompareUrlSuffix | src/components/PullRequest/PullRequestForm.tsx:150 | the compare URL ends with `...{updateBranch}?expand=1` |
| CommitForm.Recorded | src/components/PullRequest/PullRequestForm.tsx:74-83 | a pull request found is recorded with its number, title and page under the update branch, and nothing found clears the record |
| CommitForm.PullRequestForm.constructor | src/components/PullRequest/PullRequestForm.tsx:35-48 | empty message, the saved branch or "", the saved base or "main", no errors, no success dialog, no known pull request |
| CommitForm.PullRequestForm.ValidateForm | src/components/PullRequest/PullRequestForm.tsx:123-138 | the form is valid iff it has a message, a branch and a branch that is not the base, iff no error is recorded; the branch error is "Branch cannot be same as base branch" when it equals the base (overriding "Branch is required") and the message error "Commit message is required" |
| CommitForm.FormValid | src/components/PullRequest/PullRequestForm.tsx:123-138 | the condition `validateForm` checks: a message, a branch, and a branch other than the base; `PullRequestForm.ValidateForm` proves it holds iff no error is recorded |
| CommitForm.FormErrors | src/components/PullRequest/PullRequestForm.tsx:123-138 | the messages `validateForm` sets: "Commit message is required" iff the message is blank, "Branch cannot be same as base branch" when the branch equals the base and otherwise "Branch is required" iff it is blank, nothing for the base; empty iff the form is valid |
| CommitForm.PullRequestForm.HandleBranchChange | src/components/PullRequest/PullRequestForm.tsx:140-146 | the chosen branch is set and every error cleared |
| CommitForm.PullRequestForm.CheckExistingPr | src/components/PullRequest/PullRequestForm.tsx:64-92 | nothing is asked while either branch is ""; otherwise one pull-request lookup is sent, the repository is unchanged, the answer (or its absence) replaces the recorded pull request, and checking ends |
| CommitForm.PullRequestForm.HandleCommit | src/components/PullRequest/PullRequestForm.tsx:94-121 | the errors shown afterwards are those `validateForm` records (`FormErrors`), none exactly when the form is valid; an invalid form sends nothing; a valid one commits the content to the update branch as the commit flow says |
| CommitForm.PullRequestForm.Commit | src/components/PullRequest/PullRequestForm.tsx:98-120 | the commit flow is run with the content, the update branch and the message at "variables.json"; only success saves the branches, shows the dialog and notifies success, and a failure notifies its message as an error; loading ends in both cases |
| CommitForm.PullRequestForm.Report | src/components/PullRequest/PullRequestForm.tsx:106-117 | success saves the branches, notifies "Successfully committed changes!" and shows the dialog; a failure notifies its message as an error and changes nothing else |

## Left out

- String order: `localeCompare` is taken as code-point order, the same as `<` on strings. Locale collation is not modelled.
- Sorting: `Array.prototype.sort` on a mutable array is modelled as a stable insertion sort on values. The in-place order of swaps is not modelled.
- JSON parsing: `JSON.parse` is abstracted. A document arrives as an `Option` of a parsed value, and `None` stands for a parse error.
- Numbers: JSON numbers and Figma's numeric values are integers. Floating point is not modelled.
- `JSON.stringify` comparison: deep structural equality of values stands in for comparing the two `JSON.stringify` outputs. Member order counts in both.
- NestedGroups: the group trie is a value, rebuilt on each insertion. The sharing of `Map` objects between the two trees in the source is not modelled.
- NestedGroups: the walk with a `current` pointer is modelled as recursion on the path.
- DesignTokens.RgbaToHex: the channels arrive already scaled to bytes. `Math.round` of a float times 255 is not modelled.
- DesignTokens: a token path that runs through a primitive value would throw a `TypeError` in the source. The model returns that as an error result.
- Object keys: the model enumerates every member in insertion order. JavaScript lists integer-like keys such as "0" or "12" first, and treats `__proto__` specially. Neither is modelled.
- Display: saved group states are taken to be booleans. Other JSON values read from storage are not modelled.
- Logging: `console.log` and `console.error` calls are left out. They have no effect on results.
- GitHub: the HTTP wire format, headers and zod schemas are not modelled. Whether a response passes its schema is decided by the fault oracle.
- GitHub: the error texts GitHub itself would send are placeholders chosen by the fault oracle.
- GitHub: object SHAs come from a given hash function. Git's object format is not modelled.
- PluginStore: `figma.clientStorage` is not modelled. A load takes the stored value as a parameter, and a save returns the written value with a flag saying whether the write succeeded.
- PrForm.PullRequestForm.HandleSubmit: `onSubmit` is modelled as recording the submitted form. A failing `onSubmit` promise is not modelled.
- PrForm: the branch list from the `useGitHubBranches` hook is a parameter of each operation that reads it. The hook's I/O is not modelled.
- CommitForm: React effects and asynchronous state updates are not modelled. `CheckExistingPr` is a method the caller invokes after a branch change.
- CommitForm: `notify` is modelled as appending a (message, is-error) pair to a list.
- CommitForm.PullRequestForm.Commit: `updateCommitData` is modelled as setting the `saved` field. A failing save, which would notify an error, is not modelled.
- CommitForm: every error caught is taken to be an `Error`, so its message is the one notified.
- Util.LowerCase: lower-cases the ASCII letters only. Figma's variable type names are ASCII, so Unicode case mapping is not modelled.
- DesignTokens.RawValue: a colour arrives as its own constructor. A `Plain` object that happens to have an `r` member is not converted to hex when the type is COLOR, while the source converts any object with `r`.
- DesignTokens.SetAtPath: an array met on the path gives a `TypeError` result. JavaScript would set a property on the array and go on.
- DesignTokens.Leaf: a `$value` that is left out is absent. In the source the member exists holding `undefined`, so it keeps its key position (it is then dropped when the object is serialised).

## Findings

| source | as written | input that shows it | evidently intended | confidence | as-written member | corrected member |
|---|---|---|---|---|---|---|
| src/utils/base64.ts:8-22 | the character code is shifted and looked up without a check that it is below 256, and the looked-up values are added with `+` | `String.fromCharCode(256)` encodes to "=A==", `String.fromCharCode(1000)` to "undefinedA==", and `String.fromCharCode(1040, 1040)` to "NaNA=" | the base64 encoding of bytes in section 4 of RFC 4648, decodable back to the input | not executed | Base64.CodeUnit256, Base64.CodeUnit1000, Base64.CodeUnitPairNaN | Base64.DecodeEncode |
| src/utils/groupUtils.ts:18 | a group's path is restarted from the segment when the path so far is the empty string | "/a/b" gives the group at ["", "a"] the path "a", and looking "a" up from the top finds nothing | the path is the segments joined by "/", here "/a", and leads back to the group | not executed | NestedGroups.LeadingSlashAsWritten | NestedGroups.LeadingSlashCorrected, TableView.FindCorrectedGroup |
| src/components/ViewLocalChanges.tsx:105 | `opacity \|\| 1` replaces an opacity of 0 by 1 | a solid black paint with opacity 0 is exported with `$value` "#000000" | only a missing opacity defaults to 1, so the token is "#00000000" | not executed | DesignTokens.TransparentPaintAsWritten | DesignTokens.TransparentPaintCorrected |
| src/components/ViewLocalChanges.tsx:150 | `effect.color.a \|\| 1` replaces an alpha of 0 by 1 | a shadow coloured black with alpha 0 is exported with `color` "#000000" | only a missing alpha defaults to 1, so the colour is "#00000000" | not executed | DesignTokens.TransparentShadowAsWritten | DesignTokens.TransparentShadowCorrected |
