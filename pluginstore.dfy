/** Settings persistence (src/PluginStore.ts): merging stored settings and
    partial updates over the defaults. A current commit-data field is kept
    only when it is a non-empty string (JavaScript truthiness); an update
    field is applied whenever it is present, even when it is "". The plugin's
    client storage is a value passed in: nothing stored, a stored object, or
    a read that fails. */
module PluginStore {
  import opened Util

  /** The commit data `updateCommitData` builds. */
  datatype CommitData = CommitData(branch: string, message: string, filename: string, content: string)

  /** `Partial<CommitData>`: each field present or `undefined`. The type also
      carries `baseBranch`, which the merge never copies. */
  datatype PartialCommitData = PartialCommitData(
    branch: Option<string>, baseBranch: Option<string>, message: Option<string>,
    filename: Option<string>, content: Option<string>)

  /** `StoredSettings`; `prLabel` is the source's `label` field (a Dafny keyword). */
  datatype Settings = Settings(
    token: string, organization: string, repository: string, prLabel: string, commitData: CommitData)

  datatype PartialSettings = PartialSettings(
    token: Option<string>, organization: Option<string>, repository: Option<string>,
    prLabel: Option<string>, commitData: Option<PartialCommitData>)

  const DefaultCommitData := CommitData("", "", "test.md", "")

  const DefaultSettings := Settings("", "gearsandcode", "docs", "figma-plugin", DefaultCommitData)

  /** The four fields the merge handles. */
  datatype Field = Branch | Message | Filename | Content

  function Of(c: CommitData, f: Field): string
  {
    match f
    case Branch => c.branch
    case Message => c.message
    case Filename => c.filename
    case Content => c.content
  }

  function OfPartial(p: PartialCommitData, f: Field): Option<string>
  {
    match f
    case Branch => p.branch
    case Message => p.message
    case Filename => p.filename
    case Content => p.content
  }

  /** A field of an optional partial record: absent when the record is. */
  function FieldOf(p: Option<PartialCommitData>, f: Field): Option<string>
  {
    if p.Some? then OfPartial(p.value, f) else None
  }

  predicate Truthy(v: Option<string>)
  {
    v.Some? && v.value != ""
  }

  /** A complete record seen as a partial one (every field present). */
  function AsPartial(c: CommitData): (p: PartialCommitData)
    ensures forall f :: OfPartial(p, f) == Some(Of(c, f))
  {
    PartialCommitData(Some(c.branch), None, Some(c.message), Some(c.filename), Some(c.content))
  }

  /** The precedence rule for one field: a defined update wins (even ""),
      else a truthy current value, else the default. */
  function Merge(current: Option<string>, update: Option<string>, default: string): (r: string)
    ensures update.Some? ==> r == update.value
    ensures update.None? && Truthy(current) ==> r == current.value
    ensures update.None? && !Truthy(current) ==> r == default
  {
    var base := if Truthy(current) then current.value else default;
    if update.Some? then update.value else base
  }

  /** `updateCommitData`: start from the defaults, copy the truthy current
      fields, then every defined update field. */
  function UpdateCommitData(current: Option<PartialCommitData>, updates: Option<PartialCommitData>): (r: CommitData)
    ensures forall f :: Of(r, f) == Merge(FieldOf(current, f), FieldOf(updates, f), Of(DefaultCommitData, f))
  {
    var d := DefaultCommitData;
    CommitData(
      Merge(FieldOf(current, Branch), FieldOf(updates, Branch), d.branch),
      Merge(FieldOf(current, Message), FieldOf(updates, Message), d.message),
      Merge(FieldOf(current, Filename), FieldOf(updates, Filename), d.filename),
      Merge(FieldOf(current, Content), FieldOf(updates, Content), d.content))
  }

  /** A defined update field overrides; otherwise the current value stays. */
  function Override(u: Option<string>, current: string): string
  {
    if u.Some? then u.value else current
  }

  /** `updateSettings`: the four scalar fields from the updates when defined,
      otherwise from current; the commit data always rebuilt by `updateCommitData`. */
  function UpdateSettings(current: Settings, updates: PartialSettings): (r: Settings)
    ensures r.token == (if updates.token.Some? then updates.token.value else current.token)
    ensures r.organization == (if updates.organization.Some? then updates.organization.value else current.organization)
    ensures r.repository == (if updates.repository.Some? then updates.repository.value else current.repository)
    ensures r.prLabel == (if updates.prLabel.Some? then updates.prLabel.value else current.prLabel)
    ensures r.commitData == UpdateCommitData(Some(AsPartial(current.commitData)), updates.commitData)
  {
    Settings(
      Override(updates.token, current.token),
      Override(updates.organization, current.organization),
      Override(updates.repository, current.repository),
      Override(updates.prLabel, current.prLabel),
      UpdateCommitData(Some(AsPartial(current.commitData)), updates.commitData))
  }

  /** With nothing current and nothing to apply, the result is the default commit data. */
  lemma CommitDataDefaults()
    ensures UpdateCommitData(None, None) == CommitData("", "", "test.md", "")
  {
  }

  /** Only the four fields are merged: `baseBranch` never influences the result. */
  lemma BaseBranchIgnored(current: Option<PartialCommitData>, u: PartialCommitData, b: Option<string>)
    ensures UpdateCommitData(current, Some(u)) == UpdateCommitData(current, Some(u.(baseBranch := b)))
  {
  }

  lemma CommitDataExt(a: CommitData, b: CommitData)
    requires forall f :: Of(a, f) == Of(b, f)
    ensures a == b
  {
    assert Of(a, Branch) == Of(b, Branch) && Of(a, Message) == Of(b, Message);
    assert Of(a, Filename) == Of(b, Filename) && Of(a, Content) == Of(b, Content);
  }

  /** Merging the same updates into a merge result changes nothing. */
  lemma UpdateCommitDataIdempotent(current: Option<PartialCommitData>, updates: Option<PartialCommitData>)
    ensures var once := UpdateCommitData(current, updates);
            UpdateCommitData(Some(AsPartial(once)), updates) == once
  {
    var once := UpdateCommitData(current, updates);
    var twice := UpdateCommitData(Some(AsPartial(once)), updates);
    forall f ensures Of(twice, f) == Of(once, f) {
      if FieldOf(updates, f).None? && !Truthy(FieldOf(current, f)) {
        assert Of(once, f) == Of(DefaultCommitData, f);
      }
    }
    CommitDataExt(twice, once);
  }

  /** Applying the same updates twice gives the same settings as applying them once. */
  lemma UpdateSettingsIdempotent(current: Settings, updates: PartialSettings)
    ensures UpdateSettings(UpdateSettings(current, updates), updates) == UpdateSettings(current, updates)
  {
    UpdateCommitDataIdempotent(Some(AsPartial(current.commitData)), updates.commitData);
  }

  /** A complete record as a partial settings update (every field present). */
  function ToStored(s: Settings): (p: PartialSettings)
    ensures p.token == Some(s.token) && p.commitData == Some(AsPartial(s.commitData))
  {
    PartialSettings(Some(s.token), Some(s.organization), Some(s.repository), Some(s.prLabel), Some(AsPartial(s.commitData)))
  }

  /** Merging a complete record over any settings gives that record. */
  lemma UpdateWithComplete(current: Settings, s: Settings)
    ensures UpdateSettings(current, ToStored(s)) == s
  {
    var c := UpdateSettings(current, ToStored(s)).commitData;
    forall f ensures Of(c, f) == Of(s.commitData, f) {
      assert FieldOf(Some(AsPartial(s.commitData)), f) == Some(Of(s.commitData, f));
    }
    CommitDataExt(c, s.commitData);
  }

  /** What `figma.clientStorage.getAsync("github-settings")` produced. */
  datatype Stored = Nothing | Value(settings: PartialSettings) | ReadError

  /** `loadSettings`: the defaults when nothing is stored or the read fails,
      otherwise the stored value merged over the defaults. */
  function LoadSettings(st: Stored): (r: Settings)
    ensures st.Value? ==> r == UpdateSettings(DefaultSettings, st.settings)
    ensures !st.Value? ==> r == DefaultSettings
  {
    match st
    case Nothing => DefaultSettings
    case ReadError => DefaultSettings
    case Value(p) => UpdateSettings(DefaultSettings, p)
  }

  /** `saveSettings`: load, merge the given fields, write the whole record.
      A failed write is rethrown; the stored value is then unchanged. */
  function SaveSettings(st: Stored, settings: PartialSettings, writeSucceeds: bool): (r: (Result<Settings>, Stored))
    ensures writeSucceeds ==> r.0 == Ok(UpdateSettings(LoadSettings(st), settings)) && r.1 == Value(ToStored(r.0.value))
    ensures !writeSucceeds ==> r.0.Err? && r.1 == st
  {
    var merged := UpdateSettings(LoadSettings(st), settings);
    if writeSucceeds then (Ok(merged), Value(ToStored(merged)))
    else (Err("Error in saveSettings"), st)
  }

  /** An empty stored object loads as the defaults. */
  lemma LoadEmptyObject()
    ensures LoadSettings(Value(PartialSettings(None, None, None, None, None))) == DefaultSettings
  {
    var c := LoadSettings(Value(PartialSettings(None, None, None, None, None))).commitData;
    CommitDataExt(c, DefaultCommitData);
  }

  /** After a successful save, loading returns exactly what the save returned. */
  lemma LoadAfterSave(st: Stored, settings: PartialSettings)
    ensures var (r, st') := SaveSettings(st, settings, true);
            r.Ok? && LoadSettings(st') == r.value
  {
    var (r, st') := SaveSettings(st, settings, true);
    UpdateWithComplete(DefaultSettings, r.value);
  }

  /** Saving the same fields twice stores the same settings as saving them once. */
  lemma SaveTwice(st: Stored, settings: PartialSettings)
    ensures var (r1, st1) := SaveSettings(st, settings, true);
            var (r2, st2) := SaveSettings(st1, settings, true);
            r2 == r1 && st2 == st1
  {
    var (r1, st1) := SaveSettings(st, settings, true);
    LoadAfterSave(st, settings);
    UpdateSettingsIdempotent(LoadSettings(st), settings);
  }
}
