/** The commit form (src/components/PullRequest/PullRequestForm.tsx): the
    commit message and the update and base branches, validation, the link
    to the pull request, the lookup of an open pull request when the
    branches change, and the commit itself through the GitHub client.
    `notify` is a list of the messages shown; saving the commit data is a
    field holding what was last saved. */
module CommitForm {
  import opened Util
  import GitHub

  datatype Field = CommitMessage | UpdateBranch | BaseBranch

  datatype FormData = FormData(commitMessage: string, updateBranch: string, baseBranch: string)

  datatype ExistingPr = ExistingPr(number: int, title: string, htmlUrl: string, head: string)

  /** `settings.commitData`: both members optional. */
  datatype CommitData = CommitData(branch: Option<string>, baseBranch: Option<string>)

  datatype Settings = Settings(token: string, organization: string, repository: string, commitData: Option<CommitData>)

  /** `a || b` on optional strings: `b` when `a` is missing or "". */
  function OrElse(a: Option<string>, b: string): (r: string)
    ensures r == if a.Some? && a.value != "" then a.value else b
  {
    if a.Some? && a.value != "" then a.value else b
  }

  function StoredBranch(s: Settings): Option<string>
  {
    if s.commitData.Some? then s.commitData.value.branch else None
  }

  function StoredBase(s: Settings): Option<string>
  {
    if s.commitData.Some? then s.commitData.value.baseBranch else None
  }

  const RequiredMessage := "Commit message is required"
  const RequiredBranch := "Branch is required"
  const SameAsBase := "Branch cannot be same as base branch"

  /** The form may be committed: a message, an update branch, and an update
      branch that is not the base. The required checks trim; the
      same-as-base check compares exactly. */
  predicate FormValid(d: FormData)
  {
    !IsBlank(d.commitMessage) && !IsBlank(d.updateBranch) && d.updateBranch != d.baseBranch
  }

  /** The messages `validateForm` records: one per failing rule, the
      same-as-base message replacing the required-branch one. */
  function FormErrors(d: FormData): (e: map<Field, string>)
    ensures FormValid(d) <==> e == map[]
    ensures CommitMessage in e <==> IsBlank(d.commitMessage)
    ensures CommitMessage in e ==> e[CommitMessage] == RequiredMessage
    ensures UpdateBranch in e <==> IsBlank(d.updateBranch) || d.updateBranch == d.baseBranch
    ensures UpdateBranch in e ==> e[UpdateBranch] == if d.updateBranch == d.baseBranch then SameAsBase else RequiredBranch
    ensures BaseBranch !in e
  {
    var message: map<Field, string> := if IsBlank(d.commitMessage) then map[CommitMessage := RequiredMessage] else map[];
    var required := if IsBlank(d.updateBranch) then message[UpdateBranch := RequiredBranch] else message;
    var e := if d.updateBranch == d.baseBranch then required[UpdateBranch := SameAsBase] else required;
    assert !FormValid(d) ==> CommitMessage in e || UpdateBranch in e;
    e
  }

  /** `createPRUrl`: the open pull request's page if there is one, otherwise
      GitHub's compare page from the base to the update branch. */
  function CreatePrUrl(s: Settings, existing: Option<ExistingPr>, d: FormData): (url: string)
    ensures existing.Some? ==> url == existing.value.htmlUrl
    ensures existing.None? ==> StartsWith(url, "https://github.com/" + s.organization + "/" + s.repository + "/compare/")
  {
    var prefix := "https://github.com/" + s.organization + "/" + s.repository + "/compare/";
    if existing.Some? then existing.value.htmlUrl
    else
      var url := prefix + d.baseBranch + "..." + d.updateBranch + "?expand=1";
      assert url[..|prefix|] == prefix;
      url
  }

  /** The compare page ends by naming the update branch and asking GitHub to
      expand the form. */
  lemma CompareUrlSuffix(s: Settings, d: FormData)
    ensures var url := CreatePrUrl(s, None, d);
            var tail := "..." + d.updateBranch + "?expand=1";
            |tail| <= |url| && url[|url| - |tail|..] == tail
  {
    var prefix := "https://github.com/" + s.organization + "/" + s.repository + "/compare/" + d.baseBranch;
    var tail := "..." + d.updateBranch + "?expand=1";
    assert CreatePrUrl(s, None, d) == prefix + tail;
  }

  /** The pull request found for the branches, recorded under the update
      branch the lookup was made for. */
  function Recorded(pr: Option<GitHub.PullRequest>, updateBranch: string): (r: Option<ExistingPr>)
    ensures r.Some? <==> pr.Some?
    ensures r.Some? ==> r.value == ExistingPr(pr.value.number, pr.value.title, pr.value.htmlUrl, updateBranch)
  {
    if pr.Some? then Some(ExistingPr(pr.value.number, pr.value.title, pr.value.htmlUrl, updateBranch)) else None
  }

  /** The client the form builds from its settings. */
  function ConfigOf(s: Settings): GitHub.Config
  {
    GitHub.Config(s.token, s.organization, s.repository)
  }

  class PullRequestForm {
    const settings: Settings
    var formData: FormData
    var errors: map<Field, string>
    var loading: bool
    var showSuccessDialog: bool
    var existingPr: Option<ExistingPr>
    var checkingPr: bool
    /** The commit data last saved to the settings. */
    var saved: Option<(string, string)>
    /** The `notify` messages, each with whether it is an error. */
    var notices: seq<(string, bool)>

    /** The initial state: the stored branches, `main` as the default base. */
    constructor(settings: Settings, initialLoading: bool)
      ensures this.settings == settings
      ensures formData == FormData("", OrElse(StoredBranch(settings), ""), OrElse(StoredBase(settings), "main"))
      ensures errors == map[] && loading == initialLoading && !showSuccessDialog
      ensures existingPr == None && !checkingPr && saved == None && notices == []
    {
      this.settings := settings;
      formData := FormData("", OrElse(StoredBranch(settings), ""), OrElse(StoredBase(settings), "main"));
      errors := map[];
      loading := initialLoading;
      showSuccessDialog := false;
      existingPr := None;
      checkingPr := false;
      saved := None;
      notices := [];
    }

    /** `validateForm`: the message rule, then the required-branch rule,
        then the same-as-base rule, which overrides the one before it. */
    method ValidateForm() returns (valid: bool)
      modifies this
      ensures valid <==> FormValid(formData)
      ensures valid <==> errors == map[]
      ensures errors == FormErrors(formData)
      ensures CommitMessage in errors <==> IsBlank(formData.commitMessage)
      ensures CommitMessage in errors ==> errors[CommitMessage] == RequiredMessage
      ensures UpdateBranch in errors <==> IsBlank(formData.updateBranch) || formData.updateBranch == formData.baseBranch
      ensures UpdateBranch in errors ==>
                errors[UpdateBranch] == if formData.updateBranch == formData.baseBranch then SameAsBase else RequiredBranch
      ensures BaseBranch !in errors
      ensures formData == old(formData) && existingPr == old(existingPr)
      ensures saved == old(saved) && notices == old(notices) && loading == old(loading)
      ensures showSuccessDialog == old(showSuccessDialog) && checkingPr == old(checkingPr)
    {
      var newErrors: map<Field, string> := map[];
      if IsBlank(formData.commitMessage) {
        newErrors := newErrors[CommitMessage := RequiredMessage];
      }
      if IsBlank(formData.updateBranch) {
        newErrors := newErrors[UpdateBranch := RequiredBranch];
      }
      if formData.updateBranch == formData.baseBranch {
        newErrors := newErrors[UpdateBranch := SameAsBase];
      }
      errors := newErrors;
      valid := |newErrors| == 0;
      if !valid {
        assert exists f :: f in newErrors;
      }
    }

    /** `handleBranchChange`: sets the chosen branch and clears every error. */
    method HandleBranchChange(base: bool, value: string)
      modifies this
      ensures formData == if base then old(formData).(baseBranch := value) else old(formData).(updateBranch := value)
      ensures errors == map[]
      ensures existingPr == old(existingPr) && saved == old(saved) && notices == old(notices)
      ensures loading == old(loading) && showSuccessDialog == old(showSuccessDialog) && checkingPr == old(checkingPr)
    {
      if base {
        formData := formData.(baseBranch := value);
      } else {
        formData := formData.(updateBranch := value);
      }
      errors := map[];
    }

    /** `checkExistingPR`: nothing happens while either branch is empty;
        otherwise GitHub is asked for an open pull request between them and
        the answer, or its absence, replaces the one recorded. */
    method CheckExistingPr(remote: GitHub.Remote)
      modifies this, remote
      ensures var d := formData;
              if d.updateBranch == "" || d.baseBranch == "" then
                existingPr == old(existingPr) && checkingPr == old(checkingPr)
                && remote.log == old(remote.log) && remote.Current() == old(remote.Current())
              else
                var req := GitHub.PullsRequest(ConfigOf(settings), d.updateBranch, d.baseBranch);
                remote.log == old(remote.log) + [req]
                && remote.Current() == old(remote.Current())
                && existingPr == Recorded(GitHub.FirstPull(GitHub.Interpret(GitHub.Handle(remote.env, old(remote.Current()), req.action).0)), d.updateBranch)
                && !checkingPr
      ensures formData == old(formData) && errors == old(errors) && saved == old(saved) && notices == old(notices)
      ensures loading == old(loading) && showSuccessDialog == old(showSuccessDialog)
    {
      if formData.updateBranch == "" || formData.baseBranch == "" {
        return;
      }
      checkingPr := true;
      var github := new GitHub.Service(ConfigOf(settings));
      var pr := github.FindPullRequest(remote, formData.updateBranch, formData.baseBranch);
      existingPr := Recorded(pr, formData.updateBranch);
      checkingPr := false;
    }

    /** `handleCommit`: an invalid form sends nothing; otherwise the content
        is committed, as `Commit` describes. */
    method HandleCommit(remote: GitHub.Remote, content: string)
      modifies this, remote
      ensures !FormValid(formData) ==>
                remote.log == old(remote.log) && remote.Current() == old(remote.Current())
                && saved == old(saved) && notices == old(notices) && loading == old(loading)
                && showSuccessDialog == old(showSuccessDialog)
      ensures FormValid(formData) ==> Committed(old(remote.log), old(remote.Current()), remote, content, old(saved), old(notices), old(showSuccessDialog))
      ensures errors == FormErrors(formData)
      ensures FormValid(formData) <==> errors == map[]
      ensures formData == old(formData) && existingPr == old(existingPr) && checkingPr == old(checkingPr)
    {
      var valid := ValidateForm();
      if !valid {
        return;
      }
      Commit(remote, content);
    }

    /** The state after committing the content to the update branch from a
        repository that held `store` and had received `log`: only a
        successful commit saves the branches, shows the success dialog and
        notifies success; a failure notifies its message as an error. */
    ghost predicate Committed(log: seq<GitHub.Request>, store: GitHub.Store, remote: GitHub.Remote, content: string,
                              saved0: Option<(string, string)>, notices0: seq<(string, bool)>, dialog0: bool)
      reads this, remote
    {
      var d := formData;
      var run := GitHub.CommitFlow(ConfigOf(settings), remote.env, store, d.updateBranch, d.commitMessage, content, "variables.json");
      remote.Current() == run.store && remote.log == log + run.sent && !loading
      && (run.result.Ok? ==>
            saved == Some((d.updateBranch, d.baseBranch)) && showSuccessDialog
            && notices == notices0 + [("Successfully committed changes!", false)])
      && (run.result.Err? ==>
            saved == saved0 && showSuccessDialog == dialog0 && notices == notices0 + [(run.result.msg, true)])
    }

    /** The `try` block of `handleCommit`. */
    method Commit(remote: GitHub.Remote, content: string)
      modifies this, remote
      ensures Committed(old(remote.log), old(remote.Current()), remote, content, old(saved), old(notices), old(showSuccessDialog))
      ensures formData == old(formData) && existingPr == old(existingPr) && checkingPr == old(checkingPr)
      ensures errors == old(errors)
    {
      loading := true;
      var github := new GitHub.Service(ConfigOf(settings));
      var r := github.CommitChanges(remote, formData.updateBranch, formData.commitMessage, content, None);
      Report(r);
      loading := false;
    }

    /** What follows the commit: on success the branches are saved, success
        is notified and the dialog shown; on failure the error's message is
        notified as an error. */
    method Report(r: Result<string>)
      modifies this
      ensures r.Ok? ==> saved == Some((formData.updateBranch, formData.baseBranch)) && showSuccessDialog
                        && notices == old(notices) + [("Successfully committed changes!", false)]
      ensures r.Err? ==> saved == old(saved) && showSuccessDialog == old(showSuccessDialog)
                         && notices == old(notices) + [(r.msg, true)]
      ensures formData == old(formData) && existingPr == old(existingPr) && checkingPr == old(checkingPr)
      ensures errors == old(errors) && loading == old(loading)
    {
      if r.Ok? {
        saved := Some((formData.updateBranch, formData.baseBranch));
        notices := notices + [("Successfully committed changes!", false)];
        showSuccessDialog := true;
      } else {
        notices := notices + [(r.msg, true)];
      }
    }
  }
}
