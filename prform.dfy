/** The pull-request form (src/components/PullRequestForm.tsx): its fields,
    the per-field errors, the new-branch/existing-branch switch, branch
    validation and the submit-time checks. The branch list comes from a
    hook that loads it; each operation that reads it takes the list it
    currently holds. */
module PrForm {
  import opened Util

  datatype Field = Title | BranchName | Description | BaseBranch

  datatype FormData = FormData(title: string, branch: string, description: string, baseBranch: string)

  function FieldValue(d: FormData, f: Field): string
  {
    match f
    case Title => d.title
    case BranchName => d.branch
    case Description => d.description
    case BaseBranch => d.baseBranch
  }

  /** `{ ...prev, [field]: value }`. */
  function WithField(d: FormData, f: Field, value: string): (r: FormData)
    ensures FieldValue(r, f) == value
    ensures forall g :: g != f ==> FieldValue(r, g) == FieldValue(d, g)
  {
    match f
    case Title => d.(title := value)
    case BranchName => d.(branch := value)
    case Description => d.(description := value)
    case BaseBranch => d.(baseBranch := value)
  }

  /** Setting a field to what it holds changes nothing, and setting it twice
      keeps the second value. */
  lemma WithFieldLaws(d: FormData, f: Field, a: string, b: string)
    ensures WithField(d, f, FieldValue(d, f)) == d
    ensures WithField(WithField(d, f, a), f, b) == WithField(d, f, b)
  {
  }

  const RequiredBranch := "Branch name is required"
  const SameAsBase := "Update branch cannot be the same as base branch"
  const AlreadyExists := "Branch already exists"
  const NotListed := "Selected branch does not exist"

  /** `validateBranch`: the first rule that fails gives the message. */
  function ValidateBranch(creatingNewBranch: bool, branches: seq<string>, branch: string, baseBranch: string): Option<string>
  {
    if IsBlank(branch) then Some(RequiredBranch)
    else if creatingNewBranch then
      if branch == baseBranch then Some(SameAsBase)
      else if branch in branches then Some(AlreadyExists)
      else None
    else
      if branch == baseBranch then Some(SameAsBase)
      else if branch !in branches then Some(NotListed)
      else None
  }

  /** The branch a pull request may be opened from: named, not the base, a
      new name when creating a branch and a listed one otherwise. */
  predicate BranchAcceptable(creatingNewBranch: bool, branches: seq<string>, branch: string, baseBranch: string)
  {
    !IsBlank(branch) && branch != baseBranch && (branch in branches <==> !creatingNewBranch)
  }

  /** No message exactly when the branch is acceptable; otherwise the message
      names the first rule it breaks, a blank name before all others and the
      same-as-base rule in both modes. */
  lemma ValidateBranchSpec(creatingNewBranch: bool, branches: seq<string>, branch: string, baseBranch: string)
    ensures var e := ValidateBranch(creatingNewBranch, branches, branch, baseBranch);
            && (e.None? <==> BranchAcceptable(creatingNewBranch, branches, branch, baseBranch))
            && (IsBlank(branch) ==> e == Some(RequiredBranch))
            && (!IsBlank(branch) && branch == baseBranch ==> e == Some(SameAsBase))
            && (!IsBlank(branch) && branch != baseBranch && creatingNewBranch && branch in branches ==> e == Some(AlreadyExists))
            && (!IsBlank(branch) && branch != baseBranch && !creatingNewBranch && branch !in branches ==> e == Some(NotListed))
  {
  }

  /** Every message the form stores is non-empty, so `if (errors[field])`
      is the same as the field having an error. */
  predicate MessagesPresent(errors: map<Field, string>)
  {
    forall f :: f in errors ==> errors[f] != ""
  }

  /** Initially the branch is the stored one, the base is `main`, and a new
      branch is being created exactly when none was stored. */
  function StoredBranchOrEmpty(stored: Option<string>): (branch: string)
    ensures branch == (if stored.Some? then stored.value else "")
  {
    if stored.Some? && stored.value != "" then stored.value else ""
  }

  class PullRequestForm {
    var formData: FormData
    var creatingNewBranch: bool
    var errors: map<Field, string>
    /** What `onSubmit` was last called with. */
    var submitted: Option<FormData>

    ghost predicate Valid()
      reads this
    {
      MessagesPresent(errors)
    }

    /** The initial state, given the branch saved with the last commit. */
    constructor(storedBranch: Option<string>)
      ensures formData == FormData("", StoredBranchOrEmpty(storedBranch), "", "main")
      ensures creatingNewBranch <==> StoredBranchOrEmpty(storedBranch) == ""
      ensures errors == map[] && submitted == None
      ensures Valid()
    {
      formData := FormData("", StoredBranchOrEmpty(storedBranch), "", "main");
      creatingNewBranch := !(storedBranch.Some? && storedBranch.value != "");
      errors := map[];
      submitted := None;
    }

    /** `handleChange`: sets one field and clears that field's error only. */
    method HandleChange(field: Field, value: string)
      requires Valid()
      modifies this
      ensures Valid()
      ensures formData == WithField(old(formData), field, value)
      ensures errors == old(errors) - {field}
      ensures creatingNewBranch == old(creatingNewBranch) && submitted == old(submitted)
    {
      formData := WithField(formData, field, value);
      if field in errors && errors[field] != "" {
        errors := errors - {field};
      }
    }

    /** `toggleBranchCreation`: flips the mode and clears the branch error;
        leaving new-branch mode selects the first listed branch, or none. */
    method ToggleBranchCreation(branches: seq<string>)
      requires Valid()
      modifies this
      ensures Valid()
      ensures creatingNewBranch == !old(creatingNewBranch)
      ensures errors == old(errors) - {BranchName}
      ensures formData == if old(creatingNewBranch)
                          then old(formData).(branch := if |branches| >= 1 then branches[0] else "")
                          else old(formData)
      ensures submitted == old(submitted)
    {
      var wasCreating := creatingNewBranch;
      creatingNewBranch := !wasCreating;
      errors := errors - {BranchName};
      if wasCreating {
        formData := formData.(branch := if |branches| >= 1 && branches[0] != "" then branches[0] else "");
      }
    }

    /** The validation block of `handleSubmit`, one rule after another. */
    method CollectErrors(branches: seq<string>) returns (newErrors: map<Field, string>)
      ensures newErrors == SubmitErrors(formData, creatingNewBranch, branches)
    {
      ghost var d := formData;
      newErrors := map[];
      if IsBlank(formData.title) {
        newErrors := newErrors[Title := "Title is required"];
      }
      assert newErrors == AddIf(map[], IsBlank(d.title), Title, "Title is required");
      ghost var e1 := newErrors;
      if IsBlank(formData.description) {
        newErrors := newErrors[Description := "Description is required"];
      }
      assert newErrors == AddIf(e1, IsBlank(d.description), Description, "Description is required");
      ghost var e2 := newErrors;
      if IsBlank(formData.baseBranch) {
        newErrors := newErrors[BaseBranch := "Base branch is required"];
      }
      assert newErrors == AddIf(e2, IsBlank(d.baseBranch), BaseBranch, "Base branch is required");
      ghost var e3 := newErrors;
      var branchError := ValidateBranch(creatingNewBranch, branches, formData.branch, formData.baseBranch);
      if branchError.Some? && branchError.value != "" {
        newErrors := newErrors[BranchName := branchError.value];
      }
      assert newErrors == AddIf(e3, branchError.Some?, BranchName, if branchError.Some? then branchError.value else "");
    }

    /** `handleSubmit`: each blank field gets its message and the branch
        gets `validateBranch`'s; with any error the errors are shown and
        nothing is submitted, otherwise `onSubmit` receives the form. */
    method HandleSubmit(branches: seq<string>)
      requires Valid()
      modifies this
      ensures Valid()
      ensures formData == old(formData) && creatingNewBranch == old(creatingNewBranch)
      ensures Submittable(formData, creatingNewBranch, branches) ==> submitted == Some(formData) && errors == old(errors)
      ensures !Submittable(formData, creatingNewBranch, branches) ==>
                submitted == old(submitted) && errors == SubmitErrors(formData, creatingNewBranch, branches)
    {
      var newErrors := CollectErrors(branches);
      SubmitErrorsEmpty(formData, creatingNewBranch, branches);
      if |newErrors| > 0 {
        errors := newErrors;
        return;
      }
      submitted := Some(formData);
    }
  }

  /** All fields named and the branch accepted. */
  predicate Submittable(d: FormData, creatingNewBranch: bool, branches: seq<string>)
  {
    !IsBlank(d.title) && !IsBlank(d.description) && !IsBlank(d.baseBranch)
    && ValidateBranch(creatingNewBranch, branches, d.branch, d.baseBranch).None?
  }

  /** The errors a submit finds, one per rule that fails. */
  function SubmitErrors(d: FormData, creatingNewBranch: bool, branches: seq<string>): (errors: map<Field, string>)
    ensures MessagesPresent(errors)
    ensures Title in errors <==> IsBlank(d.title)
    ensures Description in errors <==> IsBlank(d.description)
    ensures BaseBranch in errors <==> IsBlank(d.baseBranch)
    ensures BranchName in errors <==> ValidateBranch(creatingNewBranch, branches, d.branch, d.baseBranch).Some?
    ensures Title in errors ==> errors[Title] == "Title is required"
    ensures Description in errors ==> errors[Description] == "Description is required"
    ensures BaseBranch in errors ==> errors[BaseBranch] == "Base branch is required"
    ensures BranchName in errors ==> Some(errors[BranchName]) == ValidateBranch(creatingNewBranch, branches, d.branch, d.baseBranch)
  {
    var e1 := AddIf(map[], IsBlank(d.title), Title, "Title is required");
    var e2 := AddIf(e1, IsBlank(d.description), Description, "Description is required");
    var e3 := AddIf(e2, IsBlank(d.baseBranch), BaseBranch, "Base branch is required");
    var b := ValidateBranch(creatingNewBranch, branches, d.branch, d.baseBranch);
    AddIf(e3, b.Some?, BranchName, if b.Some? then b.value else "")
  }

  /** `if (cond) newErrors[field] = message`. */
  function AddIf(errors: map<Field, string>, cond: bool, field: Field, message: string): map<Field, string>
  {
    if cond then errors[field := message] else errors
  }

  /** The form is submitted exactly when a submit finds no error. */
  lemma SubmitErrorsEmpty(d: FormData, creatingNewBranch: bool, branches: seq<string>)
    ensures |SubmitErrors(d, creatingNewBranch, branches)| == 0 <==> Submittable(d, creatingNewBranch, branches)
  {
    var e := SubmitErrors(d, creatingNewBranch, branches);
    if !Submittable(d, creatingNewBranch, branches) {
      var f :| f in e;
      assert e != map[];
    }
  }

  /** After leaving new-branch mode with a non-empty branch list, the branch
      selected is a listed one, so only the blank and same-as-base rules can
      still reject it. */
  lemma LeavingNewBranchModePicksListed(branches: seq<string>, baseBranch: string)
    requires |branches| >= 1
    ensures ValidateBranch(false, branches, branches[0], baseBranch) != Some(NotListed)
    ensures !IsBlank(branches[0]) && branches[0] != baseBranch ==> ValidateBranch(false, branches, branches[0], baseBranch).None?
  {
  }
}
