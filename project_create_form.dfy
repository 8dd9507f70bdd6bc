/** The state of the project creation dialog: a url and a list of organization
    names, each handler building the next state from the current one. */
module ProjectCreateForm {
  import opened Common

  datatype FormData = FormData(url: string, orgNames: seq<string>)

  /** The state the dialog starts in: an empty url and one empty organization name. */
  const InitialForm: FormData := FormData("", [""])

  /** `handleChange` for an input named `name` (and, for an organization row, its
      index): an organization row edits only its own slot, the url input only
      the url, anything else nothing. */
  function HandleChange(form: FormData, name: string, value: string, index: Option<nat>): (next: FormData)
    requires name == "orgName" && index.Some? ==> index.value < |form.orgNames|
    ensures name == "orgName" && index.Some? ==>
      && next.url == form.url
      && |next.orgNames| == |form.orgNames|
      && next.orgNames[index.value] == value
      && forall k :: 0 <= k < |form.orgNames| && k != index.value ==> next.orgNames[k] == form.orgNames[k]
    ensures name == "url" ==> next.url == value && next.orgNames == form.orgNames
    ensures name != "url" && (name != "orgName" || index.None?) ==> next == form
  {
    if name == "orgName" && index.Some? then form.(orgNames := form.orgNames[index.value := value])
    else if name == "url" then form.(url := value)
    else form
  }

  /** `handleAddOrgName`: one more, empty, organization row at the end. */
  function HandleAddOrgName(form: FormData): (next: FormData)
    ensures next.url == form.url
    ensures |next.orgNames| == |form.orgNames| + 1
    ensures next.orgNames[..|form.orgNames|] == form.orgNames && next.orgNames[|form.orgNames|] == ""
  {
    form.(orgNames := form.orgNames + [""])
  }

  /** `names.filter((_, i) => i !== index)`. */
  function WithoutIndex(names: seq<string>, index: int): seq<string> {
    if names == [] then []
    else WithoutIndex(names[..|names| - 1], index) + (if |names| - 1 == index then [] else [names[|names| - 1]])
  }

  /** Filtering by position drops exactly the one entry at `index`, if there is one. */
  lemma {:induction false} WithoutIndexDropsOne(names: seq<string>, index: int)
    ensures 0 <= index < |names| ==> WithoutIndex(names, index) == names[..index] + names[index + 1..]
    ensures !(0 <= index < |names|) ==> WithoutIndex(names, index) == names
  {
    if names != [] {
      var init := names[..|names| - 1];
      WithoutIndexDropsOne(init, index);
      if index == |names| - 1 {
        assert names[..index] == init;
        assert names[index + 1..] == [];
      } else if 0 <= index < |names| - 1 {
        assert init[..index] == names[..index];
        assert init[index + 1..] + [names[|names| - 1]] == names[index + 1..];
      } else {
        assert init + [names[|names| - 1]] == names;
      }
    }
  }

  /** `handleRemoveOrgName(index)`: the row at `index` goes, the others keep their order. */
  function HandleRemoveOrgName(form: FormData, index: int): (next: FormData)
    ensures next.url == form.url
    ensures 0 <= index < |form.orgNames| ==>
      && |next.orgNames| == |form.orgNames| - 1
      && next.orgNames == form.orgNames[..index] + form.orgNames[index + 1..]
    ensures !(0 <= index < |form.orgNames|) ==> next == form
  {
    WithoutIndexDropsOne(form.orgNames, index);
    form.(orgNames := WithoutIndex(form.orgNames, index))
  }

  /** `handleSubmit`: the current state is what `onSubmit` receives. */
  function HandleSubmit(form: FormData): (submitted: FormData)
    ensures submitted.url == form.url && submitted.orgNames == form.orgNames
  {
    form
  }

  /** What a user can do in the rendered dialog. */
  datatype UiAction =
    | EditUrl(value: string)
    | EditOrgName(row: nat, value: string)
    | AddRow(row: nat)
    | RemoveRow(row: nat)

  /** The controls the dialog renders: the url field, and for each row its text
      field and its add button; the remove button only when there are at least two rows. */
  predicate Offered(form: FormData, action: UiAction) {
    match action
    case EditUrl(_) => true
    case EditOrgName(row, _) => row < |form.orgNames|
    case AddRow(row) => row < |form.orgNames|
    case RemoveRow(row) => |form.orgNames| > 1 && row < |form.orgNames|
  }

  function Apply(form: FormData, action: UiAction): FormData
    requires Offered(form, action)
  {
    match action
    case EditUrl(value) => HandleChange(form, "url", value, None)
    case EditOrgName(row, value) => HandleChange(form, "orgName", value, Some(row))
    case AddRow(_) => HandleAddOrgName(form)
    case RemoveRow(row) => HandleRemoveOrgName(form, row)
  }

  /** The state after a sequence of actions, or None once an action is not on screen. */
  function Run(form: FormData, actions: seq<UiAction>): Option<FormData>
    decreases |actions|
  {
    if actions == [] then Some(form)
    else if Offered(form, actions[0]) then Run(Apply(form, actions[0]), actions[1..])
    else None
  }

  /** Whatever the user does through the dialog, the list of organization names
      never becomes empty, so every submitted form names at least one. */
  lemma {:induction false} RunKeepsARow(form: FormData, actions: seq<UiAction>)
    requires |form.orgNames| >= 1
    requires Run(form, actions).Some?
    ensures |Run(form, actions).value.orgNames| >= 1
    decreases |actions|
  {
    if actions != [] {
      RunKeepsARow(Apply(form, actions[0]), actions[1..]);
    }
  }

  lemma SubmittedFormNamesAnOrg(actions: seq<UiAction>)
    requires Run(InitialForm, actions).Some?
    ensures HandleSubmit(Run(InitialForm, actions).value) == Run(InitialForm, actions).value
    ensures |HandleSubmit(Run(InitialForm, actions).value).orgNames| >= 1
  {
    RunKeepsARow(InitialForm, actions);
  }
}
