/** The administrator's form of `create-election-form.tsx`: its validation
    schema, its default values, the candidate list editor (append, and remove
    disabled at two entries) and the submit lifecycle. */
module CreateElectionForm {
  import opened Wrappers
  import opened Types
  import Text

  datatype ElectionValues = ElectionValues(
    title: string,
    description: string,
    candidates: seq<string>,
    durationDays: int)

  /** `formSchema`: title of at least 5 UTF-16 code units, description of at
      least 10, at least two candidates, no empty candidate name, duration at least 1. */
  predicate IsValidElection(v: ElectionValues): (ok: bool)
    ensures ok ==> |v.title| >= 3 && |v.description| >= 5
    ensures ok ==> forall i :: 0 <= i < |v.candidates| ==> v.candidates[i] != ""
  {
    && Text.Utf16Length(v.title) >= 5
    && Text.Utf16Length(v.description) >= 10
    && |v.candidates| >= 2
    && (forall i :: 0 <= i < |v.candidates| ==> Text.Utf16Length(v.candidates[i]) >= 1)
    && v.durationDays >= 1
  }

  /** `defaultValues`. */
  function Defaults(): (v: ElectionValues)
    ensures |v.candidates| == 2 && v.durationDays == 7
  {
    ElectionValues("", "", ["", ""], 7)
  }

  /** The defaults do not pass the schema: the title, the description and both names are empty. */
  lemma DefaultsRejected()
    ensures !IsValidElection(Defaults())
    ensures |Defaults().candidates[0]| == 0 && |Defaults().candidates[1]| == 0
  {
  }

  /** Filling in the defaults' names, title and description is enough to pass. */
  lemma FilledDefaultsAccepted(title: string, description: string, a: string, b: string)
    requires Text.Utf16Length(title) >= 5 && Text.Utf16Length(description) >= 10 && |a| >= 1 && |b| >= 1
    ensures IsValidElection(ElectionValues(title, description, [a, b], Defaults().durationDays))
  {
  }

  // ----- the field-array editor -----

  /** `append({ name: '' })`. */
  function AppendEntry(names: seq<string>): (r: seq<string>)
    ensures |r| == |names| + 1 && r[..|names|] == names && r[|names|] == ""
  {
    names + [""]
  }

  /** A click on the remove button of entry `i`, which is disabled at two entries or fewer. */
  function RemoveEntry(names: seq<string>, i: nat): (r: seq<string>)
    requires i < |names|
    ensures |names| <= 2 ==> r == names
    ensures |names| > 2 ==> |r| == |names| - 1 && r[..i] == names[..i] && r[i..] == names[i + 1..]
  {
    if |names| <= 2 then names else names[..i] + names[i + 1..]
  }

  /** Typing `name` into the input of entry `i`. */
  function RenameEntry(names: seq<string>, i: nat, name: string): (r: seq<string>)
    requires i < |names|
    ensures |r| == |names| && r[i] == name
    ensures forall j :: 0 <= j < |names| && j != i ==> r[j] == names[j]
  {
    names[i := name]
  }

  datatype EditorOp = Append | Remove(index: nat) | Rename(index: nat, name: string)

  /** A sequence of clicks and edits; an index with no row has no button to click. */
  function ApplyEdits(names: seq<string>, ops: seq<EditorOp>): seq<string>
    decreases |ops|
  {
    if ops == [] then names
    else
      var next := match ops[0]
        case Append => AppendEntry(names)
        case Remove(i) => if i < |names| then RemoveEntry(names, i) else names
        case Rename(i, n) => if i < |names| then RenameEntry(names, i, n) else names;
      ApplyEdits(next, ops[1..])
  }

  /** No sequence of editor operations takes the candidate list below two entries. */
  lemma {:induction false} EditsKeepTwoCandidates(names: seq<string>, ops: seq<EditorOp>)
    requires |names| >= 2
    ensures |ApplyEdits(names, ops)| >= 2
    decreases |ops|
  {
    if ops != [] {
      var next := match ops[0]
        case Append => AppendEntry(names)
        case Remove(i) => if i < |names| then RemoveEntry(names, i) else names
        case Rename(i, n) => if i < |names| then RenameEntry(names, i, n) else names;
      EditsKeepTwoCandidates(next, ops[1..]);
    }
  }

  lemma EditsFromDefaultsKeepTwoCandidates(ops: seq<EditorOp>)
    ensures |ApplyEdits(Defaults().candidates, ops)| >= 2
  {
    EditsKeepTwoCandidates(Defaults().candidates, ops);
  }

  // ----- submission -----

  const AdminCreator := "0xAdmin"

  /** What `onSubmit` hands to `createProposalAction`. */
  function DraftFor(v: ElectionValues): (d: ProposalDraft)
    ensures d.creator == Some(AdminCreator)
    ensures d.candidates == v.candidates && d.title == v.title && d.description == v.description
    ensures d.durationDays == v.durationDays
  {
    ProposalDraft(v.title, v.description, v.candidates, v.durationDays, Some(AdminCreator))
  }

  /** A submit attempt: disabled while pending, stopped by the schema, otherwise sent. */
  function SubmitEffect(pending: bool, v: ElectionValues): (r: Option<ProposalDraft>)
    ensures r.Some? <==> !pending && IsValidElection(v)
    ensures r.Some? ==> r.value == DraftFor(v)
  {
    if pending || !IsValidElection(v) then None else Some(DraftFor(v))
  }

  /** The form's state: its values, `isPending`, and the last `result`. */
  class ElectionForm {
    var values: ElectionValues
    var pending: bool
    var result: Option<CreateResponse>

    ghost predicate Valid()
      reads this
    {
      |values.candidates| >= 2
    }

    constructor ()
      ensures Valid()
      ensures values == Defaults() && !pending && result == None
    {
      values := Defaults();
      pending := false;
      result := None;
    }

    method AppendCandidate()
      requires Valid()
      modifies this
      ensures Valid()
      ensures values == old(values).(candidates := AppendEntry(old(values).candidates))
      ensures pending == old(pending) && result == old(result)
    {
      values := values.(candidates := values.candidates + [""]);
    }

    method RemoveCandidate(i: nat)
      requires Valid() && i < |values.candidates|
      modifies this
      ensures Valid()
      ensures values == old(values).(candidates := RemoveEntry(old(values).candidates, i))
      ensures pending == old(pending) && result == old(result)
    {
      if |values.candidates| > 2 {
        values := values.(candidates := values.candidates[..i] + values.candidates[i + 1..]);
      }
    }

    method RenameCandidate(i: nat, name: string)
      requires Valid() && i < |values.candidates|
      modifies this
      ensures Valid()
      ensures values == old(values).(candidates := RenameEntry(old(values).candidates, i, name))
      ensures pending == old(pending) && result == old(result)
    {
      values := values.(candidates := values.candidates[i := name]);
    }

    /** Editing the title, description and duration fields. */
    method EditDetails(title: string, description: string, durationDays: int)
      requires Valid()
      modifies this
      ensures Valid()
      ensures values == ElectionValues(title, description, old(values).candidates, durationDays)
      ensures pending == old(pending) && result == old(result)
    {
      values := values.(title := title, description := description, durationDays := durationDays);
    }

    /** A click on the submit button. */
    method Submit() returns (sent: Option<ProposalDraft>)
      requires Valid()
      modifies this
      ensures Valid()
      ensures sent == SubmitEffect(old(pending), old(values))
      ensures pending == (old(pending) || sent.Some?)
      ensures values == old(values) && result == old(result)
    {
      if pending || !IsValidElection(values) {
        return None;
      }
      pending := true;
      sent := Some(DraftFor(values));
    }

    /** The action's response: recorded, and the form reset only on success. */
    method Settle(response: CreateResponse)
      requires Valid() && pending
      modifies this
      ensures Valid()
      ensures !pending && result == Some(response)
      ensures values == if response.success then Defaults() else old(values)
    {
      pending := false;
      result := Some(response);
      if response.success {
        values := Defaults();
      }
    }
  }
}
