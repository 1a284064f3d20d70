/** The public form of `propose/proposal-form.tsx`: a Yes/No proposal whose
    creator is the signed-in user's wallet, with the login prompt in front of
    validation. */
module ProposalForm {
  import opened Wrappers
  import opened Types
  import Text
  import PastProposalCard

  datatype ProposeValues = ProposeValues(title: string, description: string, durationDays: int)

  /** `formSchema`: title of at least 5 UTF-16 code units, description of at
      least 10, duration at least 1. */
  predicate IsValidProposal(v: ProposeValues): (ok: bool)
    ensures ok ==> |v.title| >= 3 && |v.description| >= 5
  {
    Text.Utf16Length(v.title) >= 5 && Text.Utf16Length(v.description) >= 10 && v.durationDays >= 1
  }

  /** The limits count what `.length` counts: three characters outside the
      Basic Multilingual Plane are six code units, enough for a title, while
      three ordinary letters are not. */
  lemma TitleLimitCountsCodeUnits()
    ensures IsValidProposal(ProposeValues("\U{1F5F3}\U{1F5F3}\U{1F5F3}", "ten chars!", 7))
    ensures !IsValidProposal(ProposeValues("abc", "ten chars!", 7))
  {
    var ballot := "\U{1F5F3}\U{1F5F3}\U{1F5F3}";
    assert ballot[1..][1..][1..] == [];
    assert Text.Utf16Length(ballot[1..][1..]) == 2;
    assert Text.Utf16Length(ballot) == 6;
    Text.Utf16LengthOfBmp("ten chars!");
    Text.Utf16LengthOfBmp("abc");
  }

  function Defaults(): (v: ProposeValues)
    ensures !IsValidProposal(v) && v.durationDays == 7
  {
    ProposeValues("", "", 7)
  }

  const YesNoCandidates: seq<string> := ["Yes", "No"]

  /** The draft `onSubmit` sends: the values, the fixed Yes/No candidates and
      the wallet as creator. */
  function DraftFor(v: ProposeValues, wallet: string): (d: ProposalDraft)
    ensures d.candidates == YesNoCandidates && d.creator == Some(wallet)
    ensures d.title == v.title && d.description == v.description && d.durationDays == v.durationDays
  {
    ProposalDraft(v.title, v.description, YesNoCandidates, v.durationDays, Some(wallet))
  }

  /** Whatever the user types, a proposal created from this form is a Yes/No proposal
      as the proposal cards recognise one, with "Yes" first. */
  lemma DraftIsYesNo(v: ProposeValues, wallet: string, yesId: string, noId: string)
    ensures PastProposalCard.IsYesNoProposal(
              Proposal("", v.title, v.description,
                       [Candidate(yesId, DraftFor(v, wallet).candidates[0]),
                        Candidate(noId, DraftFor(v, wallet).candidates[1])],
                       Pending, "", wallet, 0, 0))
  {
    var cs := [Candidate(yesId, YesNoCandidates[0]), Candidate(noId, YesNoCandidates[1])];
    assert Text.Lower("Yes") == "yes";
    assert Text.Lower("No") == "no";
    assert Text.Names(cs[0].name, "yes") && Text.Names(cs[1].name, "no");
    assert PastProposalCard.SomeNamed(cs, "yes") && PastProposalCard.SomeNamed(cs, "no");
  }

  datatype SubmitEffect = Ignored | RequestLogin | Send(draft: ProposalDraft)

  /** A press of the submit button. It is disabled while pending or while the
      login provider is not ready; an unauthenticated user is asked to log in
      before the values are checked; a valid submission without a wallet
      address does nothing. */
  function SubmitEffectFor(pending: bool, ready: bool, authenticated: bool,
                           v: ProposeValues, wallet: Option<string>): (e: SubmitEffect)
    ensures e.RequestLogin? <==> !pending && ready && !authenticated
    ensures e.Send? <==> !pending && ready && authenticated && IsValidProposal(v) && wallet.Some?
    ensures e.Send? ==> e.draft == DraftFor(v, wallet.value)
  {
    if pending || !ready then Ignored
    else if !authenticated then RequestLogin
    else if !IsValidProposal(v) then Ignored
    else match wallet
      case None => Ignored
      case Some(w) => Send(DraftFor(v, w))
  }

  /** A draft is only ever sent on behalf of the wallet it names as creator. */
  lemma SentDraftNamesWallet(pending: bool, ready: bool, authenticated: bool,
                             v: ProposeValues, wallet: Option<string>)
    ensures SubmitEffectFor(pending, ready, authenticated, v, wallet).Send? ==>
              SubmitEffectFor(pending, ready, authenticated, v, wallet).draft.creator == wallet
  {
  }

  /** The result shown: the error on failure (the form keeps its values), the
      success panel otherwise. */
  datatype Banner = NoBanner | ErrorBanner(error: Option<string>) | SubmittedBanner

  function BannerFor(result: Option<CreateResponse>): (b: Banner)
    ensures b.NoBanner? <==> result.None?
    ensures b.SubmittedBanner? <==> result.Some? && result.value.success
    ensures b.ErrorBanner? ==> b.error == result.value.error
  {
    match result
    case None => NoBanner
    case Some(r) => if r.success then SubmittedBanner else ErrorBanner(r.error)
  }

  /** The form's state. */
  class ProposalFormState {
    var values: ProposeValues
    var pending: bool
    var result: Option<CreateResponse>

    constructor ()
      ensures values == Defaults() && !pending && result == None
    {
      values := Defaults();
      pending := false;
      result := None;
    }

    method Edit(v: ProposeValues)
      modifies this
      ensures values == v && pending == old(pending) && result == old(result)
    {
      values := v;
    }

    /** A press of the submit button; the transition starts only when a draft is sent. */
    method Submit(ready: bool, authenticated: bool, wallet: Option<string>) returns (effect: SubmitEffect)
      modifies this
      ensures effect == SubmitEffectFor(old(pending), ready, authenticated, old(values), wallet)
      ensures pending == (old(pending) || effect.Send?)
      ensures values == old(values) && result == old(result)
    {
      effect := SubmitEffectFor(pending, ready, authenticated, values, wallet);
      if effect.Send? {
        pending := true;
      }
    }

    /** The action's response: recorded, and the form reset only on success. */
    method Settle(response: CreateResponse)
      requires pending
      modifies this
      ensures !pending && result == Some(response)
      ensures values == if response.success then Defaults() else old(values)
    {
      pending := false;
      result := Some(response);
      if response.success {
        values := Defaults();
      }
    }
  }
}
