/** The server actions of `admin/actions.ts`: proposal creation, which asks the
    configuration assistant before writing to the ledger, and the start and
    stop actions over `updateProposalStatus`. */
module AdminActions {
  import opened Wrappers
  import opened Types
  import Data

  const TooFewCandidates := "Please provide at least two candidates."
  const CreateFailed := "Failed to create proposal. Please try again."

  /** `createProposalAction`. `ai` is the assistant's reply (its
      `zkpConfiguration`, or what it throws), `signer` and `tx` are as for
      `createProposal`. */
  function CreateProposalAction(d: ProposalDraft, ai: Outcome<string>, signer: Option<string>,
                                tx: TxReply): (r: Traced<CreateResponse>)
    ensures |d.candidates| < 2 ==>
              r == Traced(CreateResponse(false, None, Some(TooFewCandidates)), [])
    ensures |d.candidates| >= 2 ==> |r.calls| >= 1 && r.calls[0] == AskAssistant(d.candidates)
    ensures |d.candidates| >= 2 && ai.Threw? ==>
              r == Traced(CreateResponse(false, None, Some(Data.MessageOr(ai.failure, CreateFailed))),
                          [AskAssistant(d.candidates)])
    ensures r.value.success <==>
              |d.candidates| >= 2 && ai.Returned? && signer.Some? && tx == Returned(Confirmed)
    ensures r.value.success ==> r.value == CreateResponse(true, Some(ai.value), None)
    ensures !r.value.success ==> r.value.zkpConfiguration.None? && r.value.error.Some?
    ensures |d.candidates| >= 2 && ai.Returned? ==>
              var w := Data.CreateProposal(d, Some(ai.value), signer, tx);
              r.calls == [AskAssistant(d.candidates)] + w.calls &&
              (!w.value.success ==> r.value.error == Some(w.value.message))
  {
    if |d.candidates| < 2 then
      Traced(CreateResponse(false, None, Some(TooFewCandidates)), [])
    else match ai
      case Threw(f) =>
        Traced(CreateResponse(false, None, Some(Data.MessageOr(f, CreateFailed))), [AskAssistant(d.candidates)])
      case Returned(zkp) =>
        var w := Data.CreateProposal(d, Some(zkp), signer, tx);
        var response := if w.value.success then CreateResponse(true, Some(zkp), None)
                        else CreateResponse(false, None, Some(w.value.message));
        Traced(response, [AskAssistant(d.candidates)] + w.calls)
  }

  /** The ledger transaction a successful creation sends carries the
      assistant's configuration and the draft's fields, and no creator: the
      ledger records the signer, so `creator` never reaches it. */
  lemma CreationSendsDraftWithConfiguration(d: ProposalDraft, zkp: string, signer: Option<string>, tx: TxReply)
    requires |d.candidates| >= 2 && signer.Some?
    ensures CreateProposalAction(d, Returned(zkp), signer, tx).calls[1] ==
              CreateProposalTx(d.title, d.description, d.candidates, d.durationDays, zkp)
  {
  }

  /** The draft's `creator` has no effect on what is sent or returned. */
  lemma CreatorIgnored(d: ProposalDraft, creator: Option<string>, ai: Outcome<string>,
                       signer: Option<string>, tx: TxReply)
    ensures CreateProposalAction(d.(creator := creator), ai, signer, tx) ==
            CreateProposalAction(d, ai, signer, tx)
  {
  }

  /** Nothing reaches the ledger unless the assistant was asked first. */
  lemma LedgerAfterAssistant(d: ProposalDraft, ai: Outcome<string>, signer: Option<string>, tx: TxReply)
    ensures var calls := CreateProposalAction(d, ai, signer, tx).calls;
            forall i :: 0 <= i < |calls| && !calls[i].AskAssistant? ==> i >= 1 && calls[0].AskAssistant?
  {
  }

  const StartedMessage := "Proposal started successfully."
  const StartFailedMessage := "Failed to start proposal."
  const StoppedMessage := "Proposal stopped successfully."
  const StopFailedMessage := "Failed to stop proposal."

  /** `startProposalAction`: `updateProposalStatus(id, 'active')`. */
  function StartProposalAction(id: string, signer: Option<string>, lookup: Option<Proposal>,
                               tx: TxReply): (r: Traced<WriteResult>)
    ensures r.value.success <==> Data.UpdateProposalStatus(id, Active, signer, lookup, tx).value
    ensures r.value.message == if r.value.success then StartedMessage else StartFailedMessage
    ensures r.calls == Data.UpdateProposalStatus(id, Active, signer, lookup, tx).calls
  {
    var u := Data.UpdateProposalStatus(id, Active, signer, lookup, tx);
    if u.value then Traced(WriteResult(true, StartedMessage), u.calls)
    else Traced(WriteResult(false, StartFailedMessage), u.calls)
  }

  /** `stopProposalAction`: `updateProposalStatus(id, 'closed')`. */
  function StopProposalAction(id: string, signer: Option<string>, tx: TxReply): (r: Traced<WriteResult>)
    ensures r.value.success <==> signer.Some? && tx == Returned(Confirmed)
    ensures r.value.message == if r.value.success then StoppedMessage else StopFailedMessage
    ensures r.value.success ==> r.calls == [CloseProposalTx(id), AwaitTx]
  {
    var u := Data.UpdateProposalStatus(id, Closed, signer, None, tx);
    if u.value then Traced(WriteResult(true, StoppedMessage), u.calls)
    else Traced(WriteResult(false, StopFailedMessage), u.calls)
  }

  /** Starting succeeds exactly when the proposal could be looked up and the
      transaction, which asks for the proposal's own duration, is confirmed. */
  lemma StartUsesStoredDuration(id: string, signer: Option<string>, p: Proposal, tx: TxReply)
    ensures StartProposalAction(id, signer, Some(p), tx).value.success <==>
              signer.Some? && tx == Returned(Confirmed)
    ensures StartProposalAction(id, signer, Some(p), tx).value.success ==>
              StartProposalAction(id, signer, Some(p), tx).calls ==
                [LookupProposal(id), StartProposalTx(id, p.durationDays), AwaitTx]
    ensures !StartProposalAction(id, signer, None, tx).value.success
  {
  }
}
