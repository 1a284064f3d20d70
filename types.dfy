/** The application's records (the `Proposal`, `Candidate` and
    `ProposalResults` types), the raw records the vote ledger returns, and the
    replies of the collaborators the application calls but does not contain:
    the ledger contract and the configuration assistant. */
module Types {
  import opened Wrappers

  datatype Status = Pending | Active | Closed

  datatype Candidate = Candidate(id: string, name: string)

  /** A proposal as the application holds it. `endDate` is kept as the
      millisecond timestamp the ISO string is built from. */
  datatype Proposal = Proposal(
    id: string,
    title: string,
    description: string,
    candidates: seq<Candidate>,
    status: Status,
    zkpConfiguration: string,
    creator: string,
    durationDays: nat,
    endDate: int)

  /** One entry of `ProposalResults`. */
  datatype ResultEntry = ResultEntry(candidateId: string, name: string, votes: nat)

  function EntryNames(results: seq<ResultEntry>): (names: seq<string>)
    ensures |names| == |results|
    ensures forall i :: 0 <= i < |results| ==> names[i] == results[i].name
  {
    seq(|results|, i requires 0 <= i < |results| => results[i].name)
  }

  function CandidateNames(cs: seq<Candidate>): (names: seq<string>)
    ensures |names| == |cs|
    ensures forall i :: 0 <= i < |cs| ==> names[i] == cs[i].name
  {
    seq(|cs|, i requires 0 <= i < |cs| => cs[i].name)
  }

  // ----- what the ledger contract returns to read calls -----

  datatype RawCandidate = RawCandidate(id: nat, name: string)

  /** The tuple the contract's `proposals(i)` getter returns; `status` is the
      ledger's integer code and `endTime` is in seconds. */
  datatype RawProposal = RawProposal(
    id: nat,
    title: string,
    description: string,
    status: int,
    durationDays: nat,
    endTime: int,
    creator: string,
    zkpConfiguration: string)

  datatype RawResult = RawResult(name: string, voteCount: nat)

  // ----- replies of collaborators to calls that can fail -----

  /** A thrown error: its `message` and the optional revert `reason` ethers attaches. */
  datatype Failure = Failure(message: string, reason: Option<string>)

  /** An awaited call that either returns a value or throws. */
  datatype Outcome<+T> = Returned(value: T) | Threw(failure: Failure)

  /** What `await tx.wait()` does with a submitted transaction. */
  datatype Confirmation = Confirmed | Reverted(failure: Failure)

  /** Submitting a transaction: the submission may throw, and if it does not,
      the wait may. */
  type TxReply = Outcome<Confirmation>

  /** The calls the application issues to its collaborators, in order. */
  datatype Call =
    | AskAssistant(candidateOptions: seq<string>)
    | LookupProposal(id: string)
    | CreateProposalTx(title: string, description: string, candidateNames: seq<string>,
                       durationDays: int, zkpConfiguration: string)
    | VoteTx(proposalId: string, candidateId: string)
    | StartProposalTx(id: string, days: nat)
    | CloseProposalTx(id: string)
    | CancelProposalTx(id: string)
    | AwaitTx

  /** A result together with the calls made to produce it. */
  datatype Traced<+T> = Traced(value: T, calls: seq<Call>)

  /** `{ success, message }`, the result of the ledger write functions. */
  datatype WriteResult = WriteResult(success: bool, message: string)

  /** The argument of `createProposalAction`; the candidates are the `name`s. */
  datatype ProposalDraft = ProposalDraft(
    title: string,
    description: string,
    candidates: seq<string>,
    durationDays: int,
    creator: Option<string>)

  /** `{ success, zkpConfiguration?, error? }`, the result of `createProposalAction`. */
  datatype CreateResponse = CreateResponse(
    success: bool,
    zkpConfiguration: Option<string>,
    error: Option<string>)
}
