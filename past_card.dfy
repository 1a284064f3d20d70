/** The card body of `past-proposal-card-content.tsx`: whether a proposal is a
    Yes/No proposal, the winner of a closed one, whether its results are asked
    for, and which of the three bodies is shown. */
module PastProposalCard {
  import opened Wrappers
  import opened Types
  import Text

  /** `candidates.some(c => c.name.toLowerCase() === word)`. */
  predicate SomeNamed(cs: seq<Candidate>, word: string)
  {
    exists i :: 0 <= i < |cs| && Text.Names(cs[i].name, word)
  }

  /** `isTwoOption`: two candidates, one of them "yes" and one "no" in any case. */
  predicate IsYesNoProposal(p: Proposal): (ok: bool)
    ensures ok ==> |p.candidates| == 2 && p.candidates[0].name != p.candidates[1].name
  {
    |p.candidates| == 2 && SomeNamed(p.candidates, "yes") && SomeNamed(p.candidates, "no")
  }

  /** A Yes/No proposal has exactly one "yes" and one "no" candidate, in either order. */
  lemma YesNoProposalByPosition(p: Proposal)
    ensures IsYesNoProposal(p) <==>
      |p.candidates| == 2 &&
      ((Text.Names(p.candidates[0].name, "yes") && Text.Names(p.candidates[1].name, "no")) ||
       (Text.Names(p.candidates[0].name, "no") && Text.Names(p.candidates[1].name, "yes")))
  {
    if IsYesNoProposal(p) {
      var i :| 0 <= i < 2 && Text.Names(p.candidates[i].name, "yes");
      var j :| 0 <= j < 2 && Text.Names(p.candidates[j].name, "no");
      Text.YesIsNotNo(p.candidates[i].name);
    }
  }

  /** `results.find(r => r.name.toLowerCase() === word)?.votes || 0`. */
  function VotesNamed(results: seq<ResultEntry>, word: string): (v: nat)
    ensures (forall i :: 0 <= i < |results| ==> !Text.Names(results[i].name, word)) ==> v == 0
    ensures forall i | 0 <= i < |results| && Text.Names(results[i].name, word) &&
                       (forall j :: 0 <= j < i ==> !Text.Names(results[j].name, word)) ::
              v == results[i].votes
  {
    match Text.FirstNamed(EntryNames(results), word)
    case None => 0
    case Some(k) => results[k].votes
  }

  datatype Winner = Yes | No | Tie

  /** `yesVotes > noVotes ? 'Yes' : noVotes > yesVotes ? 'No' : 'Tie'`. */
  function WinnerOf(yesVotes: nat, noVotes: nat): (w: Winner)
    ensures w == Yes <==> yesVotes > noVotes
    ensures w == No <==> noVotes > yesVotes
    ensures w == Tie <==> yesVotes == noVotes
  {
    if yesVotes > noVotes then Yes else if noVotes > yesVotes then No else Tie
  }

  function Mirror(w: Winner): Winner
  {
    match w
    case Yes => No
    case No => Yes
    case Tie => Tie
  }

  /** Swapping the two counts swaps Yes and No and keeps Tie. */
  lemma WinnerSymmetric(yesVotes: nat, noVotes: nat)
    ensures WinnerOf(noVotes, yesVotes) == Mirror(WinnerOf(yesVotes, noVotes))
  {
  }

  /** The winner shown for a closed Yes/No proposal's results. */
  function ResultWinner(results: seq<ResultEntry>): Winner
  {
    WinnerOf(VotesNamed(results, "yes"), VotesNamed(results, "no"))
  }

  /** The results a Yes/No proposal shows when the read failed (`[]`) is a tie. */
  lemma FailedReadShowsTie()
    ensures ResultWinner([]) == Tie
  {
  }

  /** The SWR key: results are asked for only for a closed Yes/No proposal. */
  function ResultsKey(p: Proposal): (key: Option<string>)
    ensures key.Some? <==> p.status == Closed && IsYesNoProposal(p)
    ensures key.Some? ==> key.value == p.id
  {
    if p.status == Closed && IsYesNoProposal(p) then Some(p.id) else None
  }

  function FallbackLabel(s: Status): (caption: string)
    ensures caption == "View Results" <==> s == Closed
    ensures caption == "View Proposal" <==> s != Closed
  {
    if s == Closed then "View Results" else "View Proposal"
  }

  datatype CardBody =
    | Spinner
    | Verdict(winner: Winner)
    | Summary(optionCount: nat, durationDays: nat, linkLabel: string)

  /** The body rendered, given SWR's loading flag and data for the results key. */
  function CardBodyFor(p: Proposal, isLoading: bool, results: Option<seq<ResultEntry>>): (b: CardBody)
    ensures b.Spinner? <==> ResultsKey(p).Some? && isLoading
    ensures b.Verdict? <==> ResultsKey(p).Some? && !isLoading && results.Some?
    ensures b.Verdict? ==> b.winner == ResultWinner(results.value)
    ensures b.Summary? ==> b == Summary(|p.candidates|, p.durationDays, FallbackLabel(p.status))
  {
    if p.status == Closed && IsYesNoProposal(p) && isLoading then Spinner
    else if p.status == Closed && IsYesNoProposal(p) && results.Some? then Verdict(ResultWinner(results.value))
    else Summary(|p.candidates|, p.durationDays, FallbackLabel(p.status))
  }
}
