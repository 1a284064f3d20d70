/** The active-proposal card of `proposal-card-actions.tsx`: the countdown,
    the tally bar (`ResultsDisplay`), the Yes/No vote buttons and the vote
    handler. */
module ProposalCardActions {
  import opened Wrappers
  import opened Types
  import Text

  // ----- Countdown -----

  const MsPerMinute := 60000
  const MsPerHour := 3600000
  const MsPerDay := 86400000

  datatype TimeLeft = VotingEnded | Left(days: nat, hours: nat, minutes: nat)

  /** The countdown text for `diff = end - now` milliseconds. */
  function TimeLeftAt(diff: int): (t: TimeLeft)
    ensures t.VotingEnded? <==> diff <= 0
    ensures t.Left? ==> t.hours < 24 && t.minutes < 60
    ensures t.Left? ==>
      var shown := t.days * MsPerDay + t.hours * MsPerHour + t.minutes * MsPerMinute;
      shown <= diff < shown + MsPerMinute
  {
    if diff <= 0 then VotingEnded
    else
      var minutesTotal := diff / MsPerMinute;
      var hoursTotal := minutesTotal / 60;
      assert diff / MsPerHour == hoursTotal;
      assert diff / MsPerDay == hoursTotal / 24;
      Left(diff / MsPerDay, (diff / MsPerHour) % 24, (diff / MsPerMinute) % 60)
  }

  /** The `Countdown` component: `timeLeft` starts empty (`None`) and is
      recomputed on every tick of an interval that is cleared once voting has
      ended. */
  class Countdown {
    const endDate: int
    var timeLeft: Option<TimeLeft>
    var running: bool

    constructor (endDate: int)
      ensures this.endDate == endDate && timeLeft == None && running
    {
      this.endDate := endDate;
      timeLeft := None;
      running := true;
    }

    /** One interval callback; after `clearInterval` there are none. */
    method Tick(now: int)
      requires running
      modifies this
      ensures timeLeft == Some(TimeLeftAt(endDate - now))
      ensures running <==> endDate - now > 0
    {
      var diff := endDate - now;
      if diff <= 0 {
        timeLeft := Some(VotingEnded);
        running := false;
        return;
      }
      timeLeft := Some(TimeLeftAt(diff));
    }
  }

  // ----- tallies -----

  /** `results.reduce((acc, r) => acc + r.votes, 0)`. */
  function Total(results: seq<ResultEntry>): (n: nat)
    ensures n == 0 <==> forall i :: 0 <= i < |results| ==> results[i].votes == 0
  {
    if results == [] then 0 else results[0].votes + Total(results[1..])
  }

  lemma {:induction false} EntryAtMostTotal(results: seq<ResultEntry>, i: nat)
    requires i < |results|
    ensures results[i].votes <= Total(results)
  {
    if i > 0 { EntryAtMostTotal(results[1..], i - 1); }
  }

  /** Two different entries together never exceed the total. */
  lemma {:induction false} TwoEntriesAtMostTotal(results: seq<ResultEntry>, i: nat, j: nat)
    requires i < |results| && j < |results| && i != j
    ensures results[i].votes + results[j].votes <= Total(results)
  {
    if i == 0 {
      EntryAtMostTotal(results[1..], j - 1);
    } else if j == 0 {
      EntryAtMostTotal(results[1..], i - 1);
    } else {
      TwoEntriesAtMostTotal(results[1..], i - 1, j - 1);
    }
  }

  lemma TotalOfTwo(results: seq<ResultEntry>)
    requires |results| == 2
    ensures Total(results) == results[0].votes + results[1].votes
  {
    var rest := results[1..];
    assert rest[0] == results[1] && rest[1..] == [];
    assert Total(rest) == rest[0].votes + Total(rest[1..]);
  }

  /** `total > 0 ? (votes / total) * 100 : 0`, in exact arithmetic. */
  function Percent(votes: nat, total: nat): (pct: real)
    ensures total == 0 ==> pct == 0.0
    ensures votes <= total ==> 0.0 <= pct <= 100.0
    ensures total > 0 ==> pct * (total as real) == (votes as real) * 100.0
  {
    if total > 0 then (votes as real / total as real) * 100.0 else 0.0
  }

  /** The two shares of one total add up as their counts do. */
  lemma PercentAdds(a: nat, b: nat, total: nat)
    requires total > 0
    ensures Percent(a, total) + Percent(b, total) == Percent(a + b, total)
  {
    var t := total as real;
    assert (a as real / t) + (b as real / t) == (a + b) as real / t;
  }

  lemma PercentOfWhole(total: nat)
    requires total > 0
    ensures Percent(total, total) == 100.0
  {
  }

  // ----- which entries count as Yes and No -----

  /** The positions the source picks: the first "yes" entry, else position 0;
      the first "no" entry, else position 1. */
  function PicksAsWritten(names: seq<string>): (picks: (nat, nat))
    requires |names| >= 2
    ensures picks.0 < |names| && picks.1 < |names|
    ensures (forall j :: 0 <= j < |names| ==> !Text.Names(names[j], "yes")) ==> picks.0 == 0
    ensures (exists j :: 0 <= j < |names| && Text.Names(names[j], "yes")) ==>
              Text.Names(names[picks.0], "yes") && forall j :: 0 <= j < picks.0 ==> !Text.Names(names[j], "yes")
    ensures (forall j :: 0 <= j < |names| ==> !Text.Names(names[j], "no")) ==> picks.1 == 1
    ensures (exists j :: 0 <= j < |names| && Text.Names(names[j], "no")) ==>
              Text.Names(names[picks.1], "no") && forall j :: 0 <= j < picks.1 ==> !Text.Names(names[j], "no")
  {
    var yes := match Text.FirstNamed(names, "yes") case Some(k) => k case None => 0;
    var no := match Text.FirstNamed(names, "no") case Some(k) => k case None => 1;
    (yes, no)
  }

  /** Two entries, "No" first: the source takes position 0 for both Yes and No. */
  lemma PicksAsWrittenCollide()
    ensures PicksAsWritten(["No", "Maybe"]) == (0, 0)
    ensures PicksAsWritten(["Maybe", "Yes"]) == (1, 1)
  {
    assert Text.Names("No", "no");
    assert Text.Names("Yes", "yes");
    assert !Text.Names("Maybe", "yes") && !Text.Names("Maybe", "no") && !Text.Names("No", "yes");
    assert !Text.Names("Yes", "no");
  }

  /** The positions picked once corrected: a named entry wins, and the
      positional fallback skips the position the other side already holds. */
  function YesNoPicks(names: seq<string>): (picks: (nat, nat))
    requires |names| >= 2
    ensures picks.0 < |names| && picks.1 < |names| && picks.0 != picks.1
    ensures Text.FirstNamed(names, "yes").Some? ==> picks.0 == Text.FirstNamed(names, "yes").value
    ensures Text.FirstNamed(names, "no").Some? ==> picks.1 == Text.FirstNamed(names, "no").value
    ensures Text.FirstNamed(names, "yes").None? && Text.FirstNamed(names, "no").None? ==> picks == (0, 1)
  {
    var fy, fn := Text.FirstNamed(names, "yes"), Text.FirstNamed(names, "no");
    var yes := match fy case Some(k) => k case None => if fn == Some(0) then 1 else 0;
    var no := match fn case Some(k) => k case None => if yes == 1 then 0 else 1;
    assert fy.Some? && fn.Some? ==> yes != no by {
      if fy.Some? && fn.Some? { Text.YesIsNotNo(names[yes]); }
    }
    (yes, no)
  }

  /** The correction changes nothing where the source's picks are distinct. */
  lemma YesNoPicksAgreeWhenDistinct(names: seq<string>)
    requires |names| >= 2
    requires PicksAsWritten(names).0 != PicksAsWritten(names).1
    ensures YesNoPicks(names) == PicksAsWritten(names)
  {
  }

  // ----- ResultsDisplay -----

  datatype ResultsView =
    | Placeholder
    | Bars(yesVotes: nat, noVotes: nat, totalVotes: nat, yesPercentage: real, noPercentage: real)

  /** `ResultsDisplay` for the SWR data `results` (`None` while unfetched). */
  function ResultsDisplay(results: Option<seq<ResultEntry>>): (v: ResultsView)
    ensures v.Placeholder? <==> results.None? || |results.value| < 2
    ensures v.Bars? ==> v.totalVotes == Total(results.value)
    ensures v.Bars? ==> v.yesVotes == results.value[YesNoPicks(EntryNames(results.value)).0].votes
    ensures v.Bars? ==> v.noVotes == results.value[YesNoPicks(EntryNames(results.value)).1].votes
    ensures v.Bars? && v.totalVotes == 0 ==> v.yesPercentage == 0.0 && v.noPercentage == 0.0
    ensures v.Bars? ==> 0.0 <= v.yesPercentage <= 100.0 && 0.0 <= v.noPercentage <= 100.0
    ensures v.Bars? ==> v.yesPercentage + v.noPercentage <= 100.0
    ensures v.Bars? && |results.value| == 2 && v.totalVotes > 0 ==>
              v.yesPercentage + v.noPercentage == 100.0
  {
    if results.None? || |results.value| < 2 then Placeholder
    else
      var rs := results.value;
      var picks := YesNoPicks(EntryNames(rs));
      var yes, no, total := rs[picks.0].votes, rs[picks.1].votes, Total(rs);
      TwoEntriesAtMostTotal(rs, picks.0, picks.1);
      assert total > 0 ==> Percent(yes, total) + Percent(no, total) <= 100.0 by {
        if total > 0 { PercentAdds(yes, no, total); }
      }
      assert |rs| == 2 && total > 0 ==> Percent(yes, total) + Percent(no, total) == 100.0 by {
        if |rs| == 2 && total > 0 {
          TotalOfTwo(rs);
          assert yes + no == total;
          PercentAdds(yes, no, total);
          PercentOfWhole(total);
        }
      }
      Bars(yes, no, total, Percent(yes, total), Percent(no, total))
  }

  /** With the source's picks, a "No" entry followed by "Maybe" is counted as
      both sides: each bar shows 100%. */
  lemma AsWrittenDisplayDoubleCounts()
    ensures var rs := [ResultEntry("", "No", 5), ResultEntry("", "Maybe", 0)];
      var picks := PicksAsWritten(EntryNames(rs));
      Percent(rs[picks.0].votes, Total(rs)) + Percent(rs[picks.1].votes, Total(rs)) == 200.0
  {
    var rs := [ResultEntry("", "No", 5), ResultEntry("", "Maybe", 0)];
    assert EntryNames(rs) == ["No", "Maybe"];
    PicksAsWrittenCollide();
    TotalOfTwo(rs);
  }

  // ----- the card's branches -----

  /** The ids the Yes and No buttons vote for. */
  function VoteTargets(cs: seq<Candidate>): (ids: (string, string))
    requires |cs| >= 2
    ensures ids.0 == cs[YesNoPicks(CandidateNames(cs)).0].id
    ensures ids.1 == cs[YesNoPicks(CandidateNames(cs)).1].id
  {
    var picks := YesNoPicks(CandidateNames(cs));
    (cs[picks.0].id, cs[picks.1].id)
  }

  /** The Yes and No buttons of a two-candidate proposal never vote for the same candidate. */
  lemma VoteTargetsDistinct(cs: seq<Candidate>)
    requires |cs| == 2
    requires cs[0].id != cs[1].id
    ensures VoteTargets(cs).0 != VoteTargets(cs).1
  {
  }

  /** With the source's picks, both buttons of a ["No", "Maybe"] proposal vote "No". */
  lemma AsWrittenButtonsCollide(noId: string, maybeId: string)
    ensures var cs := [Candidate(noId, "No"), Candidate(maybeId, "Maybe")];
      var picks := PicksAsWritten(CandidateNames(cs));
      cs[picks.0].id == cs[picks.1].id == noId
  {
    var cs := [Candidate(noId, "No"), Candidate(maybeId, "Maybe")];
    assert CandidateNames(cs) == ["No", "Maybe"];
    PicksAsWrittenCollide();
  }

  datatype CardView =
    | Skeleton
    | VotedPanel(showsResults: bool)
    | YesNoButtons(yesCandidateId: string, noCandidateId: string)
    | ViewAndVoteLink

  /** The branch `ProposalCardActions` renders. `hasVoted` is the SWR data
      (`None` until fetched). */
  function CardViewFor(p: Proposal, ready: bool, voter: Option<string>, hasVoted: Option<bool>): (v: CardView)
    ensures v.Skeleton? <==> !ready
    ensures v.VotedPanel? <==> ready && voter.Some? && hasVoted == Some(true)
    ensures v.VotedPanel? ==> (v.showsResults <==> |p.candidates| == 2)
    ensures v.YesNoButtons? <==> ready && !(voter.Some? && hasVoted == Some(true)) && |p.candidates| == 2
    ensures v.YesNoButtons? ==> (v.yesCandidateId, v.noCandidateId) == VoteTargets(p.candidates)
  {
    if !ready then Skeleton
    else if voter.Some? && hasVoted == Some(true) then VotedPanel(|p.candidates| == 2)
    else if |p.candidates| == 2 then
      var ids := VoteTargets(p.candidates);
      YesNoButtons(ids.0, ids.1)
    else ViewAndVoteLink
  }

  /** The has-voted SWR key: no query without a voter address. */
  function HasVotedKey(proposalId: string, voter: Option<string>): (key: Option<(string, string)>)
    ensures key.None? <==> voter.None?
    ensures key.Some? ==> key.value == (proposalId, voter.value)
  {
    match voter
    case None => None
    case Some(a) => Some((proposalId, a))
  }

  datatype VoteEffect = RequestLogin | SubmitVote(proposalId: string, candidateId: string, voterAddress: string)

  /** What `handleVote` starts. */
  function VoteEffectFor(proposalId: string, voter: Option<string>, candidateId: string): (e: VoteEffect)
    ensures e.RequestLogin? <==> voter.None?
    ensures e.SubmitVote? ==> e == SubmitVote(proposalId, candidateId, voter.value)
  {
    match voter
    case None => RequestLogin
    case Some(a) => SubmitVote(proposalId, candidateId, a)
  }

  /** The card's `isPending` and `error` state around one vote. */
  class VoteControls {
    const proposalId: string
    var pending: bool
    var error: Option<string>

    constructor (proposalId: string)
      ensures this.proposalId == proposalId && !pending && error == None
    {
      this.proposalId := proposalId;
      pending := false;
      error := None;
    }

    /** A click on a vote button; the buttons are disabled while a vote is pending. */
    method HandleVote(voter: Option<string>, candidateId: string) returns (effect: VoteEffect)
      requires !pending
      modifies this
      ensures effect == VoteEffectFor(proposalId, voter, candidateId)
      ensures pending <==> voter.Some?
      ensures error == old(error)
    {
      if voter.None? {
        effect := RequestLogin;
        return;
      }
      pending := true;
      effect := SubmitVote(proposalId, candidateId, voter.value);
    }

    /** The server action's reply: revalidate on success, keep the message otherwise. */
    method VoteSettled(result: WriteResult) returns (revalidateHasVoted: bool)
      requires pending
      modifies this
      ensures !pending
      ensures revalidateHasVoted == result.success
      ensures error == if result.success then old(error) else Some(result.message)
    {
      pending := false;
      if result.success {
        revalidateHasVoted := true;
      } else {
        revalidateHasVoted := false;
        error := Some(result.message);
      }
    }
  }
}
