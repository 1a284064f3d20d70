/** The "My Proposals" page of `profile/page.tsx`: the proposals the connected
    wallet created, split into active, pending and closed lists, and the
    guarded cancel handler. */
module ProfilePage {
  import opened Wrappers
  import opened Types
  import Text
  import Data

  /** `proposals.filter(p => p.creator === address)`. */
  function CreatedBy(ps: seq<Proposal>, address: string): (r: seq<Proposal>)
    ensures |r| <= |ps|
    ensures forall i :: 0 <= i < |r| ==> r[i].creator == address
    decreases |ps|
  {
    if ps == [] then []
    else (if ps[0].creator == address then [ps[0]] else []) + CreatedBy(ps[1..], address)
  }

  /** `CreatedBy` keeps exactly the proposals whose creator is `address`, character for character. */
  lemma {:induction false} CreatedByMembers(ps: seq<Proposal>, address: string)
    ensures forall p :: p in CreatedBy(ps, address) <==> p in ps && p.creator == address
    decreases |ps|
  {
    if ps != [] {
      CreatedByMembers(ps[1..], address);
      assert ps == [ps[0]] + ps[1..];
    }
  }

  /** When every proposal is by `address`, `CreatedBy` returns the list unchanged. */
  lemma {:induction false} CreatedByKeepsAll(ps: seq<Proposal>, address: string)
    requires forall i :: 0 <= i < |ps| ==> ps[i].creator == address
    ensures CreatedBy(ps, address) == ps
    decreases |ps|
  {
    if ps != [] {
      CreatedByKeepsAll(ps[1..], address);
    }
  }

  /** `CreatedBy` keeps the fetched order: filtering a concatenation
      concatenates the filtered parts. */
  lemma {:induction false} CreatedByConcat(s: seq<Proposal>, t: seq<Proposal>, address: string)
    ensures CreatedBy(s + t, address) == CreatedBy(s, address) + CreatedBy(t, address)
    decreases |s|
  {
    if s != [] {
      CreatedByConcat(s[1..], t, address);
      var head := if s[0].creator == address then [s[0]] else [];
      assert (s + t)[0] == s[0] && (s + t)[1..] == s[1..] + t;
      assert CreatedBy(s + t, address) == head + CreatedBy(s[1..] + t, address);
    } else {
      assert s + t == t;
    }
  }

  /** `userProposals`: no list while the fetch has not produced one, and no
      proposal without a connected wallet (`undefined` equals no creator). */
  function UserProposals(proposals: Option<seq<Proposal>>, wallet: Option<string>): (r: seq<Proposal>)
    ensures proposals.None? || wallet.None? ==> r == []
    ensures proposals.Some? && wallet.Some? ==> r == CreatedBy(proposals.value, wallet.value)
  {
    match (proposals, wallet)
    case (Some(ps), Some(w)) => CreatedBy(ps, w)
    case _ => []
  }

  /** The comparison is case-sensitive: a creator stored in another case is not listed. */
  lemma UserProposalsCaseSensitive(p: Proposal, wallet: string)
    requires p.creator != wallet
    ensures UserProposals(Some([p]), Some(wallet)) == []
  {
  }

  /** The three lists of the page. */
  function ActiveList(user: seq<Proposal>): seq<Proposal> { Data.WithStatus(user, Active) }
  function PendingList(user: seq<Proposal>): seq<Proposal> { Data.WithStatus(user, Pending) }
  function ClosedList(user: seq<Proposal>): seq<Proposal> { Data.WithStatus(user, Closed) }

  /** The three lists partition `userProposals`: each proposal is listed in the
      list of its status and in no other, and together they hold every
      proposal as often as `userProposals` does. */
  lemma ListsPartition(user: seq<Proposal>)
    ensures multiset(ActiveList(user)) + multiset(PendingList(user)) + multiset(ClosedList(user))
            == multiset(user)
    ensures forall p :: p in ActiveList(user) <==> p in user && p.status == Active
    ensures forall p :: p in PendingList(user) <==> p in user && p.status == Pending
    ensures forall p :: p in ClosedList(user) <==> p in user && p.status == Closed
  {
    Data.StatusPartition(user);
    Data.WithStatusMembers(user, Active);
    Data.WithStatusMembers(user, Pending);
    Data.WithStatusMembers(user, Closed);
  }

  /** The lists keep the fetched order: splitting `user` anywhere splits each list at the same place. */
  lemma ListsKeepOrder(s: seq<Proposal>, t: seq<Proposal>)
    ensures ActiveList(s + t) == ActiveList(s) + ActiveList(t)
    ensures PendingList(s + t) == PendingList(s) + PendingList(t)
    ensures ClosedList(s + t) == ClosedList(s) + ClosedList(t)
  {
    Data.WithStatusConcat(s, t, Active);
    Data.WithStatusConcat(s, t, Pending);
    Data.WithStatusConcat(s, t, Closed);
  }

  /** `proposals.length === 0 ? null : …`: a list is rendered only when it has a proposal. */
  function ListShown(list: seq<Proposal>): (shown: bool)
    ensures shown <==> exists p :: p in list
  {
    if |list| > 0 then assert list[0] in list; true else false
  }

  /** What a proposal's card in a profile list shows. */
  datatype ProfileCard = ProfileCard(votingActions: bool, cancelButton: bool)

  /** The voting actions for an active proposal, the past-card body otherwise;
      the cancel button exactly for a pending one. */
  function CardFor(p: Proposal): (c: ProfileCard)
    ensures c.votingActions <==> p.status == Active
    ensures c.cancelButton <==> p.status == Pending
    ensures !(c.votingActions && c.cancelButton)
  {
    ProfileCard(p.status == Active, p.status == Pending)
  }

  /** Only the pending list carries cancel buttons. */
  lemma CancelOnlyInPendingList(user: seq<Proposal>, p: Proposal)
    requires p in user && CardFor(p).cancelButton
    ensures p in PendingList(user) && p !in ActiveList(user) && p !in ClosedList(user)
  {
    Data.WithStatusMembers(user, Active);
    Data.WithStatusMembers(user, Pending);
    Data.WithStatusMembers(user, Closed);
  }

  /** `handleCancel`: the call `cancelProposalAction(id, wallet)`, or nothing without a wallet. */
  function CancelClick(wallet: Option<string>, proposalId: string): (call: Option<(string, string)>)
    ensures call.None? <==> wallet.None?
    ensures call.Some? ==> call.value == (proposalId, wallet.value)
  {
    match wallet
    case None => None
    case Some(w) => Some((proposalId, w))
  }

  /** After the action: a toast with its message, and the list revalidated only on success. */
  datatype CancelFeedback = CancelFeedback(destructive: bool, description: string, revalidate: bool)

  function AfterCancel(result: WriteResult): (f: CancelFeedback)
    ensures f.revalidate <==> result.success
    ensures f.destructive <==> !result.success
    ensures f.description == result.message
  {
    CancelFeedback(!result.success, result.message, result.success)
  }

  /** A user cancelling one of their own listed proposals: the address sent is
      the signed-in wallet the list was filtered by, but the ledger module
      compares it with `signer`, the injected provider's account, which
      nothing ties to that wallet. The cancel succeeds exactly when that
      account is the wallet up to case and the transaction is confirmed; any
      other account is refused before a call is made. */
  lemma CancelFromProfileAuthorized(proposals: seq<Proposal>, wallet: string, p: Proposal,
                                    signer: Option<string>, tx: TxReply)
    requires p in UserProposals(Some(proposals), Some(wallet))
    ensures p.creator == wallet
    ensures var (id, address) := CancelClick(Some(wallet), p.id).value;
            var r := Data.CancelProposal(id, address, signer, tx);
            && (r.value.success <==>
                  signer.Some? && Text.SameIgnoringCase(signer.value, wallet) && tx == Returned(Confirmed))
            && (signer.Some? && !Text.SameIgnoringCase(signer.value, wallet) ==>
                  r == Traced(WriteResult(false, Data.NotAuthorized), []))
    ensures signer == Some(wallet) ==>
              (Data.CancelProposal(p.id, wallet, signer, tx).value.success <==> tx == Returned(Confirmed))
  {
    CreatedByMembers(proposals, wallet);
    Text.SameIgnoringCaseIsEquivalence(wallet, wallet, wallet);
  }

  /** The body of the page. */
  datatype ProfileView = Loading | NoProposals | Sections(active: seq<Proposal>, pending: seq<Proposal>, closed: seq<Proposal>)

  function ProfileViewFor(isLoading: bool, proposals: Option<seq<Proposal>>, wallet: Option<string>): (v: ProfileView)
    ensures v.Loading? <==> isLoading
    ensures v.NoProposals? <==> !isLoading && UserProposals(proposals, wallet) == []
    ensures v.Sections? ==>
              var user := UserProposals(proposals, wallet);
              v.active == ActiveList(user) && v.pending == PendingList(user) && v.closed == ClosedList(user)
  {
    var user := UserProposals(proposals, wallet);
    if isLoading then Loading
    else if user == [] then NoProposals
    else Sections(ActiveList(user), PendingList(user), ClosedList(user))
  }

  /** When the sections are shown, at least one of them is rendered. */
  lemma SectionsNotAllHidden(isLoading: bool, proposals: Option<seq<Proposal>>, wallet: Option<string>)
    requires ProfileViewFor(isLoading, proposals, wallet).Sections?
    ensures var v := ProfileViewFor(isLoading, proposals, wallet);
            ListShown(v.active) || ListShown(v.pending) || ListShown(v.closed)
  {
    var user := UserProposals(proposals, wallet);
    ListsPartition(user);
    var p := user[0];
    assert p in user;
    match p.status
    case Active => assert p in ActiveList(user);
    case Pending => assert p in PendingList(user);
    case Closed => assert p in ClosedList(user);
  }
}
