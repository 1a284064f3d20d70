/** The home page of `page.tsx`: the active proposals, with their voting
    actions, and the past (closed) proposals, each with its empty-state message. */
module HomePage {
  import opened Types
  import Data

  /** `proposals.filter(p => p.status === 'active')`. */
  function ActiveProposals(ps: seq<Proposal>): (r: seq<Proposal>)
    ensures forall p :: p in r <==> p in ps && p.status == Active
  {
    Data.WithStatusMembers(ps, Active);
    Data.WithStatus(ps, Active)
  }

  /** `proposals.filter(p => p.status === 'closed')`. */
  function PastProposals(ps: seq<Proposal>): (r: seq<Proposal>)
    ensures forall p :: p in r <==> p in ps && p.status == Closed
  {
    Data.WithStatusMembers(ps, Closed);
    Data.WithStatus(ps, Closed)
  }

  /** A pending proposal is on neither list, and no proposal is on both. */
  lemma PendingNotShown(ps: seq<Proposal>, p: Proposal)
    ensures p.status == Pending ==> p !in ActiveProposals(ps) && p !in PastProposals(ps)
    ensures !(p in ActiveProposals(ps) && p in PastProposals(ps))
  {
  }

  /** Both lists keep the order in which the proposals were fetched: another
      proposal after the fetched ones lands at the end of its list. */
  lemma ListsKeepFetchedOrder(ps: seq<Proposal>, q: Proposal)
    ensures ActiveProposals(ps + [q]) ==
              ActiveProposals(ps) + (if q.status == Active then [q] else [])
    ensures PastProposals(ps + [q]) ==
              PastProposals(ps) + (if q.status == Closed then [q] else [])
  {
    Data.WithStatusConcat(ps, [q], Active);
    Data.WithStatusConcat(ps, [q], Closed);
    assert [q][1..] == [];
  }

  /** The page filters what `getProposals` returns, which is sorted by
      status; since that sort is stable, each list is what filtering the
      ledger's own order gives, and the active list is the head of the sorted list. */
  lemma ListsOfSortedFetch(fetched: seq<Proposal>)
    ensures ActiveProposals(Data.SortByStatus(fetched)) == Data.WithStatus(fetched, Active)
    ensures PastProposals(Data.SortByStatus(fetched)) == Data.WithStatus(fetched, Closed)
    ensures ActiveProposals(Data.SortByStatus(fetched)) ==
              Data.SortByStatus(fetched)[..|Data.WithStatus(fetched, Active)|]
  {
    Data.SortIsStable(fetched, Active);
    Data.SortIsStable(fetched, Closed);
  }

  /** The two sections as rendered: the cards of a list, or its empty-state message. */
  datatype Section = Cards(proposals: seq<Proposal>) | EmptyMessage(text: string)

  const NoActiveMessage := "There are no active proposals at the moment."
  const NoPastMessage := "No past proposals found."

  function SectionFor(list: seq<Proposal>, emptyText: string): (s: Section)
    ensures s.EmptyMessage? <==> list == []
    ensures s.Cards? ==> s.proposals == list
    ensures s.EmptyMessage? ==> s.text == emptyText
  {
    if |list| > 0 then Cards(list) else EmptyMessage(emptyText)
  }

  /** The empty-state message of a section is shown exactly when no fetched
      proposal has that section's status. */
  lemma EmptyMessageIffNoneWithStatus(ps: seq<Proposal>)
    ensures SectionFor(ActiveProposals(ps), NoActiveMessage).EmptyMessage? <==>
              forall i :: 0 <= i < |ps| ==> ps[i].status != Active
    ensures SectionFor(PastProposals(ps), NoPastMessage).EmptyMessage? <==>
              forall i :: 0 <= i < |ps| ==> ps[i].status != Closed
  {
    if exists i :: 0 <= i < |ps| && ps[i].status == Active {
      var i :| 0 <= i < |ps| && ps[i].status == Active;
      assert ps[i] in ActiveProposals(ps);
    } else {
      Data.NoneWithStatus(ps, Active);
    }
    if exists i :: 0 <= i < |ps| && ps[i].status == Closed {
      var i :| 0 <= i < |ps| && ps[i].status == Closed;
      assert ps[i] in PastProposals(ps);
    } else {
      Data.NoneWithStatus(ps, Closed);
    }
  }
}
