/** The ledger client of `src/lib/data.ts`: mapping the ledger's raw records to
    `Proposal`s, ordering the proposal list, degrading read failures to
    defaults, and the guard-then-call write functions. Every contract call is a
    parameter holding the reply the ledger gives; every write function returns
    the calls it made, so that what is (not) sent can be stated. */
module Data {
  import opened Wrappers
  import opened Types
  import Text

  // ----- status codes -----

  /** The ledger's integer status, read defensively. */
  function MapStatus(code: int): (s: Status)
    ensures s == Active <==> code == 1
    ensures s == Closed <==> code == 2
    ensures s == Pending <==> code != 1 && code != 2
  {
    match code
    case 0 => Pending
    case 1 => Active
    case 2 => Closed
    case _ => Pending
  }

  /** The ledger's encoding of a status; `MapStatus` reads it back. */
  function StatusCode(s: Status): (code: int)
    ensures 0 <= code <= 2
    ensures MapStatus(code) == s
  {
    match s
    case Pending => 0
    case Active => 1
    case Closed => 2
  }

  // ----- ordering of the proposal list -----

  /** Position of a status in the displayed order active, pending, closed. */
  function Rank(s: Status): nat
  {
    match s
    case Active => 0
    case Pending => 1
    case Closed => 2
  }

  /** The comparator `getProposals` hands to `sort`. */
  function CompareByStatus(a: Proposal, b: Proposal): (c: int)
    ensures c in {-1, 0, 1}
    ensures c < 0 <==> Rank(a.status) < Rank(b.status)
    ensures c == 0 <==> a.status == b.status
    ensures c > 0 <==> Rank(a.status) > Rank(b.status)
  {
    if a.status == Active && b.status != Active then -1
    else if a.status != Active && b.status == Active then 1
    else if a.status == Pending && b.status == Closed then -1
    else if a.status == Closed && b.status == Pending then 1
    else 0
  }

  /** The comparator is consistent: antisymmetric, zero exactly on equal
      statuses, and transitive, as `sort` requires. */
  lemma ComparatorConsistent(a: Proposal, b: Proposal, c: Proposal)
    ensures CompareByStatus(a, b) == -CompareByStatus(b, a)
    ensures CompareByStatus(a, b) == 0 <==> a.status == b.status
    ensures CompareByStatus(a, b) <= 0 && CompareByStatus(b, c) <= 0 ==> CompareByStatus(a, c) <= 0
  {
  }

  /** The proposals of one status, in their original order (`filter`). */
  function WithStatus(ps: seq<Proposal>, st: Status): (r: seq<Proposal>)
    ensures |r| <= |ps|
  {
    if ps == [] then []
    else (if ps[0].status == st then [ps[0]] else []) + WithStatus(ps[1..], st)
  }

  /** `WithStatus` keeps exactly the proposals of the status asked for. */
  lemma {:induction false} WithStatusMembers(ps: seq<Proposal>, st: Status)
    ensures forall i :: 0 <= i < |WithStatus(ps, st)| ==> WithStatus(ps, st)[i].status == st
    ensures forall p :: p in WithStatus(ps, st) <==> p in ps && p.status == st
  {
    if ps != [] {
      WithStatusMembers(ps[1..], st);
      assert ps == [ps[0]] + ps[1..];
    }
  }

  /** The result of the engine's stable `sort` with `CompareByStatus`. */
  function SortByStatus(ps: seq<Proposal>): (r: seq<Proposal>)
    ensures |r| == |ps|
  {
    StatusPartition(ps);
    assert |multiset(ps)| == |ps|;
    WithStatus(ps, Active) + WithStatus(ps, Pending) + WithStatus(ps, Closed)
  }

  predicate SortedByStatus(ps: seq<Proposal>)
  {
    forall i, j :: 0 <= i < j < |ps| ==> CompareByStatus(ps[i], ps[j]) <= 0
  }

  lemma {:induction false} WithStatusConcat(s: seq<Proposal>, t: seq<Proposal>, st: Status)
    ensures WithStatus(s + t, st) == WithStatus(s, st) + WithStatus(t, st)
  {
    if s != [] {
      var head := if s[0].status == st then [s[0]] else [];
      assert (s + t)[0] == s[0];
      assert (s + t)[1..] == s[1..] + t;
      WithStatusConcat(s[1..], t, st);
      calc {
        WithStatus(s + t, st);
        head + WithStatus(s[1..] + t, st);
        head + (WithStatus(s[1..], st) + WithStatus(t, st));
        (head + WithStatus(s[1..], st)) + WithStatus(t, st);
        WithStatus(s, st) + WithStatus(t, st);
      }
    } else {
      assert s + t == t;
    }
  }

  /** Filtering a filtered list keeps it or empties it. */
  lemma {:induction false} WithStatusTwice(ps: seq<Proposal>, a: Status, b: Status)
    ensures WithStatus(WithStatus(ps, a), b) == if a == b then WithStatus(ps, a) else []
  {
    if ps != [] {
      WithStatusTwice(ps[1..], a, b);
      var head := if ps[0].status == a then [ps[0]] else [];
      WithStatusConcat(head, WithStatus(ps[1..], a), b);
    }
  }

  /** The three status lists together hold every proposal exactly as often as the input. */
  lemma {:induction false} StatusPartition(ps: seq<Proposal>)
    ensures multiset(WithStatus(ps, Active)) + multiset(WithStatus(ps, Pending))
            + multiset(WithStatus(ps, Closed)) == multiset(ps)
  {
    if ps != [] {
      var x, rest := ps[0], ps[1..];
      StatusPartition(rest);
      assert ps == [x] + rest;
      assert multiset(ps) == multiset{x} + multiset(rest);
      match x.status
      case Active =>
        assert WithStatus(ps, Active) == [x] + WithStatus(rest, Active);
        assert WithStatus(ps, Pending) == WithStatus(rest, Pending);
        assert WithStatus(ps, Closed) == WithStatus(rest, Closed);
      case Pending =>
        assert WithStatus(ps, Active) == WithStatus(rest, Active);
        assert WithStatus(ps, Pending) == [x] + WithStatus(rest, Pending);
        assert WithStatus(ps, Closed) == WithStatus(rest, Closed);
      case Closed =>
        assert WithStatus(ps, Active) == WithStatus(rest, Active);
        assert WithStatus(ps, Pending) == WithStatus(rest, Pending);
        assert WithStatus(ps, Closed) == [x] + WithStatus(rest, Closed);
    }
  }

  /** After sorting every active proposal precedes every pending one, and
      every pending one precedes every closed one. */
  lemma SortIsOrdered(ps: seq<Proposal>)
    ensures SortedByStatus(SortByStatus(ps))
  {
    var a, p, c := WithStatus(ps, Active), WithStatus(ps, Pending), WithStatus(ps, Closed);
    WithStatusMembers(ps, Active);
    WithStatusMembers(ps, Pending);
    WithStatusMembers(ps, Closed);
    var r := SortByStatus(ps);
    forall k | 0 <= k < |r|
      ensures Rank(r[k].status) == if k < |a| then 0 else if k < |a| + |p| then 1 else 2
    {
      if k < |a| { assert r[k] == a[k]; }
      else if k < |a| + |p| { assert r[k] == p[k - |a|]; }
      else { assert r[k] == c[k - |a| - |p|]; }
    }
  }

  /** Sorting is a permutation of the fetched list. */
  lemma SortPermutes(ps: seq<Proposal>)
    ensures multiset(SortByStatus(ps)) == multiset(ps)
  {
    StatusPartition(ps);
  }

  /** Sorting is stable: within one status the fetched order is kept. */
  lemma SortIsStable(ps: seq<Proposal>, st: Status)
    ensures WithStatus(SortByStatus(ps), st) == WithStatus(ps, st)
  {
    var a, p, c := WithStatus(ps, Active), WithStatus(ps, Pending), WithStatus(ps, Closed);
    WithStatusConcat(a + p, c, st);
    WithStatusConcat(a, p, st);
    WithStatusTwice(ps, Active, st);
    WithStatusTwice(ps, Pending, st);
    WithStatusTwice(ps, Closed, st);
  }

  lemma {:induction false} NoneWithStatus(ps: seq<Proposal>, st: Status)
    requires forall i :: 0 <= i < |ps| ==> ps[i].status != st
    ensures WithStatus(ps, st) == []
  {
    if ps != [] { NoneWithStatus(ps[1..], st); }
  }

  /** Filtering a list with one proposal in front. */
  lemma FilterCons(x: Proposal, rest: seq<Proposal>, st: Status)
    ensures WithStatus([x] + rest, st) == (if x.status == st then [x] else []) + WithStatus(rest, st)
  {
    assert ([x] + rest)[0] == x;
    assert ([x] + rest)[1..] == rest;
  }

  /** The tail of an ordered list is ordered, and its head ranks no later than any of it. */
  lemma SortedTail(r: seq<Proposal>)
    requires r != [] && SortedByStatus(r)
    ensures SortedByStatus(r[1..])
    ensures forall i :: 0 <= i < |r[1..]| ==> Rank(r[0].status) <= Rank(r[1..][i].status)
  {
    var rest := r[1..];
    forall i, j | 0 <= i < j < |rest| ensures CompareByStatus(rest[i], rest[j]) <= 0 {
      assert rest[i] == r[i + 1] && rest[j] == r[j + 1];
    }
    forall i | 0 <= i < |rest| ensures Rank(r[0].status) <= Rank(rest[i].status) {
      assert rest[i] == r[i + 1];
      assert CompareByStatus(r[0], r[i + 1]) <= 0;
    }
  }

  lemma ConsConcat<T>(x: T, a: seq<T>, b: seq<T>, c: seq<T>)
    ensures ([x] + a) + b + c == [x] + (a + b + c)
  {
  }

  /** An active proposal in front of a grouped list keeps it grouped. */
  lemma GroupedConsActive(x: Proposal, rest: seq<Proposal>)
    requires rest == SortByStatus(rest) && x.status == Active
    ensures [x] + rest == SortByStatus([x] + rest)
  {
    var a, p, c := WithStatus(rest, Active), WithStatus(rest, Pending), WithStatus(rest, Closed);
    FilterCons(x, rest, Active);
    FilterCons(x, rest, Pending);
    FilterCons(x, rest, Closed);
    ConsConcat(x, a, p, c);
  }

  /** A pending proposal in front of a grouped list with no active one keeps it grouped. */
  lemma GroupedConsPending(x: Proposal, rest: seq<Proposal>)
    requires rest == SortByStatus(rest) && x.status == Pending
    requires WithStatus(rest, Active) == []
    ensures [x] + rest == SortByStatus([x] + rest)
  {
    var a, p, c := WithStatus(rest, Active), WithStatus(rest, Pending), WithStatus(rest, Closed);
    FilterCons(x, rest, Active);
    FilterCons(x, rest, Pending);
    FilterCons(x, rest, Closed);
    ConsConcat(x, a, p, c);
  }

  /** A closed proposal in front of a grouped list of closed ones keeps it grouped. */
  lemma GroupedConsClosed(x: Proposal, rest: seq<Proposal>)
    requires rest == SortByStatus(rest) && x.status == Closed
    requires WithStatus(rest, Active) == [] && WithStatus(rest, Pending) == []
    ensures [x] + rest == SortByStatus([x] + rest)
  {
    var a, p, c := WithStatus(rest, Active), WithStatus(rest, Pending), WithStatus(rest, Closed);
    FilterCons(x, rest, Active);
    FilterCons(x, rest, Pending);
    FilterCons(x, rest, Closed);
    ConsConcat(x, a, p, c);
  }

  /** A list ordered by the comparator is its three status lists laid end to end. */
  lemma {:induction false} SortedIsGrouped(r: seq<Proposal>)
    requires SortedByStatus(r)
    ensures r == SortByStatus(r)
  {
    if r != [] {
      var x, rest := r[0], r[1..];
      assert r == [x] + rest;
      SortedTail(r);
      SortedIsGrouped(rest);
      match x.status
      case Active =>
        GroupedConsActive(x, rest);
      case Pending =>
        NoneWithStatus(rest, Active);
        GroupedConsPending(x, rest);
      case Closed =>
        NoneWithStatus(rest, Active);
        NoneWithStatus(rest, Pending);
        GroupedConsClosed(x, rest);
    }
  }

  /** `SortByStatus` is the only ordering a stable sort with this comparator
      can produce: any list that is ordered by the comparator and keeps the
      fetched order within each status is equal to it. */
  lemma SortUnique(ps: seq<Proposal>, r: seq<Proposal>)
    requires SortedByStatus(r)
    requires WithStatus(r, Active) == WithStatus(ps, Active)
    requires WithStatus(r, Pending) == WithStatus(ps, Pending)
    requires WithStatus(r, Closed) == WithStatus(ps, Closed)
    ensures r == SortByStatus(ps)
  {
    SortedIsGrouped(r);
  }

  // ----- mapping raw records -----

  function MapCandidates(cs: seq<RawCandidate>): (r: seq<Candidate>)
    ensures |r| == |cs|
    ensures forall i :: 0 <= i < |cs| ==> r[i] == Candidate(Text.Decimal(cs[i].id), cs[i].name)
  {
    seq(|cs|, i requires 0 <= i < |cs| => Candidate(Text.Decimal(cs[i].id), cs[i].name))
  }

  /** Candidate ids the ledger keeps distinct stay distinct as strings. */
  lemma MapCandidatesKeepsIdsDistinct(cs: seq<RawCandidate>)
    requires forall i, j :: 0 <= i < j < |cs| ==> cs[i].id != cs[j].id
    ensures forall i, j :: 0 <= i < j < |cs| ==> MapCandidates(cs)[i].id != MapCandidates(cs)[j].id
  {
    forall i, j | 0 <= i < j < |cs| ensures MapCandidates(cs)[i].id != MapCandidates(cs)[j].id {
      Text.DecimalInjective(cs[i].id, cs[j].id);
    }
  }

  /** The largest magnitude, in milliseconds, that a `Date` can hold; beyond
      it `toISOString()` throws a `RangeError`. */
  const MaxDateMillis := 8_640_000_000_000_000

  /** `new Date(Number(p.endTime) * 1000).toISOString()` returns. */
  predicate EndDateRepresentable(p: RawProposal)
  {
    -MaxDateMillis <= p.endTime * 1000 <= MaxDateMillis
  }

  /** The `Proposal` object built from a `proposals(i)` tuple and its candidates. */
  function MapProposal(p: RawProposal, cs: seq<RawCandidate>): (r: Proposal)
    ensures r.id == Text.Decimal(p.id) && r.status == MapStatus(p.status)
    ensures r.candidates == MapCandidates(cs)
    ensures r.endDate == p.endTime * 1000
    ensures r.title == p.title && r.description == p.description && r.creator == p.creator
    ensures r.durationDays == p.durationDays && r.zkpConfiguration == p.zkpConfiguration
  {
    Proposal(Text.Decimal(p.id), p.title, p.description, MapCandidates(cs), MapStatus(p.status),
             p.zkpConfiguration, p.creator, p.durationDays, p.endTime * 1000)
  }

  // ----- reads -----

  /** The replies of the read calls `getProposals` makes: `getProposalCount()`,
      and for index `i`, `proposals(i)` and `getProposalCandidates(i)`. `None`
      is a call that threw; an index past the end of a list also throws. */
  datatype LedgerReads = LedgerReads(
    count: Option<nat>,
    records: seq<Option<RawProposal>>,
    candidateLists: seq<Option<seq<RawCandidate>>>)

  function RecordAt(ledger: LedgerReads, i: nat): Option<RawProposal>
  {
    if i < |ledger.records| then ledger.records[i] else None
  }

  function CandidatesAt(ledger: LedgerReads, i: nat): Option<seq<RawCandidate>>
  {
    if i < |ledger.candidateLists| then ledger.candidateLists[i] else None
  }

  /** Both reads for index `i` return and its end date can be formatted. */
  predicate EntryReadable(ledger: LedgerReads, i: nat)
  {
    RecordAt(ledger, i).Some? && CandidatesAt(ledger, i).Some? && EndDateRepresentable(RecordAt(ledger, i).value)
  }

  /** Every read and every date formatting of `getProposals` returns. */
  predicate AllReadsReturn(ledger: LedgerReads)
  {
    ledger.count.Some? && forall i :: 0 <= i < ledger.count.value ==> EntryReadable(ledger, i)
  }

  function EntryAt(ledger: LedgerReads, i: nat): Proposal
    requires EntryReadable(ledger, i)
  {
    MapProposal(RecordAt(ledger, i).value, CandidatesAt(ledger, i).value)
  }

  /** The proposals in ledger order, before sorting. */
  function Fetched(ledger: LedgerReads): (r: seq<Proposal>)
    requires AllReadsReturn(ledger)
    ensures |r| == ledger.count.value
  {
    seq(ledger.count.value, i requires 0 <= i < ledger.count.value && AllReadsReturn(ledger) => EntryAt(ledger, i))
  }

  /** `getProposals`: read every record, map it, and sort; any failing read,
      or an end date that cannot be formatted, gives `[]`. */
  method GetProposals(ledger: LedgerReads) returns (ps: seq<Proposal>)
    ensures !AllReadsReturn(ledger) ==> ps == []
    ensures AllReadsReturn(ledger) ==> ps == SortByStatus(Fetched(ledger))
  {
    if ledger.count.None? {
      return [];
    }
    var count := ledger.count.value;
    var proposals: seq<Proposal> := [];
    var i := 0;
    while i < count
      invariant 0 <= i <= count
      invariant forall k :: 0 <= k < i ==> EntryReadable(ledger, k)
      invariant |proposals| == i
      invariant forall k :: 0 <= k < i ==> proposals[k] == EntryAt(ledger, k)
    {
      var p := RecordAt(ledger, i);
      if p.None? {
        assert !EntryReadable(ledger, i);
        return [];
      }
      var candidatesRaw := CandidatesAt(ledger, i);
      if candidatesRaw.None? {
        assert !EntryReadable(ledger, i);
        return [];
      }
      if !EndDateRepresentable(p.value) {
        assert !EntryReadable(ledger, i);
        return [];
      }
      proposals := proposals + [MapProposal(p.value, candidatesRaw.value)];
      i := i + 1;
    }
    assert proposals == Fetched(ledger);
    ps := SortByStatus(proposals);
  }

  /** The default record the ledger returns for an id it has never assigned. */
  predicate IsEmptySlot(p: RawProposal)
  {
    p.id == 0 && p.title == ""
  }

  /** `getProposalById`: `record` is the reply to `proposals(id)` and
      `candidates` the reply to `getProposalCandidates(id)`, which is asked only
      for a record that is not an empty slot. An end date that cannot be
      formatted throws inside the `try`, which also gives `undefined`. */
  function ProposalById(record: Option<RawProposal>, candidates: Option<seq<RawCandidate>>): (r: Option<Proposal>)
    ensures r.None? <==> record.None? || IsEmptySlot(record.value) || candidates.None?
                         || !EndDateRepresentable(record.value)
    ensures r.Some? ==> r.value.id == Text.Decimal(record.value.id)
    ensures r.Some? ==> r.value.title == record.value.title
    ensures r.Some? ==> r.value.durationDays == record.value.durationDays
    ensures r.Some? ==> |r.value.candidates| == |candidates.value|
    ensures r.Some? ==> forall i :: 0 <= i < |candidates.value| ==>
              r.value.candidates[i].name == candidates.value[i].name
    ensures r.Some? ==> r.value == MapProposal(record.value, candidates.value)
  {
    if record.None? then None
    else if IsEmptySlot(record.value) then None
    else if candidates.None? then None
    else if !EndDateRepresentable(record.value) then None
    else Some(MapProposal(record.value, candidates.value))
  }

  /** A single record whose end time lies past the `Date` range hides every
      proposal from `getProposals` and makes `getProposalById` find nothing,
      while one at the edge of the range is still listed. */
  lemma UnrepresentableEndDateHidesAll(p: RawProposal, cs: seq<RawCandidate>)
    requires !IsEmptySlot(p)
    ensures p.endTime == 8_640_000_000_001 ==>
              !AllReadsReturn(LedgerReads(Some(1), [Some(p)], [Some(cs)])) && ProposalById(Some(p), Some(cs)).None?
    ensures p.endTime == 8_640_000_000_000 ==>
              AllReadsReturn(LedgerReads(Some(1), [Some(p)], [Some(cs)])) && ProposalById(Some(p), Some(cs)).Some?
  {
    var ledger := LedgerReads(Some(1), [Some(p)], [Some(cs)]);
    assert RecordAt(ledger, 0) == Some(p) && CandidatesAt(ledger, 0) == Some(cs);
    if p.endTime == 8_640_000_000_001 {
      assert !EntryReadable(ledger, 0);
    }
  }

  /** `getProposalResults`: the ledger's tallies, or `[]` if the read throws. */
  function ProposalResults(reply: Option<seq<RawResult>>): (r: seq<ResultEntry>)
    ensures reply.None? ==> r == []
    ensures reply.Some? ==> |r| == |reply.value|
    ensures reply.Some? ==> forall i :: 0 <= i < |r| ==>
              r[i].name == reply.value[i].name && r[i].votes == reply.value[i].voteCount && r[i].candidateId == ""
  {
    match reply
    case None => []
    case Some(rs) => seq(|rs|, i requires 0 <= i < |rs| => ResultEntry("", rs[i].name, rs[i].voteCount))
  }

  /** `hasVoted`: the ledger's answer, or `false` if the read throws. */
  function HasVoted(reply: Option<bool>): (r: bool)
    ensures r <==> reply == Some(true)
  {
    match reply
    case None => false
    case Some(b) => b
  }

  // ----- writes -----

  const WalletNotConnected := "Wallet not connected"
  const UnexpectedError := "An unexpected error occurred."

  /** `error.message || fallback`. */
  function MessageOr(f: Failure, fallback: string): string
  {
    if f.message != "" then f.message else fallback
  }

  /** The message `castVote` and `cancelProposal` report for a thrown error. */
  function ReasonMessage(f: Failure): (m: string)
    ensures f.reason.None? ==> m == UnexpectedError
    ensures f.reason == Some("") ==> m == UnexpectedError
    ensures f.reason.Some? && f.reason.value != "" ==> m == "Transaction failed: " + f.reason.value
  {
    if f.reason.Some? && f.reason.value != "" then "Transaction failed: " + f.reason.value
    else UnexpectedError
  }

  /** Submit one transaction and await it. `onError` turns the thrown error
      into the reported message. */
  function Transact(call: Call, tx: TxReply, done: string, onError: Failure -> string): (r: Traced<WriteResult>)
    ensures r.value.success <==> tx == Returned(Confirmed)
    ensures r.value.success ==> r.calls == [call, AwaitTx] && r.value.message == done
    ensures tx.Threw? ==> r.calls == [call] && r.value.message == onError(tx.failure)
    ensures tx.Returned? ==> r.calls == [call, AwaitTx]
    ensures tx.Returned? && tx.value.Reverted? ==> r.value.message == onError(tx.value.failure)
  {
    match tx
    case Threw(f) => Traced(WriteResult(false, onError(f)), [call])
    case Returned(Reverted(f)) => Traced(WriteResult(false, onError(f)), [call, AwaitTx])
    case Returned(Confirmed) => Traced(WriteResult(true, done), [call, AwaitTx])
  }

  /** The transaction `createProposal` submits; the draft's creator is not part of it. */
  function CreateCall(d: ProposalDraft, zkp: Option<string>): Call
  {
    CreateProposalTx(d.title, d.description, d.candidates, d.durationDays,
                     match zkp case Some(z) => z case None => "")
  }

  /** `createProposal`, with `signer` the connected account, if any, and `tx`
      the ledger's reply to the transaction. */
  function CreateProposal(d: ProposalDraft, zkp: Option<string>, signer: Option<string>, tx: TxReply): (r: Traced<WriteResult>)
    ensures signer.None? ==> r == Traced(WriteResult(false, WalletNotConnected), [])
    ensures r.value.success <==> signer.Some? && tx == Returned(Confirmed)
    ensures signer.Some? ==> |r.calls| >= 1 && r.calls[0] == CreateCall(d, zkp)
    ensures r.value.success ==> r.calls[|r.calls| - 1] == AwaitTx
    ensures r.value.success ==> r.value.message == "Proposal created successfully!"
    ensures signer.Some? && tx.Threw? ==> r.value.message == MessageOr(tx.failure, UnexpectedError)
    ensures signer.Some? && tx.Returned? && tx.value.Reverted? ==>
              r.value.message == MessageOr(tx.value.failure, UnexpectedError)
  {
    if signer.None? then Traced(WriteResult(false, WalletNotConnected), [])
    else Transact(CreateCall(d, zkp), tx, "Proposal created successfully!",
                  f => MessageOr(f, UnexpectedError))
  }

  /** `castVote`. */
  function CastVote(proposalId: string, candidateId: string, signer: Option<string>, tx: TxReply): (r: Traced<WriteResult>)
    ensures signer.None? ==> r == Traced(WriteResult(false, UnexpectedError), [])
    ensures r.value.success <==> signer.Some? && tx == Returned(Confirmed)
    ensures signer.Some? ==> |r.calls| >= 1 && r.calls[0] == VoteTx(proposalId, candidateId)
    ensures r.value.success ==> r.calls[|r.calls| - 1] == AwaitTx
    ensures r.value.success ==> r.value.message == "Your vote has been cast successfully!"
    ensures signer.Some? && tx.Threw? ==> r.value.message == ReasonMessage(tx.failure)
    ensures signer.Some? && tx.Returned? && tx.value.Reverted? ==> r.value.message == ReasonMessage(tx.value.failure)
  {
    if signer.None? then Traced(WriteResult(false, UnexpectedError), [])
    else Transact(VoteTx(proposalId, candidateId), tx, "Your vote has been cast successfully!", ReasonMessage)
  }

  /** `updateProposalStatus`. `lookup` is what `getProposalById(id)` returns
      when it is asked (only for `Active`). */
  function UpdateProposalStatus(id: string, status: Status, signer: Option<string>,
                                lookup: Option<Proposal>, tx: TxReply): (r: Traced<bool>)
    ensures signer.None? ==> r == Traced(false, [])
    ensures r.value <==> signer.Some? && tx == Returned(Confirmed)
                         && (status == Closed || (status == Active && lookup.Some?))
    ensures r.value && status == Active ==>
              r.calls == [LookupProposal(id), StartProposalTx(id, lookup.value.durationDays), AwaitTx]
    ensures r.value && status == Closed ==> r.calls == [CloseProposalTx(id), AwaitTx]
    ensures status == Pending ==> r.calls == []
  {
    if signer.None? then Traced(false, [])
    else match status
      case Active =>
        (match lookup
         case None => Traced(false, [LookupProposal(id)])
         case Some(p) =>
           var t := Transact(StartProposalTx(id, p.durationDays), tx, "", ReasonMessage);
           Traced(t.value.success, [LookupProposal(id)] + t.calls))
      case Closed =>
        var t := Transact(CloseProposalTx(id), tx, "", ReasonMessage);
        Traced(t.value.success, t.calls)
      case Pending => Traced(false, [])
  }

  const NotAuthorized := "You are not authorized to cancel this proposal."

  /** `cancelProposal`: the connected account must match `creatorAddress`
      ignoring case before anything is sent. */
  function CancelProposal(id: string, creatorAddress: string, signer: Option<string>, tx: TxReply): (r: Traced<WriteResult>)
    ensures signer.None? ==> r == Traced(WriteResult(false, UnexpectedError), [])
    ensures signer.Some? && !Text.SameIgnoringCase(signer.value, creatorAddress) ==>
              r == Traced(WriteResult(false, NotAuthorized), [])
    ensures r.calls != [] ==> signer.Some? && Text.SameIgnoringCase(signer.value, creatorAddress)
                              && r.calls[0] == CancelProposalTx(id)
    ensures r.value.success <==> signer.Some? && Text.SameIgnoringCase(signer.value, creatorAddress)
                                 && tx == Returned(Confirmed)
    ensures r.value.success ==> r.value.message == "Proposal cancelled successfully."
    ensures signer.Some? && Text.SameIgnoringCase(signer.value, creatorAddress) ==>
              && (tx.Threw? ==> r.value.message == ReasonMessage(tx.failure))
              && (tx.Returned? && tx.value.Reverted? ==> r.value.message == ReasonMessage(tx.value.failure))
  {
    if signer.None? then Traced(WriteResult(false, UnexpectedError), [])
    else if !Text.SameIgnoringCase(signer.value, creatorAddress) then Traced(WriteResult(false, NotAuthorized), [])
    else Transact(CancelProposalTx(id), tx, "Proposal cancelled successfully.", ReasonMessage)
  }

  /** No write function sends anything while no wallet is connected. */
  lemma NoSignerNoCalls(d: ProposalDraft, zkp: Option<string>, id: string, candidateId: string,
                        creatorAddress: string, status: Status, lookup: Option<Proposal>, tx: TxReply)
    ensures CreateProposal(d, zkp, None, tx).calls == []
    ensures CastVote(id, candidateId, None, tx).calls == []
    ensures UpdateProposalStatus(id, status, None, lookup, tx).calls == []
    ensures CancelProposal(id, creatorAddress, None, tx).calls == []
  {
  }

  /** A write succeeds only once its transaction has been awaited and confirmed. */
  lemma SuccessFollowsConfirmation(d: ProposalDraft, zkp: Option<string>, id: string, candidateId: string,
                                   creatorAddress: string, status: Status, lookup: Option<Proposal>,
                                   signer: Option<string>, tx: TxReply)
    requires tx != Returned(Confirmed)
    ensures !CreateProposal(d, zkp, signer, tx).value.success
    ensures !CastVote(id, candidateId, signer, tx).value.success
    ensures !UpdateProposalStatus(id, status, signer, lookup, tx).value
    ensures !CancelProposal(id, creatorAddress, signer, tx).value.success
  {
  }
}
