# BlockVote, modelled in Dafny

BlockVote is a web front end for a voting contract on a blockchain. Users see
active and past proposals. They vote Yes or No on two-option proposals and
submit Yes/No proposals of their own, and on their profile page they cancel
their pending ones. An administrator behind a password creates proposals with
any number of candidates. A configuration assistant is asked for a
zero-knowledge-proof configuration that is stored with each new proposal.

This project models the application's own logic:

- the ledger client `src/lib/data.ts`: how raw records are mapped, how the list is ordered, how read failures fall back to defaults, and the guarded write calls;
- the proposal cards;
- the two creation forms and the server actions behind them;
- the three pages.

The contract and the assistant are outside the model. Every reply they can
give is a parameter:

- `Option` is a read that returned or threw;
- `Outcome<Confirmation>` is a transaction that was submitted and awaited;
- `Outcome<string>` is the assistant's configuration.

Every write function returns the calls it issued (`Traced`). Lemmas can
therefore say what is sent, and what is never sent.

Modules, one per source file, plus two shared ones:

| module | file |
|---|---|
| `Wrappers` | `Option` |
| `Text` | ASCII `toLowerCase`, the UTF-16 `.length` that the form schemas limit, the decimal rendering of ledger integers and its inverse, and the first match that `find` returns |
| `Types` | the records of `src/lib/types.ts`, the raw ledger tuples, the collaborators' replies and the call trace |
| `Data` | `src/lib/data.ts` |
| `PastProposalCard` | `src/app/past-proposal-card-content.tsx` |
| `ProposalCardActions` | `src/app/proposal-card-actions.tsx` |
| `CreateElectionForm` | `src/app/admin/create-election-form.tsx` |
| `ProposalForm` | `src/app/propose/proposal-form.tsx` |
| `AdminActions` | `src/app/admin/actions.ts` |
| `ProfilePage` | `src/app/profile/page.tsx` |
| `HomePage` | `src/app/page.tsx` |
| `AdminPage` | `src/app/admin/page.tsx` |

Code that changes state step by step takes the imperative form:

- `getProposals` is a method with the source's loop;
- the countdown, the vote controls, both creation forms and the admin gate are classes whose methods change their fields.

The rest is functions and lemmas. The validation schemas are the predicates `CreateElectionForm.IsValidElection` and `ProposalForm.IsValidProposal`. The one "sort" is the engine's stable `Array.prototype.sort`. It is modelled by its result, `Data.SortByStatus`: the active, pending and closed proposals in fetched order. `Data.SortUnique` proves this is the only stable ordering the comparator allows.

In one place the model follows the intended behaviour rather than the code as written: the Yes/No positional fallback in `proposal-card-actions.tsx`. It is explained under "Findings". The code as written is modelled beside the correction.

## Model

| member | source | states |
|---|---|---|
| Text.Lower | src/app/past-proposal-card-content.tsx:16-17 | lower-casing keeps the length, sends each ASCII capital to its own small letter (code plus 32), leaves every other character alone, and leaves no ASCII capital |
| Text.LowerIdempotent | src/app/past-proposal-card-content.tsx:16-17 | lower-casing an already lower-cased name changes nothing |
| Text.Utf16Length | src/app/admin/create-election-form.tsx:34-37 | the `.length` that zod's `.min` checks: between one and two code units per character, and zero only for the empty string |
| Text.Utf16LengthOfBmp | src/app/propose/proposal-form.tsx:37-40 | a string without characters beyond the Basic Multilingual Plane has one code unit per character |
| Text.NamesYesIffCaseVariant | src/app/past-proposal-card-content.tsx:16 | a name matches "yes" after lower-casing iff it is one of the eight case spellings of "yes" |
| Text.YesIsNotNo | src/app/past-proposal-card-content.tsx:16-17 | no name matches both "yes" and "no" |
| Text.SameIgnoringCaseIsEquivalence | src/lib/data.ts:203 | the case-insensitive address comparison is reflexive, symmetric and transitive |
| Text.Decimal | src/lib/data.ts:28 | an id is rendered as a non-empty string of digits with no leading zero unless it is "0" |
| Text.ParseDecimalOfDecimal | src/lib/data.ts:35 | reading the rendered numeral back gives the ledger integer again |
| Text.DecimalInjective | src/lib/data.ts:35 | distinct ledger ids become distinct string ids |
| Text.FirstNamed | src/app/proposal-card-actions.tsx:62-63 | the index of the first entry whose name matches the word; nothing iff no entry matches |
| Data.MapStatus | src/lib/data.ts:5-16 | code 1 is active, 2 is closed, and every other code (including 0) is pending |
| Data.StatusCode | src/lib/data.ts:5-16 | every status has a code in 0..2 that `MapStatus` maps back to it |
| Data.CompareByStatus | src/lib/data.ts:48-54 | the comparator returns -1, 0 or 1 and is negative, zero or positive exactly as active < pending < closed orders the two statuses |
| Data.ComparatorConsistent | src/lib/data.ts:48-54 | the comparator is antisymmetric, zero only on equal statuses, and transitive |
| Data.WithStatus | src/lib/data.ts:47-54 | the proposals of one status in their original order, never longer than the input |
| Data.WithStatusMembers | src/lib/data.ts:47-54 | one status's list holds exactly the proposals of that status |
| Data.WithStatusConcat | src/lib/data.ts:47-54 | filtering by status commutes with concatenation, so order is kept |
| Data.WithStatusTwice | src/lib/data.ts:47-54 | filtering twice by the same status changes nothing more; by two different statuses leaves nothing |
| Data.StatusPartition | src/lib/data.ts:47-54 | the three status lists together hold every proposal exactly as often as the input |
| Data.SortByStatus | src/lib/data.ts:48-54 | the sort's result: the active, pending and closed proposals laid end to end, with as many proposals as the input |
| Data.SortIsOrdered | src/lib/data.ts:48-54 | the sorted list is ordered by the comparator |
| Data.SortPermutes | src/lib/data.ts:48 | sorting is a permutation of the fetched list |
| Data.SortIsStable | src/lib/data.ts:48-54 | within one status the sorted list keeps the fetched order |
| Data.NoneWithStatus | src/lib/data.ts:47-54 | a list with no proposal of a status has an empty list for it |
| Data.SortedIsGrouped | src/lib/data.ts:48-54 | a list ordered by the comparator is its active, pending and closed lists laid end to end |
| Data.SortUnique | src/lib/data.ts:48-54 | any ordered list with the same per-status lists as the fetched one equals the modelled sort result |
| Data.MapCandidates | src/lib/data.ts:27-32 | each raw candidate becomes a candidate with the decimal id and the same name, in the same order |
| Data.MapCandidatesKeepsIdsDistinct | src/lib/data.ts:27-29 | distinct ledger candidate ids stay distinct after mapping |
| Data.MapProposal | src/lib/data.ts:34-44 | the record's id is rendered in decimal, the status is read with `MapStatus`, candidates are mapped, and the end time is converted from seconds to milliseconds |
| Data.GetProposals | src/lib/data.ts:18-59 | if every read returns and every end date can be formatted, the result is the mapped records in ledger order, sorted by status; if any read throws, or any end time lies outside the `Date` range so that `toISOString` throws, the result is the empty list |
| Data.ProposalById | src/lib/data.ts:61-91 | nothing iff a read throws, the record is the empty slot (id 0 and empty title), or its end time lies outside the `Date` range; otherwise exactly `MapProposal` of the record and its candidates: decimal id, mapped status and candidates, millisecond end date and every other field kept |
| Data.ProposalResults | src/lib/data.ts:141-154 | the tallies with names and vote counts kept and an empty candidate id, or the empty list if the read throws |
| Data.HasVoted | src/lib/data.ts:157-165 | true exactly when the ledger answers true; a failed read is false |
| Data.ReasonMessage | src/lib/data.ts:133-136 | a non-empty revert reason is reported as "Transaction failed: " followed by the reason; a missing or empty reason as the unexpected-error message |
| Data.UnrepresentableEndDateHidesAll | src/lib/data.ts:41 | one record ending at 8,640,000,000,001 seconds empties the whole list and is not found by id, while 8,640,000,000,000 seconds is still listed |
| Data.Transact | src/lib/data.ts:106-114 | a write succeeds iff the submission returns and its wait confirms; the wait is issued only after a returned submission; a thrown submission or a reverted wait reports the error handler's message for that failure |
| Data.CreateProposal | src/lib/data.ts:93-119 | without a wallet nothing is sent and "Wallet not connected" is reported; otherwise the create transaction comes first, success means a confirmed wait and reports "Proposal created successfully!", and a thrown or reverted transaction reports the error's message, or the unexpected-error message when it has none |
| Data.CastVote | src/lib/data.ts:122-138 | without a wallet nothing is sent; otherwise the vote transaction for the given ids comes first, success means a confirmed wait and reports the cast message, and a thrown or reverted transaction reports `ReasonMessage` of its error |
| Data.UpdateProposalStatus | src/lib/data.ts:167-192 | success needs a wallet and a confirmed transaction. Starting first looks the proposal up and sends its stored duration; a missing proposal fails. Closing sends the close call. Pending sends nothing |
| Data.CancelProposal | src/lib/data.ts:194-220 | nothing is sent unless the wallet matches the creator address ignoring case; a mismatch reports "not authorized"; success means a confirmed wait and reports the cancelled message; a thrown or reverted transaction reports `ReasonMessage` of its error |
| Data.NoSignerNoCalls | src/lib/data.ts:102-103 | no write function issues any call while no wallet is connected |
| Data.SuccessFollowsConfirmation | src/lib/data.ts:113-114 | no write function reports success unless its transaction was confirmed |
| PastProposalCard.IsYesNoProposal | src/app/past-proposal-card-content.tsx:14-17 | `isTwoOption`: a Yes/No proposal has exactly two candidates, and their names differ |
| PastProposalCard.YesNoProposalByPosition | src/app/past-proposal-card-content.tsx:14-17 | a Yes/No proposal has two candidates, one matching "yes" and the other "no", in either order |
| PastProposalCard.VotesNamed | src/app/past-proposal-card-content.tsx:35-36 | the votes of the first entry whose name matches the word, or 0 when none does |
| PastProposalCard.WinnerOf | src/app/past-proposal-card-content.tsx:37 | Yes iff more yes votes, No iff more no votes, Tie iff equal |
| PastProposalCard.WinnerSymmetric | src/app/past-proposal-card-content.tsx:37 | swapping the two counts swaps Yes and No and keeps Tie |
| PastProposalCard.FailedReadShowsTie | src/app/past-proposal-card-content.tsx:34-37 | the empty results a failed read yields show a tie |
| PastProposalCard.ResultsKey | src/app/past-proposal-card-content.tsx:19-23 | results are requested iff the proposal is closed and Yes/No, under its id |
| PastProposalCard.FallbackLabel | src/app/past-proposal-card-content.tsx:76 | "View Results" exactly for a closed proposal, "View Proposal" otherwise |
| PastProposalCard.CardBodyFor | src/app/past-proposal-card-content.tsx:25-81 | spinner iff results are requested and loading; verdict iff requested, loaded and present, showing the winner; otherwise the option count, duration and link label |
| ProposalCardActions.TimeLeftAt | src/app/proposal-card-actions.tsx:25-35 | "Voting ended" iff no time remains; otherwise days, hours under 24 and minutes under 60 that account for the remaining time to within one minute |
| ProposalCardActions.Countdown.constructor | src/app/proposal-card-actions.tsx:16-17 | the countdown starts with no text and its interval running |
| ProposalCardActions.Countdown.Tick | src/app/proposal-card-actions.tsx:19-36 | one tick shows the time left at that moment, and the interval stops exactly when voting has ended |
| ProposalCardActions.Total | src/app/proposal-card-actions.tsx:68 | the `reduce` sum of the votes, zero exactly when no entry has a vote |
| ProposalCardActions.EntryAtMostTotal | src/app/proposal-card-actions.tsx:68 | no entry has more votes than the total |
| ProposalCardActions.TwoEntriesAtMostTotal | src/app/proposal-card-actions.tsx:68 | two different entries together have at most the total |
| ProposalCardActions.TotalOfTwo | src/app/proposal-card-actions.tsx:68 | the total of two entries is their sum |
| ProposalCardActions.Percent | src/app/proposal-card-actions.tsx:69-70 | 0 for an empty total; otherwise the exact share times 100, between 0 and 100 when the votes are within the total |
| ProposalCardActions.PercentAdds | src/app/proposal-card-actions.tsx:69-70 | shares of one total add as their vote counts do |
| ProposalCardActions.PercentOfWhole | src/app/proposal-card-actions.tsx:69-70 | the whole total is 100 percent |
| ProposalCardActions.PicksAsWritten | src/app/proposal-card-actions.tsx:62-66 | the code as written: the first "yes" entry or position 0, and the first "no" entry or position 1 |
| ProposalCardActions.PicksAsWrittenCollide | src/app/proposal-card-actions.tsx:62-66 | the code as written picks the same entry for both sides for ["No","Maybe"] and for ["Maybe","Yes"] |
| ProposalCardActions.YesNoPicks | src/app/proposal-card-actions.tsx:62-66 | the corrected picks are two distinct positions; a matching name always wins; with no match they are positions 0 and 1 |
| ProposalCardActions.YesNoPicksAgreeWhenDistinct | src/app/proposal-card-actions.tsx:62-66 | the correction agrees with the code as written wherever its picks are already distinct |
| ProposalCardActions.ResultsDisplay | src/app/proposal-card-actions.tsx:50-86 | placeholder iff fewer than two results; otherwise yes and no counts from the picked entries, the total, shares within 0..100 that never add up to more than 100, and exactly 100 for two entries with votes |
| ProposalCardActions.AsWrittenDisplayDoubleCounts | src/app/proposal-card-actions.tsx:62-70 | with the code as written, results No:5, Maybe:0 show 100% on both bars |
| ProposalCardActions.VoteTargets | src/app/proposal-card-actions.tsx:137-138 | the Yes and No buttons vote for the ids of the corrected picks |
| ProposalCardActions.VoteTargetsDistinct | src/app/proposal-card-actions.tsx:137-138 | for two candidates with different ids, the two buttons vote for different candidates |
| ProposalCardActions.AsWrittenButtonsCollide | src/app/proposal-card-actions.tsx:137-138 | with the code as written, both buttons of a ["No","Maybe"] proposal vote for "No" |
| ProposalCardActions.CardViewFor | src/app/proposal-card-actions.tsx:116-179 | skeleton iff the login provider is not ready; the voted panel iff a connected voter has voted, with results iff two candidates; vote buttons iff two candidates otherwise; else the view-and-vote link |
| ProposalCardActions.HasVotedKey | src/app/proposal-card-actions.tsx:96-99 | the has-voted query runs iff a voter address is known, keyed by proposal and address |
| ProposalCardActions.VoteEffectFor | src/app/proposal-card-actions.tsx:101-107 | without a voter address a click asks for login; otherwise it casts the vote for that proposal, candidate and address |
| ProposalCardActions.VoteControls.constructor | src/app/proposal-card-actions.tsx:90-91 | no vote is pending and no error is shown at first |
| ProposalCardActions.VoteControls.HandleVote | src/app/proposal-card-actions.tsx:101-107 | a click has the effect above and starts pending exactly when a vote is sent |
| ProposalCardActions.VoteControls.VoteSettled | src/app/proposal-card-actions.tsx:107-113 | the reply ends pending, revalidates on success and otherwise keeps its message as the error |
| CreateElectionForm.IsValidElection | src/app/admin/create-election-form.tsx:31-46 | the schema, counting UTF-16 code units: whatever passes has a title of at least 3 characters, a description of at least 5, and no empty candidate name |
| CreateElectionForm.Defaults | src/app/admin/create-election-form.tsx:62-67 | the defaults hold two candidate rows and a seven-day duration |
| CreateElectionForm.DefaultsRejected | src/app/admin/create-election-form.tsx:31-46 | the untouched defaults fail the schema, since both names are empty |
| CreateElectionForm.FilledDefaultsAccepted | src/app/admin/create-election-form.tsx:31-46 | a long enough title and description with two non-empty names pass the schema |
| CreateElectionForm.AppendEntry | src/app/admin/create-election-form.tsx:188 | adding a candidate appends one empty row and keeps the others |
| CreateElectionForm.RemoveEntry | src/app/admin/create-election-form.tsx:178-179 | removal does nothing at two rows or fewer; otherwise it drops exactly the chosen row |
| CreateElectionForm.RenameEntry | src/app/admin/create-election-form.tsx:161-172 | typing into a row changes that row only |
| CreateElectionForm.EditsKeepTwoCandidates | src/app/admin/create-election-form.tsx:178-188 | no sequence of edits takes the list below two rows |
| CreateElectionForm.EditsFromDefaultsKeepTwoCandidates | src/app/admin/create-election-form.tsx:65 | from the defaults a form always has at least two candidate rows |
| CreateElectionForm.DraftFor | src/app/admin/create-election-form.tsx:77 | the action receives the form's title, description, candidates and duration, with the creator "0xAdmin" |
| CreateElectionForm.SubmitEffect | src/app/admin/create-election-form.tsx:75-77 | a draft is sent iff nothing is pending and the values pass the schema |
| CreateElectionForm.ElectionForm.constructor | src/app/admin/create-election-form.tsx:53-68 | the form starts at the defaults, not pending, with no result |
| CreateElectionForm.ElectionForm.AppendCandidate | src/app/admin/create-election-form.tsx:188 | appends a row and keeps at least two rows |
| CreateElectionForm.ElectionForm.RemoveCandidate | src/app/admin/create-election-form.tsx:178-179 | removes a row only above two and keeps at least two rows |
| CreateElectionForm.ElectionForm.RenameCandidate | src/app/admin/create-election-form.tsx:161-172 | renames one row |
| CreateElectionForm.ElectionForm.EditDetails | src/app/admin/create-election-form.tsx:99-153 | edits the title, description and duration, leaving the candidates alone |
| CreateElectionForm.ElectionForm.Submit | src/app/admin/create-election-form.tsx:75-77 | sends the draft as `SubmitEffect` says and becomes pending exactly when it does |
| CreateElectionForm.ElectionForm.Settle | src/app/admin/create-election-form.tsx:78-83 | records the response, ends pending, and resets to the defaults only on success |
| ProposalForm.IsValidProposal | src/app/propose/proposal-form.tsx:34-42 | the schema, counting UTF-16 code units: whatever passes has a title of at least 3 characters and a description of at least 5 |
| ProposalForm.Defaults | src/app/propose/proposal-form.tsx:57-61 | the defaults fail the schema and have a seven-day duration |
| ProposalForm.TitleLimitCountsCodeUnits | src/app/propose/proposal-form.tsx:34-41 | the length limits count UTF-16 code units: three astral characters make a valid title, three letters do not |
| ProposalForm.DraftFor | src/app/propose/proposal-form.tsx:70-74 | the draft carries the values, the candidates "Yes" and "No", and the wallet as creator |
| ProposalForm.DraftIsYesNo | src/app/propose/proposal-form.tsx:72 | a proposal created from this form is a Yes/No proposal as the cards recognise one |
| ProposalForm.SubmitEffectFor | src/app/propose/proposal-form.tsx:84-91 | login is requested iff the ready button is pressed while logged out; a draft is sent iff ready, logged in, valid and a wallet is known |
| ProposalForm.SentDraftNamesWallet | src/app/propose/proposal-form.tsx:67-74 | a sent draft always names the connected wallet as creator |
| ProposalForm.BannerFor | src/app/propose/proposal-form.tsx:179-199 | no banner before a result; the success panel iff the result succeeded; otherwise its error |
| ProposalForm.ProposalFormState.constructor | src/app/propose/proposal-form.tsx:48-62 | the form starts at the defaults, not pending, with no result |
| ProposalForm.ProposalFormState.Edit | src/app/propose/proposal-form.tsx:104-158 | editing sets the values only |
| ProposalForm.ProposalFormState.Submit | src/app/propose/proposal-form.tsx:84-91 | a press has the effect above and becomes pending exactly when a draft is sent |
| ProposalForm.ProposalFormState.Settle | src/app/propose/proposal-form.tsx:75-80 | records the response, ends pending, and resets only on success |
| AdminActions.CreateProposalAction | src/app/admin/actions.ts:7-46 | fewer than two candidates are refused with no call; otherwise the assistant is asked first; its failure is reported with its message; a ledger failure is reported with the ledger's message; success iff the assistant answers and the ledger write is confirmed, returning the configuration |
| AdminActions.CreationSendsDraftWithConfiguration | src/app/admin/actions.ts:24-28 | the ledger transaction carries the draft's fields and the assistant's configuration |
| AdminActions.CreatorIgnored | src/app/admin/actions.ts:28 | the draft's creator changes nothing that is sent or returned |
| AdminActions.LedgerAfterAssistant | src/app/admin/actions.ts:24-28 | every call to the ledger comes after the assistant was asked |
| AdminActions.StartProposalAction | src/app/admin/actions.ts:49-63 | success iff starting the proposal succeeded, with the started or failed message |
| AdminActions.StopProposalAction | src/app/admin/actions.ts:65-79 | success iff a wallet is connected and the close transaction is confirmed, with the stopped or failed message |
| AdminActions.StartUsesStoredDuration | src/lib/data.ts:177-180 | starting a proposal that exists succeeds iff confirmed and sends its stored duration; a proposal that cannot be found is not started |
| ProfilePage.CreatedBy | src/app/profile/page.tsx:113-114 | the filter on the creator: never longer than the input, and every kept proposal has exactly that creator |
| ProfilePage.CreatedByMembers | src/app/profile/page.tsx:113-114 | the user's list holds exactly the fetched proposals whose creator equals the wallet |
| ProfilePage.CreatedByKeepsAll | src/app/profile/page.tsx:113-114 | if every proposal is the user's, the list is the whole fetched list in order |
| ProfilePage.CreatedByConcat | src/app/profile/page.tsx:113-114 | the filter keeps the fetched order: filtering a concatenation concatenates the filtered parts |
| ProfilePage.UserProposals | src/app/profile/page.tsx:113-114 | empty before the fetch or without a wallet; otherwise the proposals created by the wallet |
| ProfilePage.UserProposalsCaseSensitive | src/app/profile/page.tsx:113-114 | a creator that differs from the wallet, even only in case, is not listed |
| ProfilePage.ListsPartition | src/app/profile/page.tsx:116-118 | the active, pending and closed lists are disjoint, each holds exactly its status, and together they are `userProposals` |
| ProfilePage.ListsKeepOrder | src/app/profile/page.tsx:116-118 | each list keeps the order of `userProposals` |
| ProfilePage.ListShown | src/app/profile/page.tsx:60-62 | a list is rendered iff it holds a proposal |
| ProfilePage.CardFor | src/app/profile/page.tsx:83-101 | voting actions exactly for an active proposal, a cancel button exactly for a pending one, never both |
| ProfilePage.CancelOnlyInPendingList | src/app/profile/page.tsx:89-101 | a card with a cancel button is in the pending list and in no other |
| ProfilePage.CancelClick | src/app/profile/page.tsx:39-42 | no call without a wallet; otherwise the cancel action for that proposal and the wallet |
| ProfilePage.AfterCancel | src/app/profile/page.tsx:43-55 | the action's message is shown as a toast, destructive iff it failed; the list is revalidated iff it succeeded |
| ProfilePage.CancelFromProfileAuthorized | src/app/profile/page.tsx:42 | cancelling one of one's own listed proposals sends the wallet as the creator address; it succeeds iff the injected signer is that wallet up to case and the transaction is confirmed, any other signer is refused as not authorized with no call |
| ProfilePage.ProfileViewFor | src/app/profile/page.tsx:135-152 | loading while loading; the empty notice iff the user has no proposals; otherwise the three status lists |
| ProfilePage.SectionsNotAllHidden | src/app/profile/page.tsx:146-151 | when the sections are shown, at least one of them is rendered |
| HomePage.ActiveProposals | src/app/page.tsx:19-21 | exactly the proposals with status active |
| HomePage.PastProposals | src/app/page.tsx:22-24 | exactly the proposals with status closed |
| HomePage.PendingNotShown | src/app/page.tsx:19-24 | a pending proposal is on neither list, and no proposal is on both |
| HomePage.ListsKeepFetchedOrder | src/app/page.tsx:19-24 | a proposal appended to the fetched list lands at the end of its list |
| HomePage.ListsOfSortedFetch | src/app/page.tsx:18-24 | filtering the sorted list gives the ledger order within each list, and the active list is the head of the sorted list |
| HomePage.SectionFor | src/app/page.tsx:40-71 | a section shows its cards, or its empty-state message iff its list is empty |
| HomePage.EmptyMessageIffNoneWithStatus | src/app/page.tsx:40-98 | each empty-state message is shown iff no fetched proposal has that section's status |
| AdminPage.OpensIffPasswordGiven | src/app/admin/page.tsx:14-20 | after a series of submissions the gate is open iff it was open or one submission was exactly "password" |
| AdminPage.StaysOpen | src/app/admin/page.tsx:14-20 | once open, the gate stays open (a corollary of the previous row) |
| AdminPage.WrongPasswordsChangeNothing | src/app/admin/page.tsx:17-19 | wrong passwords leave the flag unchanged |
| AdminPage.ScreenFor | src/app/admin/page.tsx:27-31 | the creation form iff authenticated, the password prompt otherwise |
| AdminPage.AdminGate.constructor | src/app/admin/page.tsx:12 | the page starts unauthenticated |
| AdminPage.AdminGate.HandlePasswordSubmit | src/app/admin/page.tsx:14-20 | exactly "password" authenticates; anything else raises the alert and leaves the flag unchanged |

## Left out

- `src/lib/web3.ts` (the provider, the signer and the contract object) is not part of this model. Each contract call is a parameter holding its reply. `getSigner` is the free `signer` parameter. It is `None` outside a browser (`typeof window === 'undefined'`), without an injected provider, or when that provider lists no account (web3.ts:14-24).
- The write functions are reached only from `'use server'` modules (`src/app/admin/actions.ts:1`, `src/app/profile/actions.ts:1`, `src/app/election/[id]/actions.ts:1`). There `window` is undefined, so `getSigner` returns null. Deployed as written, every write therefore takes the `signer == None` branch and fails before any contract call (`Data.NoSignerNoCalls`). The model keeps `signer` free so that it also describes a call made in the browser.
- The signer's account and the Privy wallet the pages use are independent parameters. Nothing in the source makes them equal, and `ProfilePage.CancelFromProfileAuthorized` states the outcome for both a matching and a different signer.
- The configuration assistant (`src/ai/flows/anonymous-voting-assistance.ts`) is a foreign call. Its reply is a parameter, and what it generates is not modelled.
- The ledger's own state machine is not modelled. That covers which transitions the contract accepts, vote counting and double-vote prevention. Its answers arrive only as replies.
- The login provider's `ready`, `authenticated` and wallet are parameters. SWR caching, refresh intervals, `revalidatePath`, router navigation and timers are not modelled. For the countdown, a clock value is passed to each tick.
- The stored end date is the millisecond timestamp, not its ISO string. The formatting itself is not modelled. The one way it fails, a `RangeError` for a time beyond ±8.64e15 ms, is modelled (`Data.EndDateRepresentable`).
- `Number(...)` conversions are exact: unbounded integers stand in for BigInt and Number. Precision loss above 2^53 is not modelled.
- Percentages are exact reals. Floating-point rounding and the `Math.round` of the labels are not modelled. The countdown uses integer division, which equals the source's floor-of-float formula wherever floats are exact.
- `toLowerCase` is modelled on ASCII letters only. Other Unicode case mappings are not captured.
- Candidates' `imageUrl` and `imageHint`, console logging, toasts' styling and all markup are left out.
- `getProposalCandidates` in `data.ts` is left out. It is a legacy wrapper over `getProposalById`, and the core does not use it.
- `src/app/profile/actions.ts` only forwards the result of `cancelProposal` and refreshes caches. The profile page's lemma calls `Data.CancelProposal` directly.
- The server-side catch in `startProposalAction` and `stopProposalAction` ("An error occurred.") is not modelled. `updateProposalStatus` catches its own errors, so the only way into that catch is a `revalidatePath` call that throws after a success (admin/actions.ts:53-56, 69-72), and `revalidatePath` is not modelled.
- AdminActions.CreateProposalAction: the catch is modelled for the assistant's failure only. `createProposal` catches its own errors. The catch can also be entered after a confirmed write, when a `revalidatePath` call throws (admin/actions.ts:31-33). The source then reports `success: false` although the proposal was created. `revalidatePath` is not modelled, so neither is this path.
- ProfilePage.CardFor: the cancel button's `disabled={isPending}` is not modelled. Each list's pending flag lives in the list's own transition and has no effect on the values modelled.
- CreateElectionForm.SubmitEffect: `z.coerce.number()` is taken as already applied. The duration arrives as an integer from the three choices of the select.
- AdminPage.AdminGate.HandlePasswordSubmit: the browser's `required` check on the password field, which blocks an empty submission, is not modelled. An empty password is simply a wrong one.

## Findings

| source | as written | input that shows it | evidently intended | confidence | as-written member | corrected member |
|---|---|---|---|---|---|---|
| src/app/proposal-card-actions.tsx:62-66 | If no entry is named "yes", the Yes bar uses entry 0; if none is named "no", the No bar uses entry 1. The fallback ignores whether the other side already took that entry. | results No:5, Maybe:0 (or Maybe, Yes) | the two bars show two different entries, so their shares never add to more than 100% | not executed | ProposalCardActions.AsWrittenDisplayDoubleCounts | ProposalCardActions.ResultsDisplay |
| src/app/proposal-card-actions.tsx:137-138 | The same positional fallback picks the candidates the Yes and No buttons vote for. | candidates ["No", "Maybe"] | the two buttons vote for two different candidates | not executed | ProposalCardActions.AsWrittenButtonsCollide | ProposalCardActions.VoteTargetsDistinct |
