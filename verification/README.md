# SEVS, verified

A model of the secure e-voting back end under `Backend/src`, and proofs of what it keeps. The services
of the back end appear twice: as imperative methods on an object that holds the database tables, and as
functions from one database value to the next. Every method is proved equal to its function; the
theorems are about runs of the functions.

`System.dfy` puts the services together as a transition system. A run is any list of actions. Ballot
requests (`requestBallot`, nine steps) and approval votes (`castVote` of the approvals, four steps) are
split at each database call they await, so that any number of them interleave with one another and with
everything else; so are token refreshes and activations on the account side. Casting a vote, one
transaction, is one action, and the short services on elections, candidacies and registrations are
taken as one action each. Unless it says otherwise, a statement below holds after
every such run. `Atomic.dfy` is the coarser system in which every call is one step, and proves that
each of its runs is one of the interleaved runs. `SplitCalls.dfy` is the finer one in which the services
on elections and registrations check in one step and write in another; what of the statements on ballots,
votes, approvals and the log holds there in every run, and what only as long as no write has gone stale, is
in `WideSafety.dfy` and `WideQuorum.dfy`.

| files | subject |
|---|---|
| JsText, Json, JsonReading, JsonPrinting, Canonical, KeyOrder, Hashing | canonical JSON: how it is printed and read, in which order its keys stand, and what is hashed |
| HashChain, AuditLog | the audit chain: append, verify, tampering |
| Schema, Database | the tables, as a value and as an object |
| Elections, Verification, Candidates, Approvals, Ballots, Voting | the services |
| System, Moves, Evolution | the transition system, and what it never takes back |
| BallotSafety, OneVote, ClaimRace, Pointers, LostClaim, BallotBox, Roll, Choices | ballots and votes |
| Quorum, Tally, Verdicts, Outcomes | approval by two officers; when a decision stands, and what a vote is answered |
| Atomic, Journey | calls without interruption |
| Anonymity, Trail | what is published, and the audit log of whole runs |
| RowCalls, SplitCalls, WideSafety, WideQuorum | check and write of the short services as separate steps |
| Races, Runs | what the services do not prevent: after any run, and in runs from the empty database |
| Accounts, AccountStore, Sessions, Activation, Enrolment, Answers, AccountRuns | refresh tokens, activation codes, second factors |
| BulkImport | student import |

`dafny verify dfyconfig.toml` checks the project.

## What the proofs show about the code

Some promises of the documentation do not hold of the code. The model follows the code. Each case below
has a theorem for when the promise is kept, and a run from the empty database, or an input, that breaks it.

- One registration, one vote. The claim in `issueBallot` tests that the pointer is null and not that
  the registration has not participated. A registration votes at most once exactly if no ballot it
  used was claimed by a request that one of its own votes had overtaken (`ClaimRace.OneVoteIffNotRaced`);
  with calls that do not overlap it always votes at most once. Every student who may vote can produce
  the race (`Races.VoterCanVoteTwice`); `Runs.DoubleVote` is such a run.
- A token that was handed out can be used. A token leaves its registration only by a vote cast with it or
  by a `clearActiveToken` for the registration (`Pointers.PointerLeaves`), which clears whatever pointer
  it finds. A clear takes away a token that is unexpired at the time of its request exactly if another
  request claimed that token after this one had read the pointer (`Pointers.ClearTakesLiveIff`). A vote with
  a token that a request has returned goes through exactly if the token has not expired and nothing has
  taken it since its claim (`Pointers.ReturnedTokenWorksIff`). In `Runs.FreshTokenLost` a student is handed a
  token that is lost already.
- A double tap is a success. A request that loses its claim reads the registration again and returns the token
  it finds. That is the winner's token exactly if nothing has taken it in between, and an error exactly if the
  registration holds no token at that moment (`LostClaim.LoserReturnsWinner`).
- A decision stands. The verdict of a request is that of the vote that resolves it last
  (`Verdicts.LastVerdictStands`). A step changes a decision exactly if it resolves the decided request by a
  tally that said otherwise (`Verdicts.DecidedChangesIffStale`), and decisions stand exactly if no two votes
  resolve a request to different verdicts (`Verdicts.StandsIffUnanimous`). Without overlap the outcome is a fold
  of the votes (`Tally.VotesAreAFold`). In `Runs.VetoedElectionScheduled` one run ends with a scheduled
  election and a rejected request, another schedules an election after its veto.
- Votes end with the election. Casting a vote looks neither at the status of the election nor at its end,
  and a request looks at both only when it begins. A vote later than thirty minutes after the end can
  only come from a request that was checked before the end and claimed its token after it
  (`BallotBox.VoteWindow`); how late is not bounded (`Races.VoteAnyTimeLater`). Whether a vote is
  accepted does not depend on the status (`Races.VotingOutlastsClosing`). The runs are
  `Runs.VoteAfterTheEnd` and, without any overlap, `Runs.VoteInClosedElection`.
- Statuses, dates and decisions follow their order. The services on elections and registrations check in
  one call and write in another. With these split, a step breaks the order of statuses exactly if it
  writes a status that its check would no longer allow (`SplitCalls.OrderIffNotStale`), and a write to a
  row takes back something that was fixed exactly if the row has moved on since the check
  (`SplitCalls.RowStepKeepsIff`): a decision exactly by a write of the other verdict
  (`WideSafety.DecisionChangesIff`), the dates of an election that has left DRAFT exactly by a write of other
  dates (`WideSafety.DatesChangeIff`). Without such steps all is kept (`SplitCalls.WideRunEvolves`). In
  `Runs.ScheduledThenCancelled` a scheduled election is cancelled, in `Runs.VoterRejected` a voter who has
  voted is rejected, in `Runs.RejectedHolder` a rejected registration holds a live token, in
  `Runs.VoteBeforeStart` a vote is older than the start of its election. Pointers, ballots, votes, receipts
  and the two officers behind every effect are not affected (`WideSafety.WideSound`,
  `WideSafety.WideConservation`, `WideQuorum.WideQuorumStandsBehind`).
- Every status effect stands in the audit log once. `activateElection` checks the status outside its
  transaction, and writes and logs inside. With check and write apart the log is right all through a run
  exactly if no step activates an election that is not SCHEDULED, and none submits or cancels one that has
  been scheduled (`WideQuorum.ReportedOnceIff`). Two overlapping activations of one election are both logged
  (`WideQuorum.ActivatesTwice`); `Runs.ActivatedTwice` is such a run.
- One live refresh token. Revoking a token does not test that it is still valid. A rotation chain
  goes on from at most one place exactly if no refresh revokes a token of it that was revoked already while
  the chain could go on from elsewhere (`Sessions.OneHeadIffNeverForked`), and a chain that has ended, by a
  logout for instance, goes on exactly if a refresh that found its token valid before revokes it
  (`Sessions.EndedChainGoesOnIff`). The runs are `AccountRuns.ChainForks` and `AccountRuns.LogoutOutrun`.
- Only the newest code opens an account, and once. The code that is consumed is the newest exactly if none was
  sent since it was checked (`Activation.ConsumesNewestIff`), and an account is opened at most once exactly
  if no opening falls between the check of another and that other opening (`Activation.OpenedOnceIff`). The
  runs are `AccountRuns.OlderCodeOpens` and `AccountRuns.OpenedTwice`.
- A secret is verified by its own code. The mark does not look at which secret it marks. It is the secret that
  was checked exactly if no other one was stored in between (`Enrolment.MarksCheckedIff`); while that is so
  every verified secret has passed a check (`Enrolment.VerifiedWasProven`). In `AccountRuns.UnprovenSecret` a
  secret is verified of which no code was ever checked.
- Event data is hashed. `canonicalize` assigns into an ordinary object, so a property named `__proto__` is
  neither kept nor hashed (`Hashing.ProtoPropertyIsNotHashed`). Canonical text decides equality for values
  without it (`Hashing.StringifyDecidesEquality`), and meaning for all (`Hashing.StringifyDecidesMeaning`).
- The audit log verifies. It is read back by `createdAt`, and a log written only by `appendAuditEvent`
  verifies exactly if no entry is stamped earlier than one before it (`AuditLog.AppendedVerifiesIff`): any
  late stamp is an input that breaks it.

SHA-256 is any function from strings to strings of 64 units. Nothing assumes that it has no collisions:
theorems about tampering end in "or these strings, all of which were hashed, collide".

## Model

| member | source | states |
|---|---|---|
| Hashing.StringifyDecidesMeaning | Backend/src/security/hashing.service.ts:28-45 | Two JSON values have one canonical text exactly if they mean the same: object keys in any order at every depth, `__proto__` properties aside |
| Hashing.StringifyDecidesEquality | Backend/src/security/hashing.service.ts:43-45 | Without `__proto__` properties the canonical texts are equal exactly if the values are equal up to key order |
| Hashing.StringifyInjective | Backend/src/security/hashing.service.ts:43-45 | Equal canonical texts come from equal canonical values: printing is unambiguous |
| Hashing.CanonicalIdempotent | Backend/src/security/hashing.service.ts:28-41 | Canonicalizing twice is canonicalizing once |
| Hashing.ProtoPropertyIsNotHashed | Backend/src/security/hashing.service.ts:31-40 | Adding a `__proto__` property changes nothing of what is hashed |
| Hashing.Canonicalize | Backend/src/security/hashing.service.ts:28-41 | The recursion that sorts the keys and fills a fresh object in a loop computes the canonical form, whose keys ascend at every depth (KeyOrder.CanonicalAscends) |
| Hashing.ChainedTextUnique | Backend/src/security/hashing.service.ts:60-65 | Canonical text followed by a previous hash of fixed length can be split in one way only |
| JsonPrinting.PrintUnique | Backend/src/security/hashing.service.ts:43-45 | A printed value can be told apart from whatever follows it, for all values: `JSON.stringify` as in section 25.5.2 of ECMA-262 with the escapes of section 7 of RFC 8259 |
| JsonPrinting.ReadBack | Backend/src/security/hashing.service.ts:43-45 | A reader written from the grammar of JSON alone, sections 2 to 7 of RFC 8259, reads the printed text of any value back as that value, and leaves what follows it |
| KeyOrder.LexLessMeans | Backend/src/security/hashing.service.ts:33 | One string sorts before another exactly if it is a proper prefix, or has the smaller code unit where they first differ |
| KeyOrder.KeyBeforeMeans | Backend/src/security/hashing.service.ts:33-38 | One key stands before another exactly if both are array indices and its number is smaller, or only it is one, or neither is and its string sorts before: sorted keys, assigned into an ordinary object |
| KeyOrder.CanonicalAscends | Backend/src/security/hashing.service.ts:28-41 | In the canonical form of any value the keys of every object ascend strictly in that order, at every depth |
| KeyOrder.CanonicalTextReads | Backend/src/security/hashing.service.ts:43-45 | The canonical text of any value reads as its canonical form, with the keys in that order |
| CanonicalForm.CanonicalMeaning | Backend/src/security/hashing.service.ts:28-41 | Canonicalizing keeps the meaning of a value, `__proto__` properties aside |
| CanonicalForm.CanonicalUnique | Backend/src/security/hashing.service.ts:28-41 | Values of one meaning have one canonical form |
| HashChain.HeadCommits | Backend/src/modules/audit/audit.service.ts:27-62 | Valid chains with one last hash are equal link by link, or a collision among the hashed strings |
| HashChain.BuiltVerifiesIff | Backend/src/modules/audit/audit.repository.ts:18-36 | A chain built by appends to the newest row and read back by time is valid exactly if the time stamps never go back, or a collision |
| HashChain.ExchangeBreaks | Backend/src/modules/audit/audit.repository.ts:34-36 | Sorting by time stamp turns an exchange of two stamps into an exchange of two links, which breaks the chain there, or a collision |
| AuditLog.VerifyEntries | Backend/src/modules/audit/audit.service.ts:27-61 | The verification loop accepts exactly the valid chains, and otherwise reports the first position that breaks and which of the two checks failed |
| AuditLog.HeadHashCommits | Backend/src/modules/audit/audit.service.ts:27-61 | Two verified logs with one head hash agree entry by entry on actor, type, data up to key order, and hashes, or a collision |
| AuditLog.EditReported | Backend/src/modules/audit/audit.service.ts:45-55 | An entry edited in place under its old hashes is reported at its own position, or a collision |
| AuditLog.RehashedEditReported | Backend/src/modules/audit/audit.service.ts:35-42 | An edit that recomputes its own hash is reported at the next entry, or a collision; at the last entry it is not seen |
| AuditLog.DeletionReported | Backend/src/modules/audit/audit.service.ts:32-58 | A deleted entry is reported at the position it leaves, or a collision; a deleted last entry is not seen |
| AuditLog.SwapReported | Backend/src/modules/audit/audit.service.ts:32-58 | In the list that the loop is given, exchanged neighbours are reported at the first of the two, or a collision |
| AuditLog.ExchangeReported | Backend/src/modules/audit/audit.service.ts:27-61 | Two stored rows that exchange their time stamps are read back in the other order, and reported at the first of the two, or a collision |
| AuditLog.AppendedVerifiesIff | Backend/src/modules/audit/audit.repository.ts:18-36 | A log that only `appendAuditEvent` wrote verifies exactly if no event is stamped before an earlier one, or a collision |
| AuditLog.StorageKeepsChain | Backend/src/modules/audit/audit.service.ts:45-48 | Reordering the keys of stored event data, at any depth, leaves the chain as it was |
| AuditLog.AppendedLogVerifies | Backend/src/modules/audit/audit.repository.ts:18-36 | A log appended in time order verifies after such a reordering |
| AuditLog.AuditTable.AppendAuditEvent | Backend/src/modules/audit/audit.repository.ts:18-31 | The appended row holds what was handed over and is chained to the newest row, the later of two with one stamp, or to the genesis hash |
| AuditLog.HashedTextReads | Backend/src/modules/audit/audit.repository.ts:18-31 | What is hashed for an appended row reads as the object of actorId, eventData and eventType, in this order, followed by the previous hash |
| AuditLog.AuditTable.FindAllEntriesInOrder | Backend/src/modules/audit/audit.repository.ts:34-36 | All rows of the table, each once, in time order |
| AuditLog.AuditTable.VerifyChainIntegrity | Backend/src/modules/audit/audit.service.ts:27-61 | For any table, however it came about: accepts exactly if its chain in time order is valid, with all rows counted, and otherwise names the row that stands at the first break and which of the two checks failed; a table appended in time order is accepted |
| Trail.AuditTrailVerifies | Backend/src/modules/audit/audit.service.ts:10-61 | The audit table of every run of the whole system verifies |
| Trail.HeadHashFixesHistory | Backend/src/modules/audit/audit.service.ts:27-61 | Two runs whose audit tables end in one hash logged the same events by the same actors in the same order, or a collision |
| Trail.VoteTextReads | Backend/src/modules/voting/votes.service.ts:117-130 | In the audit table of every run, the text hashed for a vote reads as the anonymous actor, VOTE_CAST and the election, and says nothing of voter, registration or ballot |
| Database.Store.AppendAuditEvent | Backend/src/modules/audit/audit.service.ts:10-14 | The event is appended to the log with the time of the transaction, and nothing else changes |
| Elections.AssertTransitionAllowed | Backend/src/modules/elections/elections.service.ts:42-62 | Refuses a missing election and a transition not allowed in its status |
| Elections.CreateElection | Backend/src/modules/elections/elections.repository.ts:76-97 | Succeeds exactly for dates in order that lie ahead, at least one position, and new ids; the election is in DRAFT and all its positions are its own; a refusal changes nothing |
| Elections.SubmitElection | Backend/src/modules/elections/elections.service.ts:159-174 | Succeeds exactly for an existing election in DRAFT with a new request id; then the election is PENDING_APPROVAL and the request pending, all other rows as before; a refusal changes nothing and has the error of the first condition that fails |
| Elections.CancelElection | Backend/src/modules/elections/elections.service.ts:176-186 | Succeeds exactly for an election in DRAFT or PENDING_APPROVAL, which is CANCELLED then, all else as before; a refusal changes nothing and tells a missing election from a wrong status |
| Elections.ActivateElection | Backend/src/modules/elections/elections.service.ts:190-206 | Succeeds exactly for a SCHEDULED election, which is ACTIVE then, with one audit event by the officer; a refusal changes nothing and tells a missing election from a wrong status |
| Elections.InitiateClose | Backend/src/modules/elections/elections.service.ts:208-227 | Succeeds exactly for an ACTIVE election; adds a pending close request and changes no election; a refusal changes nothing and has the error of the first condition that fails |
| Elections.UpdateElection | Backend/src/modules/elections/elections.service.ts:118-155 | Succeeds exactly in DRAFT and if the new dates are in order; sets the given dates and no others; a refusal changes nothing and says which of three conditions fails |
| Elections.AddPosition | Backend/src/modules/elections/elections.service.ts:231-258 | Succeeds exactly for a new position of an election in DRAFT; a refusal changes nothing and has the error of the first condition that fails |
| Elections.RemovePosition | Backend/src/modules/elections/elections.service.ts:260-294 | Succeeds exactly for a position of this election, in DRAFT, without candidates; a refusal changes nothing and has the error of the first condition that fails |
| Elections.ApplyApprovalDecision | Backend/src/modules/elections/elections.service.ts:301-376 | When the decision is an error, when it schedules, reverts or closes, what it then answers, and that a rejected closing changes nothing; the audit event exactly when approved |
| Verification.RegisterForElection | Backend/src/modules/verification/verification.service.ts:27-52 | Succeeds exactly for a student, an existing election that is open for registration and no earlier registration; adds one pending row and its index entry; a refusal changes nothing and has the error of the first condition that fails |
| Verification.ResolveRegistration | Backend/src/modules/verification/verification.service.ts:55-90 | Succeeds exactly for a pending registration that is not the officer's own; records verdict and officer, keeps all other fields, and logs that verdict by that officer; a refusal changes nothing and has the error of the first condition that fails |
| Candidates.SubmitCandidacy | Backend/src/modules/candidates/candidates.service.ts:30-81 | Succeeds exactly for a verified student, a position of an election that takes candidates, and no earlier candidacy for it; adds a pending candidate and the request for it; a refusal changes nothing and has the error of the first condition that fails |
| Candidates.WithdrawCandidacy | Backend/src/modules/candidates/candidates.service.ts:84-107 | Succeeds exactly for the candidate, while pending or approved; a refusal changes nothing, and does not tell the candidacy of somebody else from a missing one |
| Candidates.ResolveCandidacy | Backend/src/modules/candidates/candidates.service.ts:115-153 | A missing payload is the only error; a candidate that is missing or not pending is left alone; otherwise the verdict is set and that verdict logged |
| Approvals.GetTally | Backend/src/modules/approvals/approvals.repository.ts:67-80 | A count over the rows gives the numbers of different officers on either side of the request |
| Approvals.ResolveAndDispatch | Backend/src/modules/approvals/approvals.service.ts:126-169 | The request gets the verdict; a rejection does nothing else, an approval is dispatched; an error of the dispatch restores everything |
| Approvals.ApprovedElections | Backend/src/modules/approvals/approvals.service.ts:35-67 | An approved request schedules its election if that awaits approval, closes it if it is active, and changes no other |
| Approvals.ApprovedCandidates | Backend/src/modules/approvals/approvals.service.ts:35-67 | An approved request approves its candidate if that is pending, and changes no other |
| Approvals.CastApproval | Backend/src/modules/approvals/approvals.service.ts:70-123 | Refused for a missing or decided request, for the requester, and for an officer who has voted, each with its own error and without any change; any other vote is entered and answered with the numbers of officers on either side, as pending without a rejection and below two approvals, and otherwise with the verdict that the request then has |
| Approvals.CastApprovalAnswers | Backend/src/modules/approvals/approvals.service.ts:70-169 | On any tables, the answer to a vote run alone: the three refusals, the numbers of officers counted after the vote, pending or the verdict that the request then has; an error of the dispatch leaves the request as it was |
| Ballots.FindRegistrationForToken | Backend/src/modules/ballots/ballots.repository.ts:8-13 | Finds the registration of this student for this election, whenever there is one |
| Ballots.ClearActiveToken | Backend/src/modules/ballots/ballots.repository.ts:22-28 | The registration holds no token then, whichever it held, and every other pointer is as before |
| Ballots.IssueBallot | Backend/src/modules/ballots/ballots.repository.ts:35-65 | Claims by conditional update and creates the ballot for thirty minutes; a lost claim changes nothing, a duplicate token aborts |
| Ballots.ConsumeBallotToken | Backend/src/modules/ballots/ballots.repository.ts:67-101 | Uses an unused, unexpired ballot and marks the registration that points to it; otherwise nothing changes |
| Ballots.RequestBallot | Backend/src/modules/ballots/ballots.service.ts:22-103 | The service run alone is the nine steps one after the other, whose meaning is Journey.RequestMeaning |
| Voting.ValidateSelections | Backend/src/modules/voting/votes.service.ts:36-63 | Accepts exactly selections of candidates approved for the very position named, a position of the election, and otherwise points at the first that fails and says why |
| Voting.CastVote | Backend/src/modules/voting/votes.service.ts:66-137 | Ballot, registration, vote, receipt and audit entry change together, or an error restores them all; which of the two is Voting.CastVoteAnswers |
| Voting.CastVoteAnswers | Backend/src/modules/voting/votes.service.ts:36-137 | A vote is refused exactly for a ballot that is used, expired, unknown or held by nobody, for a selection that is no approved candidate of that position of the election, or for an id that is taken, each with its own error and without any change; otherwise the ballot is used, the registration has participated and holds nothing, and vote, receipt and an anonymous audit entry are added |
| Evolution.StepTransition | Backend/src/modules/elections/elections.types.ts:13-18 | An election's status changes by one of six transitions at a time, the services on elections taken as one step each |
| Evolution.AtMostFourChanges | Backend/src/modules/elections/elections.service.ts:42-376 | An election changes its status at most four times in a run of any length, the services on elections taken as one step each |
| Evolution.RunEvolves | Backend/src/modules/elections/elections.service.ts:118-376 | Between any two points of a run statuses only go forward; dates and positions are fixed after DRAFT, the roll once registration is over; decisions, verified registrations, ballots, votes and receipts stay; the services on elections and registrations taken as one step each |
| SplitCalls.AloneIsAtomic | Backend/src/modules/elections/elections.service.ts:159-227 | Check, request and write, one after the other without interruption, do and answer what submit, cancel, activate and close do and answer as one action |
| SplitCalls.OrderIffNotStale | Backend/src/modules/elections/elections.service.ts:42-206 | With check and write split and everything interleaved, a step keeps to the six transitions exactly if it writes no status that its check would no longer allow |
| SplitCalls.FourChangesUnlessStale | Backend/src/modules/elections/elections.service.ts:42-206 | Without such a stale write an election changes its status at most four times |
| SplitCalls.CancelledAfterScheduled | Backend/src/modules/elections/elections.service.ts:176-186 | After any run in which a cancellation has passed its check and the vote that makes the quorum is about to resolve, the scheduled election is cancelled |
| Runs.ScheduledThenCancelled | Backend/src/modules/elections/elections.service.ts:176-186 | A run from the empty database whose last step turns a SCHEDULED election CANCELLED |
| RowCalls.RowAloneIsAtomic | Backend/src/modules/verification/verification.service.ts:27-90 | Check and write, one after the other, do and answer what resolve, register, update, add and remove do and answer as one action |
| RowCalls.RowKeepsIff | Backend/src/modules/verification/verification.service.ts:55-90 | A write keeps all that is fixed for good exactly if the row has not moved on since the check: not decided otherwise, not left DRAFT, registration not closed |
| SplitCalls.RowStepKeepsIff | Backend/src/modules/elections/elections.service.ts:118-294 | The same for a step of any run in which everything interleaves |
| SplitCalls.WideRunEvolves | Backend/src/modules/elections/elections.service.ts:42-294 | Without a stale write, everything Evolution.RunEvolves states holds between any two points of a run with all these calls split |
| Runs.VoterRejected | Backend/src/modules/verification/verification.service.ts:55-90 | A run from the empty database after which a registration that has voted is REJECTED |
| WideSafety.WideSound | Backend/src/modules/ballots/ballots.service.ts:22-119 | With check and write apart, in every run: pointers name unused ballots of their owners, owners have been decided, stale tokens and first votes are as claimed, ballots run thirty minutes from their issue, and requests in progress know what they have read |
| WideSafety.WideOneVoteIff | Backend/src/modules/ballots/ballots.repository.ts:35-101 | There too a registration votes at most once exactly if it used no ballot that it claimed after voting |
| WideSafety.WideConservation | Backend/src/modules/voting/votes.service.ts:66-137 | There too votes, receipts, used ballots and VOTE_CAST entries of an election are equally many and correspond one to one |
| WideSafety.WideSafe | Backend/src/modules/verification/verification.service.ts:55-90 | There, in runs without stale writes, the registrations behind ballots are approved, and the window that a request saw open is the one the election has |
| WideSafety.WideVoteWindow | Backend/src/modules/ballots/ballots.repository.ts:35-101 | There every vote falls within thirty minutes of the issue of its ballot, after the check of the window; without stale writes the dates are those of the election, as in BallotBox.VoteWindow |
| WideSafety.WidePointerNamesBallot | Backend/src/modules/ballots/ballots.service.ts:49-65 | There a pointer names an unused ballot of the same election, of a decided registration, and of an approved one without stale writes |
| WideSafety.WideParticipantsVerified | Backend/src/modules/verification/verification.service.ts:55-90 | There whoever has voted was decided on by an officer who is not that student, and was approved if no write was stale |
| WideSafety.DecisionChangesIff | Backend/src/modules/verification/verification.service.ts:55-90 | There a decided registration changes its status exactly by a write of the other verdict |
| WideSafety.DatesChangeIff | Backend/src/modules/elections/elections.service.ts:118-155 | There an election that has left DRAFT changes its dates exactly by a write of other dates |
| Runs.RejectedHolder | Backend/src/modules/verification/verification.service.ts:55-90 | A run from the empty database after which a REJECTED registration holds a live token |
| Runs.VoteBeforeStart | Backend/src/modules/elections/elections.service.ts:118-155 | A run from the empty database with a vote older than the start of its election |
| BallotSafety.RunSafe | Backend/src/modules/ballots/ballots.service.ts:22-119 | The invariant of pointers, owners, stale tokens, first votes and windows, and what each request in progress has established; for check and write apart see WideSafety.WideSound and WideSafety.WideSafe |
| OneVote.OneVoteIff | Backend/src/modules/ballots/ballots.repository.ts:35-101 | A registration has voted once for having participated and once more for every stale ballot it used, that is, every one it had claimed after participating; at most once exactly if it used none |
| OneVote.NoSharedToken | Backend/src/modules/ballots/ballots.repository.ts:67-101 | No token is ever held by two registrations |
| OneVote.PointerNamesBallot | Backend/src/modules/ballots/ballots.service.ts:49-65 | A pointer that is set names an existing, unused ballot of the same election, of an approved registration, as long as a decision is one step |
| OneVote.NoMissingBallot | Backend/src/modules/ballots/ballots.service.ts:58-103 | The ballot a request looks up always exists; a pointer is cleared only if its ballot has expired, and the re-read ballot is always found |
| OneVote.LostTokenStaysUnused | Backend/src/modules/ballots/ballots.repository.ts:67-101 | A token that has lost its pointer is refused in every continuation of the run |
| Pointers.PointerLeaves | Backend/src/modules/ballots/ballots.repository.ts:22-101 | A registration loses its token in a step exactly if that is a vote with the token that meets every condition of a vote, or clears the registration |
| Pointers.ClearTakesLiveIff | Backend/src/modules/ballots/ballots.service.ts:49-74 | A request about to clear takes away a token that was unexpired when the request began exactly if another request claimed that token after this one had read the pointer |
| Pointers.ClaimedOnce | Backend/src/modules/ballots/ballots.repository.ts:35-65 | No token is claimed twice in a run |
| Pointers.CastIffAccepted | Backend/src/modules/voting/votes.service.ts:66-137 | A vote changes something exactly if a registration holds its token, the ballot is unused and unexpired, the selections are a record of approved ones, and the ids are new |
| Pointers.HeldIff | Backend/src/modules/ballots/ballots.repository.ts:22-101 | A claimed token is held by its registration exactly if no vote with it and no clear of the registration came after the claim |
| Pointers.ReturnedTokenWorksIff | Backend/src/modules/ballots/ballots.service.ts:22-103 | A vote, in order otherwise, with a token that a finished request has returned goes through exactly if the ballot has not expired and nothing has taken the token since its claim |
| LostClaim.ClaimAnswers | Backend/src/modules/ballots/ballots.repository.ts:35-65 | In every run a claim ends with the fresh token, for thirty minutes from then, exactly if the registration holds none and the token is new; otherwise it changes nothing |
| LostClaim.LostClaimEnds | Backend/src/modules/ballots/ballots.service.ts:88-103 | In every run a call whose claim is lost is not at its end; it reads its registration again and fails with a conflict exactly if that holds no token by then |
| LostClaim.LoserReturnsWinner | Backend/src/modules/ballots/ballots.service.ts:88-103 | Such a call returns the token that its registration holds at the second read, which is the one it lost to exactly if nothing has taken that in between |
| ClaimRace.StaleIffRaced | Backend/src/modules/ballots/ballots.service.ts:22-103 | A ballot is stale exactly if a vote was cast for its registration between the eligibility read and the claim of the request that issued it |
| ClaimRace.OneVoteIffNotRaced | Backend/src/modules/ballots/ballots.repository.ts:35-65 | One registration, one vote: exactly in the runs where no used ballot comes from an overtaken request |
| ClaimRace.HolderHasNotVoted | Backend/src/modules/ballots/ballots.repository.ts:35-65 | A registration that holds a token has participated exactly if the request that claimed the token was overtaken |
| BallotBox.Conservation | Backend/src/modules/voting/votes.service.ts:66-137 | For every election: votes, receipts, used ballots and VOTE_CAST entries are equally many, as many as participants plus used stale ballots, and correspond one to one |
| BallotBox.VoteWindow | Backend/src/modules/ballots/ballots.repository.ts:35-101 | As long as a change of dates is one step: every vote falls after the start of its election, at or after the issue of its ballot and within thirty minutes of it, and its request was checked within the voting time; a vote later than thirty minutes after the end was checked before the end and issued after it |
| BallotBox.ReceiptsStayGood | Backend/src/modules/voting/votes.service.ts:140-153 | A receipt verifies ever after, with the time of its vote, by recomputing its hash; it belongs to exactly one recorded vote, and a code verifies exactly if it was issued |
| Voting.VerifyReceipt | Backend/src/modules/voting/votes.service.ts:140-153 | A code is confirmed exactly if its row hashes to it, and then with the time that it is a hash of |
| Roll.ParticipantsVerified | Backend/src/modules/verification/verification.service.ts:55-90 | As long as a decision is one step: whoever has voted was approved by an officer who is not that student |
| Choices.SelectionsApproved | Backend/src/modules/voting/votes.service.ts:36-92 | Every selection of every recorded vote names a candidate of that very position, and a position of the ballot's election, when it was cast and ever after; when it was cast the candidate was approved, with two officers behind the candidate; no vote names a position twice |
| Quorum.QuorumStandsBehind | Backend/src/modules/approvals/approvals.service.ts:70-169 | Two officers other than the requester stand behind every scheduled or closed election and every approved candidate |
| WideQuorum.WideQuorumStandsBehind | Backend/src/modules/approvals/approvals.service.ts:70-169 | The same in every run with check and write of the services on elections apart |
| WideQuorum.WideNotTheCandidate | Backend/src/modules/approvals/approvals.service.ts:70-90 | There too the officers behind a candidate are not the candidate's own user |
| Quorum.NotTheCandidate | Backend/src/modules/approvals/approvals.service.ts:70-90 | The officers behind a candidate are not the candidate's own user |
| Quorum.TallyMeansTwo | Backend/src/modules/approvals/approvals.repository.ts:48-80 | A tally of two approvals means two different officers, neither of them the requester |
| Quorum.ResolutionNeverFails | Backend/src/modules/approvals/approvals.service.ts:35-67 | The error branches of the dispatch table are never reached |
| Quorum.EffectsReportedOnce | Backend/src/modules/elections/elections.service.ts:190-376 | As long as an activation is one step: scheduling, activation and closing of an election stand in the audit log exactly once if they have happened, and otherwise not at all |
| WideQuorum.ReportedIff | Backend/src/modules/elections/elections.service.ts:190-206 | With check and write apart, a step keeps the log right exactly if it does not activate an election that is not SCHEDULED, nor submit or cancel one that has been scheduled |
| WideQuorum.ReportedOnceIff | Backend/src/modules/elections/elections.service.ts:159-206 | The log is right all through a run exactly if no step does so |
| WideQuorum.ActivatesTwice | Backend/src/modules/elections/elections.service.ts:190-206 | After any run with a SCHEDULED election two overlapping activations both go through and are both logged |
| Runs.ActivatedTwice | Backend/src/modules/elections/elections.service.ts:190-206 | A run from the empty database after which one activation stands in the log twice |
| Tally.VotesAreAFold | Backend/src/modules/approvals/approvals.service.ts:70-123 | With atomic calls a request stands where a fold of the votes on it says; duplicates, votes of the requester and late votes change nothing |
| Tally.RequestsSettled | Backend/src/modules/approvals/approvals.service.ts:77-123 | With atomic calls: pending, approved and rejected, each exactly by its numbers of approvals and rejections |
| Tally.DecidedForGood | Backend/src/modules/approvals/approvals.service.ts:70-90 | With atomic calls, a stored request that is decided keeps its status and the votes on it, whatever calls follow |
| Verdicts.LastVerdictStands | Backend/src/modules/approvals/approvals.service.ts:100-169 | With overlapping votes, a request is pending if none has resolved it, and otherwise has the verdict of the vote that resolved it last |
| Verdicts.DecidedChangesIffStale | Backend/src/modules/approvals/approvals.service.ts:100-169 | A step changes the status of a decided request exactly if it resolves it by a tally with the other verdict |
| Verdicts.StandsIffUnanimous | Backend/src/modules/approvals/approvals.service.ts:70-169 | The decisions on a request stand through a run exactly if no two votes resolve it to different verdicts |
| Verdicts.RejectedDespiteEffect | Backend/src/modules/approvals/approvals.service.ts:70-169 | A request whose election or candidate took effect ends rejected exactly if a rejection is resolved after the approval, as the last |
| Verdicts.ApprovedDespiteVeto | Backend/src/modules/approvals/approvals.service.ts:70-169 | A vetoed request ends approved exactly if an approval is resolved after the veto, as the last |
| Outcomes.VoteAnswers | Backend/src/modules/approvals/approvals.service.ts:70-169 | After any run, a vote run alone is refused for exactly three reasons; any other is answered with the numbers of officers on either side and the status that the request then has |
| Outcomes.LastStepAnswers | Backend/src/modules/approvals/approvals.service.ts:70-169 | The last step of a vote in any interleaving: what exactly it is refused for; pending by the numbers counted at that step; or resolved, with the status that the request then has and the numbers that the call's own tally counted |
| Atomic.AtomicIsInterleaved | Backend/src/modules/ballots/ballots.service.ts:22-103 | Every run of atomic calls is an interleaved run, step by step |
| Atomic.OneRegistrationOneVote | Backend/src/modules/ballots/ballots.repository.ts:35-101 | With atomic calls: one vote for each participant, no token in the hands of a participant, as many votes as participants |
| Atomic.VotesInTime | Backend/src/modules/ballots/ballots.repository.ts:35-71 | With atomic calls every vote falls between the start of its election and thirty minutes after its end |
| Journey.RequestMeaning | Backend/src/modules/ballots/ballots.service.ts:22-103 | A request alone gives a token exactly to an admissible student, one that can be used at once; a token that is still good is given again unchanged; a failed request changes nothing but a pointer to an expired ballot; each of its five errors has its exact reason |
| Journey.Claimed | Backend/src/modules/ballots/ballots.service.ts:58-88 | Without a live token a fresh one is claimed for thirty minutes, and nothing else changes |
| Journey.TokenWorksOnce | Backend/src/modules/voting/votes.service.ts:66-153 | After any run a live token casts one vote whose receipt verifies; a second vote and a further request are refused |
| Anonymity.PublishedTablesAnonymous | Backend/src/modules/ballots/ballots.service.ts:22-119 | Renaming all students leaves the ballots, votes, receipts and the audit log of every run the same |
| Races.VoterCanVoteTwice | Backend/src/modules/ballots/ballots.repository.ts:35-50 | After any run, a student who may vote can vote twice with two overlapping requests |
| Runs.DoubleVote | Backend/src/modules/ballots/ballots.repository.ts:35-50 | A run from the empty database in which one registration votes twice |
| Races.LiveTokenLost | Backend/src/modules/ballots/ballots.repository.ts:22-28 | After any run, two overlapping requests of a student with an expired token end in a fresh token that was handed out and is lost |
| Runs.FreshTokenLost | Backend/src/modules/ballots/ballots.service.ts:49-88 | A run from the empty database in which a request returns a token, unexpired and unused, that no registration holds |
| Races.VoteAnyTimeLater | Backend/src/modules/ballots/ballots.service.ts:33-88 | After any run, a student who may vote can open a request now and record a vote any time later |
| Runs.VoteAfterTheEnd | Backend/src/modules/ballots/ballots.service.ts:33-88 | A run from the empty database with a vote more than thirty minutes after the end |
| Races.VotingOutlastsClosing | Backend/src/modules/voting/votes.service.ts:66-137 | A vote gets the same answer whatever the status of the election is |
| Runs.VoteInClosedElection | Backend/src/modules/voting/votes.service.ts:66-137 | Atomic calls from the empty database of which the last records a vote in a CLOSED election |
| Races.VetoOvertaken | Backend/src/modules/approvals/approvals.service.ts:70-169 | After any run with two approvals and a rejection past their checks, the order of the last steps decides: rejected with the election scheduled, rejected, or approved and scheduled after the veto |
| Runs.VetoedElectionScheduled | Backend/src/modules/approvals/approvals.service.ts:70-169 | Two runs from the empty database: a rejected request with its election scheduled, and an election scheduled after its request was rejected |
| AccountStore.Store.Login | Backend/src/modules/auth/auth.service.ts:158-215 | Which answer exactly when: a session for the right password of an active account that neither has nor needs a second factor; a pending second step if it has one; wrong credentials change nothing |
| AccountStore.Store.LoginWithTotp | Backend/src/modules/auth/auth.service.ts:270-293 | A session exactly for the holder of a pending second step with the code of a verified secret; a wrong code is told from an invalid step; otherwise nothing changes |
| AccountStore.Store.RefreshSession | Backend/src/modules/auth/auth.service.ts:299-324 | A session exactly for a token that exists, is not revoked and has not expired, of a known user, with a new token; then the old token is revoked and the new one belongs to the same user and chain and runs from now, all other rows as before; an invalid token is denied and nothing changes |
| Answers.RefreshEnds | Backend/src/modules/auth/auth.service.ts:299-324 | The last step of a refresh in any interleaving: denied exactly where the token is not there, revoked or expired; otherwise the token was found good at the call's own check and is revoked, and the new one belongs to the same user and chain |
| AccountStore.Store.Logout | Backend/src/modules/auth/auth.service.ts:326-338 | The token is not valid afterwards; no other token changes, and nothing does if the token was not valid |
| AccountStore.Store.SetupTotp | Backend/src/modules/auth/auth.repository.ts:181-190 | A known user has no second factor until a code is confirmed; other users keep theirs; an unknown user is an error |
| AccountStore.Store.ConfirmTotp | Backend/src/modules/auth/auth.service.ts:249-265 | Verifies the secret exactly by its own code, and tells a missing secret from a wrong code; nothing else changes |
| Answers.ConfirmationEnds | Backend/src/modules/auth/auth.service.ts:249-265 | A step of a confirmation in any interleaving: refused exactly at its check, for a missing secret or a wrong code; the mark never fails |
| Enrolment.MarksCheckedIff | Backend/src/modules/auth/auth.repository.ts:181-198 | With check and mark interleaved, the secret about to be marked is the one that was checked exactly if the last set-up since the check, if any, stored that secret |
| Enrolment.VerifiedWasProven | Backend/src/modules/auth/auth.service.ts:249-265 | In runs in which no step marks another secret than the one checked, a verified secret has passed a check |
| AccountRuns.UnprovenSecret | Backend/src/modules/auth/auth.repository.ts:181-198 | A run from the empty tables after which a secret is verified that never passed a check |
| AccountStore.Store.InitiateActivation | Backend/src/modules/auth/auth.service.ts:110-132 | A code for ten minutes is added exactly if the account is pending and of the kind asked for, and is then the one that an activation looks up |
| AccountStore.Store.VerifyActivation | Backend/src/modules/auth/auth.service.ts:357-394 | The code is refused exactly if it is not that of the newest usable code of a pending account of the kind asked for, and then nothing changes; otherwise the account is open with the new password, and the answer is the session that the role and the new token allow |
| Answers.ActivationEnds | Backend/src/modules/auth/auth.service.ts:134-152 | A step of an activation in any interleaving: the code is refused exactly at the check, if it is not that of the newest usable code of a pending account; the session comes at the last step, on an open account |
| Sessions.OneLiveToken | Backend/src/modules/auth/auth.service.ts:299-324 | In every run in which no step forks it, a rotation chain has at most one token that is not revoked |
| Sessions.OneHeadUnlessForked | Backend/src/modules/auth/auth.service.ts:299-324 | A step gives a chain a second place to go on from exactly if a refresh revokes a token of it that is revoked already while the chain can go on from elsewhere |
| Sessions.OneHeadIffNeverForked | Backend/src/modules/auth/auth.service.ts:299-324 | A chain can go on from one place at most all through a run exactly if no step forks it |
| Sessions.EndedChainGoesOnIff | Backend/src/modules/auth/auth.service.ts:299-338 | A chain that has ended, by a logout for instance, goes on exactly if a refresh past its check revokes one of its tokens |
| Sessions.RevokedForGood | Backend/src/modules/auth/auth.repository.ts:153-167 | A rotated or logged-out token is never valid again |
| Sessions.SecondFactorAtTheRoot | Backend/src/modules/auth/auth.service.ts:158-324 | Every token of a user with a mandatory second factor belongs to a chain that began with that factor; a chain has one owner |
| Sessions.ChainBeganWithTwoFactors | Backend/src/modules/auth/auth.service.ts:270-293 | Such a chain was begun by a successful second login step of its owner |
| Sessions.OverlappingRefreshesFork | Backend/src/modules/auth/auth.service.ts:299-324 | Two overlapping refreshes of one token leave two live tokens in its chain |
| AccountRuns.ChainForks | Backend/src/modules/auth/auth.service.ts:299-324 | A run from the empty tables after which one chain has two valid tokens |
| AccountRuns.LogoutOutrun | Backend/src/modules/auth/auth.service.ts:299-338 | A run from the empty tables in which a chain that a logout has ended yields a valid token |
| Activation.OnlyTheNewestCode | Backend/src/modules/auth/auth.repository.ts:47-55 | The code that the check of an activation accepts is the newest ever sent to the user, even while an older one has not expired |
| Activation.ConsumesNewestIff | Backend/src/modules/auth/auth.repository.ts:47-80 | In every interleaving the code about to be consumed is the newest of its user exactly if none was sent since its check |
| Activation.ActivatesOnce | Backend/src/modules/auth/auth.repository.ts:47-80 | Called alone, an activation succeeds exactly with the newest, unexpired code of a pending account, and never again; it is refused exactly if it opens nothing |
| Activation.OpenedForGood | Backend/src/modules/auth/auth.repository.ts:65-80 | An opened account is never pending again: no check passes and no code is sent |
| Activation.SecondOpeningIff | Backend/src/modules/auth/auth.repository.ts:65-80 | An activation is about to open an account that is open already exactly if that was opened since the check, and it never was before |
| Activation.OpenedOnceIff | Backend/src/modules/auth/auth.repository.ts:65-80 | An account is opened at most once in a run exactly if no opening falls between the check and the step of another |
| Activation.OverlappingActivations | Backend/src/modules/auth/auth.service.ts:134-152 | Two activations that both passed their check both set the password |
| AccountRuns.OlderCodeOpens | Backend/src/modules/auth/auth.service.ts:134-152 | A run from the empty tables in which the older of two codes opens the account and the newer stays unused |
| AccountRuns.OpenedTwice | Backend/src/modules/auth/auth.service.ts:134-152 | A run from the empty tables in which an account is opened twice, the second time with another password |
| BulkImport.CreatedIffNew | Backend/src/modules/users/users.service.ts:52-82 | A row is created exactly if it is valid and neither its email nor its admission number is in the table or in an earlier created row; skipped rows name the right reason, the email first; failed rows are the invalid ones, with their issues; every result names its row of the spreadsheet |
| BulkImport.ImportEnters | Backend/src/modules/users/users.repository.ts:22-54 | The table gains exactly the created rows, each with its student, and keeps all others |
| BulkImport.TableGrows | Backend/src/modules/users/users.service.ts:52-90 | The table grows by the number of created rows |
| BulkImport.FailedAreInvalid | Backend/src/modules/users/users.service.ts:58-87 | The rows counted as failed are as many as the invalid ones |
| BulkImport.ImportTwice | Backend/src/modules/users/users.service.ts:52-82 | Importing the same rows again creates nothing and leaves the table as it is |
| BulkImport.UserTable.BulkImportStudents | Backend/src/modules/users/users.service.ts:29-90 | The loop is the fold over the rows; created is the number of new users, skipped that of the rows skipped, failed that of the invalid rows, and they add up to all rows |

## Left out

- Inside a transaction nothing interleaves: each `$transaction` is one step that restores all state on a throw. The services on candidacies are one step each.
- Evolution.RunEvolves: takes the services on elections and registrations as one step each; SplitCalls.WideRunEvolves is the same statement with check and write apart.
- Evolution.StepTransition: takes the services on elections as one step each; SplitCalls.OrderIffNotStale has check and write apart.
- Evolution.AtMostFourChanges: takes the services on elections as one step each; SplitCalls.FourChangesUnlessStale has check and write apart.
- BallotSafety.RunSafe: takes decisions and changes of dates as one step each; WideSafety.WideSound holds in every run with check and write apart, WideSafety.WideSafe in those without stale writes.
- OneVote.PointerNamesBallot: takes a decision as one step; Runs.RejectedHolder breaks it with check and write apart, and WideSafety.WidePointerNamesBallot says what holds.
- BallotBox.VoteWindow: takes a change of dates as one step; Runs.VoteBeforeStart breaks it with check and write apart, and WideSafety.WideVoteWindow says what holds.
- Roll.ParticipantsVerified: takes a decision as one step; Runs.VoterRejected breaks it with check and write apart, and WideSafety.WideParticipantsVerified says what holds.
- Quorum.EffectsReportedOnce: takes an activation as one step; Runs.ActivatedTwice breaks it with check and write apart, and WideQuorum.ReportedOnceIff says when it holds.
- ClaimRace, Pointers, LostClaim, Choices, Verdicts, Outcomes, Anonymity and Trail are about the system in which the services on elections and registrations are one step each.
- Database.Store.AppendAuditEvent: says nothing about the hashes of the row, which AuditLog.AuditTable.AppendAuditEvent chains; Trail connects the two.
- AuditLog.SwapReported: is about the list given to the loop; rows that exchange their places but not their time stamps are read back as before, and AuditLog.ExchangeReported is about those that exchange their time stamps.
- Authentication of requests, roles, request validation other than the dates of an election, routing, logging and configuration: the services are called as their routers call them.
- Users are named by their id; looking them up by email or admission number is taken as given, and so is enrolling students.
- AES-GCM, RSA signatures and their failures: a sealed vote is an ideal pair of what was sealed and an initialisation vector; signatures and authentication tags are not columns of the model.
- The receipt code is an ideal hash of vote id, time and salt: one that is different for different arguments.
- Numbers in hashed JSON are integers of at most 53 bits; other numbers, undefined and dates do not occur in event data.
- AuditLog: rows with equal time stamps are taken to be read back in the order they were appended.
- Trail: identifiers are written by any injective naming that avoids the two sentinel actors.
- RESULTS_PUBLISH requests, tallying and results: no code creates or resolves them.
- Bcrypt, JWT and TOTP: passwords and codes are compared as values, a pending second step does not expire, and the time step of a code is not modelled.
- Activation: codes created at the same instant count in the order of their creation.
- BulkImport: starts from rows as validation leaves them; CSV parsing and missing columns are not modelled.
- Listing, pagination, OTP generation and the front end.
