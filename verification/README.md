# Admission, write-safety and evidence, proved

This project models the machinery of the AgentBrowser API service that decides what may be contacted,
written and kept: connection ownership, downloads, autofill, the engagement ledger, request pacing, the
query limiter, evidence transfer and the operation journal. Each part is given as a protocol on values,
over every order of its steps and every behaviour of what it cannot see, and, where the service updates
objects in place, as a class whose methods are proved to take exactly the protocol's steps.

`dafny verify dfyconfig.toml` checks everything.

## How it is laid out

- **Connections.** `AttemptProtocol` is one connection attempt: policy, DNS, address policy, TCP and lease,
  against caller abort, revocation, two deadlines, socket errors and closes, in any order. `TcpOwnership`
  is a whole runtime: every session scope, authority, attempt and reservation, under any interleaving.
  `ConnectionAuthority` holds the classes.
- **Downloads.** `DownloadProtocol` is one download: the redirect loop, the byte counters and the caller's
  one answer, which an abort gives at once while the work is still draining. `TransferOwnership` is every
  download against the shared budget and each transport's own, on the same reservation ledger as the
  connections. `DownloadTransport` holds the classes.
- **Autofill.** `AutofillPage` reads one observation; `AutofillPorts` is a run against its ports;
  `AutofillWidgets` the multi-step strategies; `AutofillRun` one field and all of them; `AutofillReport`
  preflight, final look, report and artifact. The page is arbitrary: a view may depend on the time and on
  every act so far, and so may the answer to an act. `FaithfulWidget` adds a widget that does what it says,
  and `FaithfulSample` a page that is one. `Autofill` is the run as an object with loops.
- **Ledger.** `EngagementChain` is the hash chain and its verifier; `LedgerProtocol` relates the calls made,
  the chain in memory, the queue of writes and the bytes on file; `EngagementLedger` is the class.
- **Rates.** `PacingProtocol` and `BountyPacing` are the sliding-window pacer; `LruStore` the bounded map in
  order of use, for any meter; `TokenBucket` the token bucket as that meter, and the limiter class.
- **Evidence.** `HostPatterns` is the host relation, over any public suffix list; `EvidenceState` the filter.
- **Journal.** `JournalSearch` is the search over namespaces and the answers built on it; `JournalConfig` the
  descriptors, the history an operator records, opening every namespace, and recover-only journals;
  `IsoDates` how an instant is written and which texts are taken for one.

What stands outside is a parameter, and every result is for all its values: clocks and timers, DNS, sockets,
the policy's answers, the page, the file system, SHA-256 and JSON (assumed only to be collision-free, and to
read back what they wrote, where a result says so), URL parsing and the public suffix list.

## Where the code and its comments part

- `onUnavailable` is documented as called once (packages/api/src/engagement-ledger.ts:37). The code gives one
  notice for each reason, so `full` and then `write_failed` makes two (171-177), and a closing record that
  fails to write is not announced (163-164). The model does what the code does:
  `LedgerProtocol.NoticesAreExact` says when each notice comes, `LedgerProtocol.SecondNoticeHappens` shows a
  run with two, and `LedgerProtocol.FailedCloseIsSilent` that a failed close is never announced.
- Opening a ledger succeeds even when the opening record does not fit in `maxBytes`; such a ledger never
  verifies afterwards. `LedgerProtocol.ClosedLedgerVerifiesIffOpeningFits` gives the exact condition, and
  `LedgerProtocol.OversizedOpeningIsRejected` a run that ends so. The service's configuration floors
  `maxBytes` at 1 MiB (packages/api/src/engagement-config.ts:18, 63-69), so there the opening record has to
  exceed that.
- By its type the verifier answers for every text, and names the line that breaks the chain. On a line that is
  the JSON value `null` it throws a TypeError instead (packages/core/src/engagement-chain.ts:43-47), unless
  a closing record comes first: `EngagementChain.Verify` has the exact condition, and
  `EngagementChain.NullLineThrows` the input, the text `null` alone among others.
- The evidence filter normalises an exclusion when it matches a host but compares it as written when it looks
  below a domain cookie (packages/api/src/evidence-state.ts:82-86), and the schema admits upper case and a
  final dot (packages/protocol/src/schemas.ts:128-129). `EvidenceState.TrailingDotSlipsThrough` is an excluded
  host a kept cookie still reaches, for any host and name; `EvidenceState.KeptCookieIsSafeExactlyWhen` says
  exactly when a kept cookie is safe, and `EvidenceState.NormalExclusionsAreRespected` that exclusions already
  in normal form are enough.
- A recorded journal entry is meant to reopen its namespace. It does exactly when the namespace stops
  accepting before 253402300800000, the start of year 10000, which is written with a sign that the pattern
  for an instant does not admit (packages/api/src/journal-config.ts:70, 308-319):
  `JournalConfig.TemplateReopensTheNamespace`. A later horizon can be configured through a zone, as in
  9999-12-31T23:59:59-00:01 (`JournalConfig.OneMinuteWestIsRead`), and is then not reopened:
  `JournalConfig.FarHorizonIsNotReopened`.

## Model

| member | source | states |
|---|---|---|
| AttemptProtocol.RunKeepsInv | packages/api/src/connection-authority.ts:353-543 | Over every order of callbacks, aborts, timers, socket events, lease closes and revocation: an attempt is drained exactly when stopped, its run settled and its socket closed; `ready` settles once; nothing established is taken back. |
| AttemptProtocol.DeliveryIsTimely | packages/api/src/connection-authority.ts:402-408 | A lease is delivered by the socket's connect event only, before both deadlines, while nothing has stopped, and after the whole chain of checks. |
| AttemptProtocol.LeaseIsEarned | packages/api/src/connection-authority.ts:424-510 | Whoever receives a lease receives it after authorization, 1 to maxDnsAnswers well-formed answers, the full list passing the address policy, a dial of the first answer and a peer equal to it; no stop happened at any earlier moment. |
| AttemptProtocol.StoppedRunDrains | packages/api/src/connection-authority.ts:516-542 | After a stop the work owed goes down by exactly the pending callback and the socket close as they come, in any order with anything else; drained exactly at zero; no socket is ever created again. |
| AttemptProtocol.StoppedIsNeverStuck | packages/api/src/connection-authority.ts:522-542 | A stopped attempt that has not drained always has an event that repays what it is owed. |
| AttemptProtocol.LawfulRunDelivers | packages/api/src/connection-authority.ts:424-510 | In any order of lawful events in time, for a name or an address, with any readings of the clock before the deadlines, the attempt is never stopped, and it hands over its lease exactly when every check has had its turn: the checks refuse nothing else. |
| AttemptProtocol.LawfulAttemptCanAdvance | packages/api/src/connection-authority.ts:424-510 | Until the lease is handed over, a lawful attempt with acceptable answers always has a lawful event that brings it nearer. |
| TcpOwnership.EveryRunConserves | packages/api/src/connection-authority.ts:152-210 | In every interleaving of a runtime the runtime count is the number of unreleased reservations and each session's count its own, within their limits; each place is given back at most once. |
| TcpOwnership.AttemptOwnsExactlyOne | packages/api/src/connection-authority.ts:317-331 | One reservation is made for an attempt, and it is held exactly until the attempt drains, then given back once. |
| TcpOwnership.ClosedExactlyWhenDrained | packages/api/src/connection-authority.ts:341-351 | `closed` resolves exactly when the authority is revoked and every attempt it ever admitted has drained. |
| TcpOwnership.RevocationIsFinal | packages/api/src/connection-authority.ts:305-306 | A revoked authority stays revoked in every run, its set only shrinks, and once closed it stays closed. |
| TcpOwnership.RevokeEffect | packages/api/src/connection-authority.ts:341-346 | Revoking stops every attempt in the set, changes nothing else, and resolves `closed` at once only when the set is empty. |
| TcpOwnership.ConnectionRunsAlone | packages/api/src/connection-authority.ts:250-351 | Any run of the whole runtime is, seen from one attempt, a run of that attempt alone. |
| TcpOwnership.EveryLeaseIsEarned | packages/api/src/connection-authority.ts:305-339 | A lease in anyone's hands at any moment of any interleaving was earned by the whole chain of checks. |
| ConnectionAuthority.ConnectionBudget.Reserve | packages/api/src/connection-authority.ts:164-174 | A place is taken exactly below the limit; a refusal changes nothing. |
| ConnectionAuthority.SessionScope.Reserve | packages/api/src/connection-authority.ts:191-206 | Closed first, then the session limit, then the runtime limit; a session place is taken only together with a runtime place. |
| ConnectionAuthority.Reservation.Release | packages/api/src/connection-authority.ts:168-173 | A release gives its places back once, however often it is called. |
| ConnectionAuthority.ConnectionAttempt.Handle | packages/api/src/connection-authority.ts:373-542 | Every handler takes exactly the protocol's step, and touches its authority and reservation only when this step drains the attempt. |
| ConnectionAuthority.Authority.Connect | packages/api/src/connection-authority.ts:305-339 | Refusals in the code's order take no place; an admission starts one attempt in the set that holds one place in the session and one in the runtime, unless its first check already drained it. |
| ConnectionAuthority.Authority.Revoke | packages/api/src/connection-authority.ts:341-346 | Every attempt in the set takes the stop, no place is given back on the spot, and the set is unchanged. |
| DownloadProtocol.EveryRunIsBounded | packages/api/src/download-transport.ts:222-446 | For every network, policy and clock: at most maxRedirects + 1 URLs, none twice, each redirect target passed by the policy first; no lease is open while the next hop connects; places are given back once and only when the work settles; one report, which is what the caller got; a success is at most maxBytes on the wire and decoded. |
| DownloadProtocol.RunIsFinal | packages/api/src/download-transport.ts:206-446 | After an abort nothing more is contacted; after the answer neither it nor the report changes; after settling nothing is given back again. |
| DownloadProtocol.AnswersLeaveTheWorkAlone | packages/api/src/download-transport.ts:423-446 | When and whether the caller is answered makes no difference to the work: over any run the work, its leases and its places are those of the same run with every answer left out. |
| DownloadProtocol.AbortedWorkSettles | packages/api/src/download-transport.ts:222-427 | The work of an aborted download settles within three steps of its own. |
| DownloadProtocol.WorkIsNeverStuck | packages/api/src/download-transport.ts:222-421 | Work that has not settled always waits for an answer it is owed. |
| TransferOwnership.EveryRunConserves | packages/api/src/download-transport.ts:151-446 | In every interleaving of downloads the shared count and each transport's count are the downloads whose work has not settled, within their limits; each gives its two places back exactly once. |
| TransferOwnership.RevocationIsFinal | packages/api/src/download-transport.ts:143-149 | Once a transport is revoked, at any moment of any run from the start, each of its downloads is aborted or settled, and in every run from there it stays so and the transport gets no other. |
| DownloadTransport.Transfer.Handle | packages/api/src/download-transport.ts:222-446 | Every step of a download is the protocol's, and both budgets go down exactly when the work settles. |
| DownloadTransport.Transport.Download | packages/api/src/download-transport.ts:175-195 | Limits, cancellation and caller abort are checked in that order before the local and then the shared place; a refused shared place gives the local one back. |
| AutofillPage.ResolveIsUnique | packages/api/src/autofill.ts:313-354 | A selector names an element if and only if exactly one position of the view answers it and its block, if it names one, shows one token, the pinned one if there is a pin; the element is the one there, and block pins already set stay. |
| AutofillPage.ExactSetIsCommittedExactly | packages/api/src/autofill.ts:84-121 | An exact set counts as committed if and only if the complete capture is multi-valued, duplicate-free and equal as a set to what was asked for. |
| AutofillPorts.CheckStageKeepsPins | packages/api/src/autofill.ts:463-498 | The stage check changes no pin, adds pins only on distinct nodes, and passes only with every field found uniquely, qualified and on its pin. |
| AutofillPorts.PreflightIsComplete | packages/api/src/autofill.ts:546-562 | A completed preflight has pinned every field, on pairwise distinct nodes, and every block. |
| AutofillPorts.ObserveEffect | packages/api/src/autofill.ts:442-500 | An observation sends nothing and changes no pin; in a scoped run the scope is valid afterwards exactly when it succeeded, with a view that proves the whole stage. |
| AutofillPorts.DispatchKeeps | packages/api/src/autofill.ts:624-678 | A dispatch sends at most one act, only after a guard that found authority and time, and voids the scope. |
| AutofillPorts.RecheckOnlyLooks | packages/api/src/autofill.ts:509-544 | The recheck changes nothing of the run but the time. |
| AutofillPorts.RecheckMatchesObserve | packages/api/src/autofill.ts:501-544 | After preflight the recheck passes exactly when the run's own observation would at that moment, and that observation would change no pin and no block. |
| AutofillRun.PreflightLasts | packages/api/src/autofill.ts:501-544 | Once preflight has passed, the pins of every field and block stay as they are through the fields from any one on, and there too a recheck passes exactly when an observation would. |
| AutofillWidgets.TypeaheadWorks | packages/api/src/autofill.ts:183-237 | On any page a typeahead sends at most three acts, the last of them its choice when it succeeds, and keeps pins, progress and scope as they must be. |
| AutofillWidgets.WriteExactSetWorks | packages/api/src/autofill.ts:131-180 | On any page an exact set sends at most one act per chip to remove and three per value; the removals recorded are the first so many in order, additions follow only when all are done, and every effect was asked for and confirmed on a complete view after an act of the field and before the next. |
| AutofillRun.RunFieldHolds | packages/api/src/autofill.ts:579-815 | Whatever the page does, a field sends at most its strategy's acts; `failed` other than a mismatch, or `skipped`, means nothing it sent was signalled; a field that cannot tell stops the run. |
| AutofillRun.RunFieldsHolds | packages/api/src/autofill.ts:579-815 | Acts come in field order, each while time was left, each field within its bound; pins stay; after a field that stops the run every receipt is not attempted. |
| AutofillRun.RunFieldsConfirms | packages/api/src/autofill.ts:579-815 | Every removal and addition on any receipt of the pass was asked for, and a complete view showed it between an act of its field and the next act; an exact set's acts are at most one per chip of initial minus desired and three per desired value, where a complete view showed the initial chips before the field's first act, and its removals begin initial minus desired in order. |
| AutofillReport.FinalPhaseHolds | packages/api/src/autofill.ts:816-874 | Receipts still verified at the end were confirmed together on one complete view, that of the run's own last look, made after the step of its last act and before the end: unique match, same node, same block, committed value; a downgrade is never `failed` but for a mismatch, and no recorded effect changes. |
| AutofillReport.FailedPreflightWritesNothing | packages/api/src/autofill.ts:545-562 | When preflight fails nothing is sent, and what is reported holds. |
| AutofillReport.EveryRunHolds | packages/api/src/autofill.ts:374-903 | For every page and request: a run that ends, reported or rejected, kept its acts in order, in time and unreplayed; a report accounts for every field, confirms the verified ones together on the run's last look, records only effects that were asked for and seen, bounds an exact set's acts by what the page showed at first, attempts nothing after a field that stopped the run, and has an artifact only of a scope proven by that last look, after the last act. |
| AutofillReport.OkMeansDone | packages/api/src/autofill.ts:876-885 | `ok` means every field is verified or unverified, no navigation was blocked, and a field to be verified that is not had its value withheld. |
| AutofillReport.ScopedOkIsVerified | packages/protocol/src/autofill.ts:241-250 | In a scoped run `ok` means every field was verified, together on the run's last look, but for those whose value the page withheld. |
| AutofillReport.FailedMeansNothingSent | packages/api/src/autofill.ts:786-814 | A field reported `failed` for any reason but a mismatch, or skipped, sent no act that signalled its dispatch; a field not attempted sent none. |
| FaithfulWidget.ExactSetIsWritten | packages/api/src/autofill.ts:131-180 | On a widget that does what it says the write succeeds, membership ends equal to the desired set without duplicates, the effects are initial minus desired in initial order and desired minus initial in desired order, at one act per removal and three per addition. |
| FaithfulWidget.TypeaheadAdds | packages/api/src/autofill.ts:183-237 | On such a widget the typeahead adds its text in three acts. |
| FaithfulWidget.WrittenIsCommitted | packages/api/src/autofill.ts:102-121 | The next view of such a widget then proves the exact set committed. |
| FaithfulSample.SampleIsFaithful | packages/api/src/autofill.ts:131-180 | There is a page that meets every demand of the exact-set result. |
| Autofill.Runner.Observe | packages/api/src/autofill.ts:442-500 | The observation with its loop over the stage is the run's observation. |
| Autofill.Runner.Recheck | packages/api/src/autofill.ts:509-544 | The recheck with its loop is the run's recheck, and only time passes. |
| Autofill.Runner.Dispatch | packages/api/src/autofill.ts:624-678 | The dispatch is the run's, down to which answers leave the write complete. |
| Autofill.Runner.AwaitOption | packages/api/src/autofill.ts:708-720 | The bounded polling loop is the run's wait for an option. |
| Autofill.Runner.WriteExactSet | packages/api/src/autofill.ts:131-180 | The two loops over chips are the run's exact-set write. |
| Autofill.Runner.FindField | packages/api/src/autofill.ts:585-602 | The loop that reads a missing field again is the run's search for it. |
| Autofill.Runner.Verify | packages/api/src/autofill.ts:748-784 | The loop that reads a mismatch again is the run's verification; it sends nothing. |
| Autofill.Runner.RunFields | packages/api/src/autofill.ts:579-815 | The loop over the fields leaves the receipts of the run's pass, and untouched ones after a stop. |
| Autofill.Runner.CheckFinally | packages/api/src/autofill.ts:820-862 | The final loop judges every verified receipt against the one view. |
| Autofill.Runner.RunAutofill | packages/api/src/autofill.ts:374-903 | The whole run ends as defined, so everything proved of the ending holds of it. |
| EngagementChain.LastHashFixesChain | packages/core/src/engagement-chain.ts:27-74 | With a collision-free hash, two chains of this recurrence that share a last hash are equal record by record. |
| EngagementChain.Verify | packages/core/src/engagement-chain.ts:27-74 | The verifier accepts exactly the canonical lines of a well-formed ledger; otherwise it names the first line that does not continue one, and why, but throws if and only if that line is the value `null` and no closing record precedes it. |
| EngagementChain.NullLineThrows | packages/core/src/engagement-chain.ts:35-47 | After the text of any ledger, or alone, a last line `null` makes the verifier throw exactly when the ledger is not closed. |
| EngagementChain.LedgerTextVerifies | packages/core/src/engagement-chain.ts:27-74 | The text of a well-formed ledger is accepted by the verifier. |
| EngagementChain.VerifiedTextsWithSameEndAgree | packages/core/src/engagement-chain.ts:20-25 | With a collision-free hash, two texts that verify and end in the same hash have the same lines: an edit that still verifies shows in the last hash. |
| LedgerProtocol.FileIsPrefixOfChain | packages/api/src/engagement-ledger.ts:117-169 | At every moment the file is a prefix, in call order, of the accepted records and the closing record, chained from genesis with seq equal to position; only a write-failed ledger can end in one torn line. |
| LedgerProtocol.FileIsPrefixDuringWrites | packages/api/src/engagement-ledger.ts:137-146 | While a write is still putting down its bytes, however many have arrived, the file is such a prefix. |
| LedgerProtocol.AcknowledgedIsDurable | packages/api/src/engagement-ledger.ts:98-147 | A critical append that returned has its own record and every earlier accepted one completely on file, covered by a sync that succeeded afterwards. |
| LedgerProtocol.AccountsAreExact | packages/api/src/engagement-ledger.ts:117-177 | Accepted bytes are the sum of the accepted lines and within maxBytes; open means nothing dropped and the reserve left; at most one notice for each reason. |
| LedgerProtocol.StateOnlyMovesOn | packages/api/src/engagement-ledger.ts:171-177 | Between any two moments of any run the state moves only from open over full to write-failed. |
| LedgerProtocol.NoticesAreExact | packages/api/src/engagement-ledger.ts:117-177 | In any run `full` is announced exactly when an append filled an open ledger, `write_failed` exactly when a record's write or sync was the first to fail, and both, in that order, exactly when that happened to a full ledger. |
| LedgerProtocol.SecondNoticeHappens | packages/api/src/engagement-ledger.ts:117-177 | Two notices do happen: an append fills the ledger, and its write fails. |
| LedgerProtocol.FailedCloseIsSilent | packages/api/src/engagement-ledger.ts:150-169 | A closing record whose write or sync fails leaves the ledger write-failed with no notice, and none ever follows. |
| LedgerProtocol.ClosingRecordCountsAll | packages/api/src/engagement-ledger.ts:150-169 | A closing record on file follows exactly `records` lines, records plus dropped is the number of appends made before the close, and the state it reports is the ledger's when `close` was first called. |
| LedgerProtocol.ClosedLedgerVerifiesIffOpeningFits | packages/api/src/engagement-ledger.ts:71-91 | A completely written, closed ledger passes the verifier if and only if its opening record fitted. |
| LedgerProtocol.OversizedOpeningIsRejected | packages/api/src/engagement-ledger.ts:71-91 | An opening record over the bound is dropped while opening succeeds; closed at once, the ledger is wholly written and synced, and the verifier rejects it. |
| EngagementLedger.Ledger.Append | packages/api/src/engagement-ledger.ts:117-147 | An append is the protocol's, with its drop, its reserve and its queued write. |
| EngagementLedger.Ledger.WriteReturns | packages/api/src/engagement-ledger.ts:137-146 | A write that returns, short or full, or throws, is the protocol's step. |
| EngagementLedger.Ledger.AppendCritical | packages/api/src/engagement-ledger.ts:98-106 | A critical append queues behind the writes before it, as the protocol says. |
| EngagementLedger.Ledger.Close | packages/api/src/engagement-ledger.ts:150-169 | Closing queues one closing record with the counts at that moment, and only once. |
| PacingProtocol.AtMostFivePerSecond | packages/api/src/bounty-defaults.ts:49-60 | On a nondecreasing clock, fewer than five further admissions fall within a second of any, so six in a row span at least one; admissions follow queue order. |
| PacingProtocol.EveryRequestIsDecidedOnce | packages/api/src/bounty-defaults.ts:46-73 | Every request that passed its base check is admitted, refused or still queued, and only one of these. |
| PacingProtocol.NothingAfterStop | packages/api/src/bounty-defaults.ts:51-52 | Nothing is admitted after a stop, in any run. |
| PacingProtocol.FailedChecksLeaveNoTrace | packages/api/src/bounty-defaults.ts:46-48 | Requests whose base check fails take no slot and no place in the queue: any run is the run without them. |
| PacingProtocol.OneWaitIsEnough | packages/api/src/bounty-defaults.ts:55-71 | With exact timers a request that starts within 15 s of queueing waits at most once, and a request that waits is admitted. |
| PacingProtocol.QueueIsPrompt | packages/api/src/bounty-defaults.ts:46-73 | With exact timers and no stop, in every run of the protocol and however requests come in between, each request waits at most once and is decided within 15 s of queueing; while any is queued the head's next look is still ahead and due within the head's 15 s. |
| PacingProtocol.DecisionsAreTheRuns | packages/api/src/bounty-defaults.ts:46-73 | The decisions counted there are the run's: one for each request that left the queue, in queue order, queued when it was asked, taken at a look, an admission exactly where the protocol admitted, and at that time. |
| PacingProtocol.SettleIsARun | packages/api/src/bounty-defaults.ts:49-72 | The exact-timer schedule is a run of the protocol, with the same window and the same decision. |
| BountyPacing.BountyPacer.Look | packages/api/src/bounty-defaults.ts:49-61 | One turn of the retry loop is the protocol's, and a sleep it asks for ends within the 15 s. |
| BountyPacing.BountyPacer.Filter | packages/api/src/bounty-defaults.ts:53-54 | The window keeps exactly the admissions of the last second, in order. |
| LruStore.OrderIsRecency | packages/api/src/policy-query-limiter.ts:25-66 | The map's order is the last maxTenants keys by last take, never more than maxTenants of them, so only the least recently taken key is evicted. |
| LruStore.DecidesLikeIndependentMeters | packages/api/src/policy-query-limiter.ts:31-66 | On any run with at most maxTenants distinct keys every take is decided as by independent, unbounded per-key meters. |
| LruStore.KeptKeyRunsAlone | packages/api/src/policy-query-limiter.ts:31-66 | A key that is not evicted is metered as if it were alone. |
| TokenBucket.RateIsBounded | packages/api/src/policy-query-limiter.ts:43-53 | A run of takes from t1 to t2 on a nondecreasing clock admits at most capacity plus the rounded-up refill of that time. |
| TokenBucket.KeptKeyRateIsBounded | packages/api/src/policy-query-limiter.ts:31-54 | The same bound for any key of the shared map while it is not evicted, from any moment on, its bucket's first take included. |
| TokenBucket.WaitingIsRewarded | packages/api/src/policy-query-limiter.ts:43-53 | A take at least intervalMs / refillPerInterval after the last refill is admitted. |
| TokenBucket.FloodingNeverStarves | packages/api/src/policy-query-limiter.ts:43-53 | However many takes came between, a key's take is admitted that long after its last refill. |
| TokenBucket.KeptKeyIsNotStarved | packages/api/src/policy-query-limiter.ts:31-54 | The same for a key of the shared map while it is not evicted, whatever the other keys do. |
| TokenBucket.BucketsStayInRange | packages/api/src/policy-query-limiter.ts:20-54 | Tokens stay between 0 and capacity in every bucket of every run. |
| TokenBucket.TokenBucketLimiter.Take | packages/api/src/policy-query-limiter.ts:31-54 | A take decides, touches, refills and evicts as the store of meters does. |
| HostPatterns.SubdomainMatch | packages/core/src/domain-matcher.ts:90-129 | Which patterns match a subdomain of a host: those reaching below the host match every one, and any other must name a subdomain itself. |
| HostPatterns.ProbeDecidesSubtree | packages/api/src/evidence-state.ts:75-80 | A pattern that covers a host and `probe.` under it covers every subdomain, and conversely: one probe decides infinitely many hosts. |
| EvidenceState.TwoTestsDecideSubtree | packages/api/src/evidence-state.ts:81-87 | A pattern matches some subdomain of a host exactly when it matches the probe or its normal form ends in the dotted host. |
| EvidenceState.KeptReachIsAllowed | packages/api/src/evidence-state.ts:64-80 | Every host a kept cookie reaches, its own and for a domain cookie all subdomains, matches an allowed pattern. |
| EvidenceState.KeptCookieIsSafeExactlyWhen | packages/api/src/evidence-state.ts:54-91 | A kept cookie is safe for its whole reach if and only if no exclusion, in normal form, reaches below its host. |
| EvidenceState.NormalExclusionsAreRespected | packages/api/src/evidence-state.ts:81-87 | For exclusions and a host in normal form the filter's three suffix tests are enough: a kept cookie is safe. |
| EvidenceState.TrailingDotSlipsThrough | packages/api/src/evidence-state.ts:81-87 | For any bounded host and label, an exclusion written with a final dot keeps the domain cookie though it excludes a host the cookie reaches. |
| EvidenceState.AcceptedOriginsAreAuthorized | packages/api/src/evidence-state.ts:10-37 | Origins are accepted exactly when every one is an exact, authorized program origin. |
| EvidenceState.CookiesAreFiltered | packages/api/src/evidence-state.ts:54-91 | The cookies kept are exactly those the rules keep, in their order; one unreadable cookie refuses them all. |
| EvidenceState.StorageIsFiltered | packages/api/src/evidence-state.ts:93-113 | Storage moves exactly for the selected origins, in order, and only within bounds. |
| EvidenceState.TransferIsExact | packages/api/src/evidence-state.ts:40-114 | A transfer succeeds exactly when origins are authorized and the capture is readable and in bounds; what moves is an ordered part of it, and each cookie is unexpired and applies to a selected origin. |
| EvidenceState.TransferredCookiesAreSafe | packages/api/src/evidence-state.ts:40-114 | Every cookie that moves is safe for its whole reach, under exclusions and a host in normal form. |
| JournalSearch.SearchJournalNamespaces | packages/api/src/journal-config.ts:569-617 | The loop over the journals is the search: a page of at most 16, tagged, with what was truncated, unread and last refused. |
| JournalSearch.SearchIsBoundedAndTagged | packages/api/src/journal-config.ts:610-616 | At most 16 records, each tagged with a journal that answered and holds it. |
| JournalSearch.UnreadIsWhatDidNotAnswer | packages/api/src/journal-config.ts:583-609 | Every searched namespace is either answered or listed unread. |
| JournalSearch.CompleteSearchIsExact | packages/api/src/journal-config.ts:569-617 | Neither truncated nor unread: the result is every matching record of every namespace, in order. |
| JournalSearch.PartialSearchKeepsAnswers | packages/api/src/journal-config.ts:569-617 | Next to failures, a namespace that answered loses records only under `truncated`. |
| JournalSearch.AbsentIsTrue | packages/api/src/server.ts:1188-1256 | The lookup says `absent` exactly when something was searched, nothing was refused or unread, and no namespace holds a match. |
| JournalSearch.NotFoundIsTrue | packages/api/src/service.ts:4600-4640 | Recovery says `not found` exactly when every namespace was read and none holds an actionable record. |
| JournalConfig.Adapter.OpenServiceJournalSet | packages/api/src/journal-config.ts:327-447 | Opening yields the defined set; a start that fails closes every handle it opened and disposes of the store, and one that succeeds holds exactly its set open; only past namespaces and the current one are asked for. |
| JournalConfig.Adapter.CloseAll | packages/api/src/journal-config.ts:364-367 | Closing closes every handle once, however often it is called. |
| JournalConfig.EarlyNamespacesAreNotAsked | packages/api/src/journal-config.ts:409-437 | What the store would say of a namespace whose horizon is ahead makes no difference to a start: two stores that agree on all others give the same set. |
| JournalConfig.HistoryTakesNoIntent | packages/api/src/journal-config.ts:385-435 | Every journal in the history of an opened set, the current one past its horizon included, passes no intent and no dispatch mark over any run of calls, and passes everything else. |
| JournalConfig.AbsentCoversEveryNamespace | packages/api/src/server.ts:630-642 | After any start, `absent` means that the current namespace and every history entry was opened by this start under its own descriptor and key, and that the handle it got was searched, answered, and holds no match. |
| JournalConfig.ParseHistory | packages/api/src/journal-config.ts:505-560 | The history file is accepted exactly when it has at most 16 entries and each is accepted after those before it, and yields them in order. |
| JournalConfig.NamesAreDistinct | packages/api/src/journal-config.ts:504-512 | The names accepted are distinct, and none is the current one. |
| JournalConfig.TemplateReopensTheNamespace | packages/api/src/journal-config.ts:290-319 | Recorded, read back with its key file and opened, a namespace has exactly the descriptor and key it had as the current one if and only if it stops accepting before year 10000 (253402300800000); from then on the entry is refused. |
| JournalConfig.FarHorizonIsNotReopened | packages/api/src/journal-config.ts:107-112 | A time of year 9999 with a zone west of it configures a horizon past that bound, and the namespace's own recorded entry is then refused. |
| JournalConfig.OneMinuteWestIsRead | packages/api/src/journal-config.ts:107-112 | 9999-12-31T23:59:59-00:01 passes the pattern and is read as an instant past the bound: such a horizon can be configured. |
| IsoDates.WrittenMatchesExactly | packages/api/src/journal-config.ts:70 | An instant as it is written matches the accepted pattern if and only if it lies before year 10000. |
| JournalConfig.RecoverOnlyNeverAdmits | packages/api/src/journal-config.ts:625-650 | Over any run a recover-only journal passes no intent and no dispatch mark, refuses each, and answers everything else as if they had not been made. |

## Left out

- AutofillPorts.DispatchKeeps: a dispatch signalled only after its act has returned or failed is not modelled; the signal belongs to the act's answer.
- AutofillPorts.RecheckMatchesObserve: the recheck is a step of its own; the model does not call it from inside an act that is still running.
- AutofillWidgets.WriteExactSetWorks: recorded chip labels are not redacted or cut to 512 characters.
- AutofillPage.ResolveIsUnique: label patterns are arbitrary predicates on names, so the pattern language itself is not modelled; trimming knows ASCII white space only.
- AutofillReport.EveryRunHolds: displayed values, action ids, diagnostics and messages of a report are not modelled; a navigation observation is a flag. The JSON text of an expected exact set is left out, since its value is judged by the set itself.
- FaithfulWidget.ExactSetIsWritten: assumes the widget's popup appears at the first read; slower popups are covered by the results on any page.
- DownloadProtocol.EveryRunIsBounded: header parsing, TLS, decoders and bytes themselves are events with sizes; error codes, stages and ids of a report are left out, and so is the fetch function that tests inject.
- TransferOwnership.EveryRunConserves: says nothing of connection places against transfer places; a download's attempt may still drain after its transfer place is back.
- AttemptProtocol.LeaseIsEarned: peers are compared as addresses in canonical form; how an address is parsed and matched is a parameter, and the destination's own parsing and the request and tunnel modes are not modelled.
- TcpOwnership.EveryRunConserves: the limits of scopes and authorities are checked where they are created; default values are not.
- EngagementChain.Verify: a text is its UTF-8 bytes, one character each, as sizes count them; how a reader decodes bytes that are no UTF-8 is not modelled.
- LedgerProtocol.AcknowledgedIsDurable: a successful sync makes everything on file durable; no failing disk underneath is modelled.
- PacingProtocol.QueueIsPrompt: assumes timers that fire when due and no stop; the safety results hold for timers that fire at any later time.
- JournalConfig.TemplateReopensTheNamespace: how a platform parses dates is assumed only as ECMA-262 requires it, reading back what it writes (section 21.4.3.2) and honouring zone offsets (section 21.4.1.32).
- TokenBucket.RateIsBounded: refill is exact arithmetic rounded down; floating-point rounding of the elapsed fraction is not modelled.
- EvidenceState.TransferIsExact: the selected origins are a set; sorting them for the caller is not modelled, and upper and lower case are ASCII.
- JournalConfig.ParseHistory: file modes, file size and JSON syntax are left to the platform; an entry arrives as its fields, or as something that is not an entry.
- JournalConfig.AbsentCoversEveryNamespace: each namespace is read at its own moment; records written between two reads are not modelled.
- Applying bounty defaults, the pacing proxy around other policy methods and the evidence digest: each is one expression.
- Journal and key configuration from the environment, runtime qualification and history warnings: parsing and text.
- Route plumbing, the CLI, the operator panel, the login browser, event streams and artifacts: input and output around the parts modelled.
