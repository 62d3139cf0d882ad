# NetLink: sessions, commands, folders and ledgers, modelled and proved

NetLink lets the owner of a group of computers share storage, power control, remote
desktop and mobile data with other people. This project models the parts of it whose
guarantees hold over whole runs, and proves those guarantees. There is one module per
component, and each states what the component does as functions on values; where the
program updates state in place, a class does the same step by step, and its methods are
proved equal to those functions.

* `RefreshTokens`: rotation and revocation of refresh-token families, every database
  statement a step, any number of calls interleaved.
* `ReplayGuard`, `Verifiers`, `PowerServer`, `PowerSystem`: power commands from the
  request through the signed envelope to the machine that acts, over a network that
  delays, repeats and replays; remote-desktop grants share the verifier's replay guard.
* `AgentGuard`: admission of signed agent requests, a timestamp window in front of a
  swept table of nonces.
* `AccountGuard`, `RateLimit`, `InputSession`, `Challenges`: throttles, windows and
  budgets for passwords, requests, input events and emailed codes.
* `Ledger`: cached data-usage totals beside the log of metered events.
* `Remote`, `Mailbox`: the life of remote-desktop sessions, and the numbered post box two
  peers exchange signals through.
* `Paths`, `Disk`, `Vault`: approved folders, over a filesystem with symbolic links.
* `SigningInputs`, `Versions`, `Base64Url`, `GbText`: what is signed, which version is
  newer, and the two hand-written codecs. `Text` and `Clock` hold what several of them share.

The control plane's times are whole milliseconds, an agent's instants are nanoseconds
(`Clock`): a signed text prints an instant to the millisecond and cuts off the rest, so it
stands for a million instants. A signature is ideal: a message verifies exactly when the
holder of the key signed its text. Hashes are injective. Ids, nonces and secrets are fresh
values.

## Where the code keeps less than it says

Each of these is proved as an exact condition.

* Revoking a token family is final if and only if no rotation of that family is between
  claiming and inserting at that moment (`RefreshTokens.RevocationIsFinalIff`). A rotation
  that loses a race revokes the family before the winner has inserted, so the winner's
  token survives (`RevocationCanMissTheSuccessor`). For a spent token presented, with
  anything happening between the read and the revocation: `ReuseEndsFamilyIff`. The same
  condition decides whether the sessions of a device stay revoked until somebody signs in
  there again (`DeviceRevocationIsFinalIff`).
* A verifier reads the clock twice, once against the expiry and once to prune nonces, and
  the signature says no more of the expiry than its millisecond. A presentation can be the
  second acceptance of its message if and only if its first reading is before the expiry
  presented and its second past the millisecond signed (`ReplayGuard.ReadmittedIff`). Two
  readings that straddle an expiry do that (`StraddlingReadmits`), and so does one reading,
  inside the millisecond, of an expiry to which a fraction was added (`AlteredExpiryReadmits`);
  with one reading an expiry is safe if and only if it is at most a nanosecond past a
  whole millisecond (`OneReadingNeverSlipsIff`). Only so is a command acted on twice
  (`PowerSystem.SecondExecutionSlips`, `ActsAgainIff`) or a second session opened by a grant
  (`Verifiers.GrantOpensOneSession`, `SlippingGrantOpensAnother`).
* No signed agent request passes twice if and only if at most 300 s lie between its
  timestamp check and the insertion of its nonce (`AgentGuard.NoReplayIff`).
* The release signing input does not say how many artifacts it lists. Against the input of
  a clean manifest, a manifest presented is the one signed if and only if it has as many
  artifacts, and if and only if its fields hold no line break
  (`SigningInputs.ReleaseInputDeterminesManifestIff`). Folding the first of two artifacts
  into the minimum version keeps the input, and makes a verifier that runs 2.0.0 accept a
  manifest that asks for 2.0.1 (`Versions.FoldingIsAccepted`, `FoldingExample`).
* The two rate-limit stores answer a run of calls alike if and only if no hit with a limit
  below one opens a window (`RateLimit.StoresAreInterchangeableIff`).
* A claim accepts a code that has been replaced if and only if the challenge is still
  unconsumed and a resend fell between the read and the claim
  (`Challenges.ClaimedCodeIsLatestIff`, `StaleCodeIsAccepted`). The budget of 17 wrong
  codes is that of serial runs; with at most k calls about to count a wrong code and m
  about to replace the code at any one time it is (4 + k)(3 + m), which is reached for all
  k and m of at least one (`InterleavedCodeBudget`, `InterleavedCodeBudgetIsTight`).
* The daily usage figure agrees with the log if and only if nothing recorded earlier was
  dated in the day that has just begun (`Ledger.DailyFigureAgreesIff`).
* A sweep of stale remote sessions looks at 200 of them, and its query names no order. It
  is complete if and only if the live sessions not returned are in bounds
  (`Remote.SweepIsCompleteIff`), and complete whatever the query returns if and only if at
  most 200 are live or none is out of bounds (`CompleteForEveryChoiceIff`).
* A write stays inside its folder if and only if its last name is not a link to a vacant
  place outside and it does not put other bytes into a file that has a second (hard) name
  outside (`Vault.WriteConfinedIff`). The comment at lines 200-201 of `vault.go` says
  that missing parts cannot be links; a link whose target is missing is one.
* A listing shows names that cannot be asked for. The path given resolves to what was
  listed if and only if it holds no colon or NUL and does not begin with two backslashes,
  and, where it holds a backslash, the path read with slashes leads to the same entry
  (`Vault.ListedCanBeAskedForIff`).
* Version order treats build metadata as a pre-release (`Versions.BuildMetadataIsOlder`),
  where section 10 of Semantic Versioning 2.0.0 ignores it.

## Model

| member | source | states |
|---|---|---|
| `RefreshTokens.AtMostOneLive` | apps/api/src/auth/session.service.ts:57-134 | In every reachable state a family has at most one live token and rotation between its claim and its insert, counted together |
| `RefreshTokens.RunKeepsInv` | apps/api/src/auth/session.service.ts:57-198 | Every interleaving of reads, claims, inserts, links, revocations and dying calls keeps the invariant the family results rest on |
| `RefreshTokens.FamilyIsOnePath` | apps/api/src/auth/session.service.ts:148-198 | The tokens of a family, oldest first, form a single path of `replacedById` links: each but the last is spent and leads to the very next, or a call still owes that link |
| `RefreshTokens.DeadForever` | apps/api/src/auth/session.service.ts:57-134 | A family with neither a live token nor a rotation in flight never has one again, whatever runs |
| `RefreshTokens.SpentTokenLeadsToRevocation` | apps/api/src/auth/session.service.ts:66-74 | Presenting a token that has been spent or revoked puts the call on course to revoke its whole family |
| `RefreshTokens.LostClaimLeadsToRevocation` | apps/api/src/auth/session.service.ts:86-104 | A rotation that loses the conditional claim goes on to revoke the family |
| `RefreshTokens.RevocationIsFinalIff` | apps/api/src/auth/session.service.ts:129-134 | Revoking a family leaves it without a live token in every continuation if and only if no rotation of it is between claim and insert |
| `RefreshTokens.RevocationCanMissTheSuccessor` | apps/api/src/auth/session.service.ts:86-134 | A concrete interleaving in which the loser of a race revokes the family before the winner inserts, so that one live token outlives the revocation |
| `RefreshTokens.ReuseEndsFamilyIff` | apps/api/src/auth/session.service.ts:57-134 | A spent token is presented and its family revoked, with any steps of other calls in between: the family is dead for good if and only if none of its rotations is in flight at the revocation, which none in flight at the read and no race won since ensures |
| `RefreshTokens.ExchangeIsThreeSteps` | apps/api/src/auth/session.service.ts:86-104 | An undisturbed rotation is claim, insert and link, and their combined effect is exactly one row spent and linked and one row added |
| `RefreshTokens.ExchangeLeavesOneLive` | apps/api/src/auth/session.service.ts:86-104 | After an undisturbed rotation the successor is the only live token of the family |
| `RefreshTokens.SessionService.StartSession` | apps/api/src/auth/session.service.ts:41-47 | A sign-in opens a new family holding one live token, valid for the days the device is trusted for, and touches no other row |
| `RefreshTokens.SessionService.Rotate` | apps/api/src/auth/session.service.ts:57-104 | One whole rotation, case by case: unknown token, reuse, expiry, revoked device, or exchange, with the exact table each leaves, every other family untouched; reuse ends the family for good exactly when none of its rotations is in flight |
| `RefreshTokens.SessionService.ClaimToken` | apps/api/src/auth/session.service.ts:86-93 | The claim succeeds only on a row still unspent and unrevoked, and otherwise turns into a revocation |
| `RefreshTokens.SessionService.InsertSuccessor` | apps/api/src/auth/session.service.ts:148-198 | The successor is inserted into the same family with the lifetime the device is entitled to |
| `RefreshTokens.SessionService.RevokeFamily` | apps/api/src/auth/session.service.ts:129-134 | Every unrevoked row of the family gets the time and the reason, one revoked before keeps its stamp, and every row of another family stays as it was |
| `RefreshTokens.SessionService.RevokeDeviceSessions` | apps/api/src/auth/session.service.ts:121-127 | Every unrevoked row of the device is stamped and the number of rows touched is returned; none of its tokens is live before the next sign-in there exactly when no rotation on it is in flight |
| `RefreshTokens.OtherSessionsUntouched` | apps/api/src/auth/session.service.ts:57-134 | Over any run in which no token of a family is presented and its devices are not revoked, every token of it stays exactly as it was, whatever happens to other families |
| `RefreshTokens.DeviceRevocationIsFinalIff` | apps/api/src/auth/session.service.ts:121-127 | Revoking the sessions of a device leaves no token of it live in any continuation without a new sign-in there if and only if no rotation on it is between claim and insert |
| `RefreshTokens.SessionService.RevokeByToken` | apps/api/src/auth/session.service.ts:107-113 | Signing out stamps the unrevoked tokens of the presented one's family and no row of another family, leaving the family no live token; for an unknown token nothing changes |
| `ReplayGuard.MemoryNonceStore.Remember` | services/agent/pkg/command/command.go:181-197 | The loop drops exactly the expired entries, then spends the nonce or reports it spent |
| `ReplayGuard.AcceptedAgainIff` | services/agent/pkg/command/command.go:181-197 | A nonce accepted before is accepted again if and only if the first clock reading is before the expiry presented now and the second past the expiry stored then |
| `ReplayGuard.PruningNeverReadmits` | services/agent/pkg/command/command.go:181-197 | Along any run on a clock that does not go back, the second acceptance of one signed text slips: its first reading is before the expiry presented and its second past the millisecond signed |
| `ReplayGuard.ReadmittedIff` | services/agent/pkg/command/command.go:105-126 | An attempt can be the second acceptance of its message in some run if and only if it slips |
| `ReplayGuard.OneReadingNeverSlipsIff` | services/agent/pkg/command/command.go:105-126 | With one clock reading a verification, an expiry is safe at every instant if and only if it is at most one nanosecond past a whole millisecond |
| `ReplayGuard.AlteredExpiryReadmits` | services/agent/pkg/command/command.go:105-126 | A concrete run with one reading a verification in which a fraction of a millisecond added to the expiry has the message accepted twice |
| `ReplayGuard.StraddlingReadmits` | services/agent/pkg/command/command.go:234-278 | A concrete run of two verifications in which expiry falls between two readings and the message is accepted twice |
| `Verifiers.CommandVerifier.Verify` | services/agent/pkg/command/command.go:234-278 | A command is accepted exactly when it passes every check and its nonce is unspent; the nonce is spent only then; what each refusal means |
| `Verifiers.GrantVerifier.Verify` | services/agent/pkg/remotegrant/grant.go:174-218 | The same for a grant, with or without a nonce store |
| `Verifiers.GrantOpensOneSession` | services/agent/pkg/remotegrant/grant.go:174-218 | In any run of one grant verifier, a second presentation of a signed text is refused unless it slips |
| `Verifiers.SlippingGrantOpensAnother` | services/agent/pkg/remotegrant/grant.go:93-112 | A presentation that slips, of a grant issued before it expires, is accepted after an untouched one with the same signed text |
| `Verifiers.SlippingCommandIsAcceptedAgain` | services/agent/pkg/command/command.go:105-126 | The same of commands |
| `PowerServer.CreatedIff` | apps/api/src/power/power.service.ts:213-324 | A command is created if and only if the request is admissible with the helper the wake needs, nothing is outstanding for the target, and id and nonce are new |
| `PowerServer.RequestKeeps` | apps/api/src/power/power.service.ts:213-324 | A request keeps one outstanding command per target and changes no other command except as allowed |
| `PowerServer.CancelKeeps` | apps/api/src/power/power.service.ts:358-402 | Cancelling keeps the table invariant and moves only waiting commands |
| `PowerServer.CollectKeeps` | apps/api/src/power/power.service.ts:417-472 | Collecting keeps the table invariant, and no command that stopped waiting waits again |
| `PowerServer.ResultKeeps` | apps/api/src/power/power.service.ts:475-523 | Recording a result keeps the table invariant and changes nothing that was signed |
| `PowerServer.CollectDelivers` | apps/api/src/power/power.service.ts:417-472 | A poll hands over exactly the rows whose delivery it stamps, each due for the polling agent |
| `PowerServer.PowerService.Request` | apps/api/src/power/power.service.ts:213-324 | Who is refused and why, exactly which requests are written down and with which fields, what a cancel request calls off, and that nothing else changes |
| `PowerServer.PowerService.Cancel` | apps/api/src/power/power.service.ts:358-402 | The newest open command of the machine becomes cancelled now if it is still waiting; otherwise the answer says that it was sent or that there is none, and no row changes |
| `PowerServer.PowerService.Collect` | apps/api/src/power/power.service.ts:417-472 | A poll takes the ten oldest rows waiting for the agent inside their window, marks them sent now, expires what is open past its window, leaves the rest, and signs for each row taken its own fields |
| `PowerServer.PowerService.Record` | apps/api/src/power/power.service.ts:475-523 | When each of the four answers is given; a recorded result sets succeeded or failed and the time on that row and nothing else |
| `PowerSystem.AcceptedWasIssued` | services/agent/pkg/command/command.go:234-278 | Whatever the network did to an envelope, a command that verifies is one the server issued, to the device verifying it, up to fractions of a millisecond in its times |
| `PowerSystem.RunKeepsInv` | apps/api/src/power/power.service.ts:213-523 | Server, network and agents composed: every run of any length keeps the system invariant |
| `PowerSystem.EveryExecutionIsProper` | apps/api/src/power/power.service.ts:281-301 | In every run each execution is of an issued command, by the machine that was to act, never before its time, and only of one handed over inside its window and not called off |
| `PowerSystem.SecondExecutionSlips` | services/agent/pkg/command/command.go:234-278 | In every reachable state, an agent acts on a command acted on before only by a presentation that slips |
| `PowerSystem.ActsAgainIff` | services/agent/pkg/command/command.go:234-278 | Where the latest acceptance of a command was of its envelope as issued, presenting it once more makes the agent act again if and only if that presentation slips |
| `PowerSystem.NoCommandActedOnTwice` | services/agent/pkg/command/command.go:234-278 | In every run in which nothing slips no command is acted on twice, by one agent or by two |
| `PowerSystem.CalledOffNeverActs` | apps/api/src/power/power.service.ts:358-402 | Once a cancel was answered as called off, the command is in no later poll, and no agent has acted on it or ever does |
| `PowerSystem.CommandsSettle` | apps/api/src/power/power.service.ts:364-453 | In every run a command that has left waiting never waits again, and a delivery once stamped keeps its time |
| `PowerSystem.OneOutstandingCommand` | apps/api/src/power/power.service.ts:274-280 | In every run at most one unexpired command is open per target |
| `AgentGuard.AgentSignatureGuard.ConsumeNonce` | apps/api/src/agents/agent-signature.guard.ts:159-177 | A nonce is consumed at most once; a sweep removes exactly the entries past their time |
| `AgentGuard.AgentSignatureGuard.CanActivate` | apps/api/src/agents/agent-signature.guard.ts:63-151 | A request is let through exactly when its timestamp is in the window, it is signed by a known agent, and its nonce is new |
| `AgentGuard.RunKeepsInv` | apps/api/src/agents/agent-signature.guard.ts:63-178 | Every interleaving of checks, insertions and sweeps keeps admitted nonces remembered while they matter |
| `AgentGuard.NoReplayIff` | apps/api/src/agents/agent-signature.guard.ts:78-178 | No signed request passes twice under any interleaving and sweep schedule if and only if a check and its insertion are at most 300 s apart |
| `AgentGuard.SlowInsertReadmits` | apps/api/src/agents/agent-signature.guard.ts:78-178 | For any longer delay, a run that admits one request twice |
| `AccountGuard.AccountGuardService.LockedForSeconds` | apps/api/src/common/account-guard.service.ts:53-59 | The wait reported is the least number of seconds that covers the rest of the lock |
| `AccountGuard.AccountGuardService.RecordFailure` | apps/api/src/common/account-guard.service.ts:62-94 | The count goes up, or starts over after a quiet hour; the wait is none for four failures, then 30, 60, 120, 240, 480 and at most 900 seconds |
| `AccountGuard.AccountGuardService.RecordSuccess` | apps/api/src/common/account-guard.service.ts:103-105 | A success clears the row |
| `AccountGuard.AccountGuardService.WrongPassword` | apps/api/src/common/account-guard.service.ts:53-94 | A wrong password counts as a guess exactly when the account is not locked |
| `AccountGuard.GuessBudget` | apps/api/src/common/account-guard.service.ts:53-94 | Whatever row a run with no success begins with, any N consecutive guesses of it, wherever they lie, take at least 450 (N - 8) seconds, for every mix of waiting, backoff and decay |
| `AccountGuard.GuessBudgetIsTight` | apps/api/src/common/account-guard.service.ts:53-94 | Nine guesses made as early as possible take exactly that long |
| `RateLimit.MemoryRateLimitStore.Consume` | apps/api/src/common/rate-limit.store.ts:45-68 | One call against the in-memory store: the hit counted in the open window or opening a new one, what is left of the limit or the least wait in seconds, and no other open window touched |
| `RateLimit.MemoryRateLimitStore.Sweep` | apps/api/src/common/rate-limit.store.ts:79-85 | The deleting loop removes exactly the closed windows |
| `RateLimit.PostgresRateLimitStore.Consume` | apps/api/src/common/rate-limit.store.ts:110-160 | The same for one call against the shared table by one of many instances |
| `RateLimit.PostgresRateLimitStore.Sweep` | apps/api/src/common/rate-limit.store.ts:171-175 | The sweep removes exactly the closed windows from the shared table |
| `RateLimit.AnswersAgreeIff` | apps/api/src/common/rate-limit.store.ts:45-68 | From tables that agree on open windows the two stores answer alike if and only if the limit is at least one or a window is open |
| `RateLimit.TableRefinesReferenceIff` | apps/api/src/common/rate-limit.store.ts:110-175 | Any number of instances on one table, each sweeping on its own schedule, answer as one store that never sweeps if and only if every hit has a limit of at least one or falls into an open window |
| `RateLimit.MemoryRefinesReference` | apps/api/src/common/rate-limit.store.ts:45-86 | Sweeping never changes an answer of the in-memory store |
| `RateLimit.StoresAreInterchangeableIff` | apps/api/src/common/rate-limit.store.ts:41-176 | Both stores give the same answers on the same calls if and only if no hit with a limit below one opens a window |
| `RateLimit.SlidingWindowBound` | apps/api/src/common/rate-limit.store.ts:53-67 | In any closed interval as long as the window (of at least a second), at most twice the limit is let through, and at most two hits where the limit is below one |
| `RateLimit.SlidingWindowBoundIsTight` | apps/api/src/common/rate-limit.store.ts:53-67 | A run in one such interval in which exactly twice the limit is let through |
| `InputSession.Session.Allow` | services/agent/internal/remote/session.go:98-112 | An input event is let through exactly while its one-second window holds fewer than 200 |
| `InputSession.Session.HandleInput` | services/agent/internal/remote/session.go:68-93 | View-only input is refused and counted; control input is limited, then applied or rejected |
| `InputSession.Session.TakeRefused` | services/agent/internal/remote/session.go:124-130 | Refusals are handed over once |
| `InputSession.FloodBound` | services/agent/internal/remote/session.go:98-112 | In any one-second interval, both ends included, at most 400 events pass |
| `InputSession.FloodBoundIsTight` | services/agent/internal/remote/session.go:98-112 | A run of one second in which 400 pass |
| `Challenges.ChallengeService.Issue` | apps/api/src/auth/challenge.service.ts:64-126 | Issuing consumes every open challenge of the same user and purpose, leaves every other row as it was, and adds one open row |
| `Challenges.ChallengeService.Resend` | apps/api/src/auth/challenge.service.ts:132-194 | Resending, with its three refusals, replaces the code and restores the attempts |
| `Challenges.ChallengeService.Consume` | apps/api/src/auth/challenge.service.ts:203-258 | When a code is accepted, wrong or not looked at, with the purpose the challenge is for, the burning of the last attempt, and the table each leaves |
| `Challenges.RunKeepsInv` | apps/api/src/auth/challenge.service.ts:64-258 | In every serial run each row is sound (unconsumed means attempts left, resend k at least 60 k seconds after issue) and a user has one open challenge per purpose |
| `Challenges.AttemptsNeverRunOut` | apps/api/src/auth/challenge.service.ts:220-222 | In a serial run the refusal for spent attempts never occurs: the last wrong code has consumed the challenge |
| `Challenges.CodeBudget` | packages/contracts/src/auth.ts:11-15 | In a serial run no challenge is ever shown more than 17 wrong codes |
| `Challenges.CodeBudgetIsTight` | apps/api/src/auth/challenge.service.ts:132-258 | A run that shows it exactly 17 |
| `Challenges.AcceptedCodeIsTheLatest` | apps/api/src/auth/challenge.service.ts:132-258 | In a serial run an accepted code is the one mailed last for that challenge, less than ten minutes before |
| `Challenges.AcceptedIff` | apps/api/src/auth/challenge.service.ts:64-258 | In every serial run a code is accepted if and only if its challenge was issued for exactly the purpose given, still stands open, and the code is the one mailed last, less than ten minutes before; in the same case another code is wrong |
| `Challenges.ResentIff` | apps/api/src/auth/challenge.service.ts:132-194 | In every serial run a new code is mailed if and only if the challenge stands open, the last mail is a minute old, and it was mailed again less than three times |
| `Challenges.AcceptedForItsPurpose` | apps/api/src/auth/challenge.service.ts:203-258 | However the statements interleave, a challenge is accepted only for the purpose it was issued for |
| `Challenges.ConsumedForGood` | apps/api/src/auth/challenge.service.ts:203-258 | In a serial run a consumed challenge stays consumed and is shown no further code, right or wrong |
| `Challenges.AcceptedOnce` | apps/api/src/auth/challenge.service.ts:203-258 | In a serial run a challenge is accepted at most once |
| `Challenges.CallIsItsStatements` | apps/api/src/auth/challenge.service.ts:64-258 | The statements of an issue, a resend or a consume, one after the other with nothing in between, do to the table exactly what the whole call does |
| `Challenges.AtMostOneWinner` | apps/api/src/auth/challenge.service.ts:64-258 | However the statements of consuming calls, resends and new challenges interleave, each statement a step, a challenge is accepted at most once |
| `Challenges.ClaimedCodeIsLatestIff` | apps/api/src/auth/challenge.service.ts:132-258 | Interleaved: the claim of a call that read the right code is accepted if and only if the challenge is still unconsumed, and accepts a replaced code if and only if a resend replaced it since the read as well |
| `Challenges.StaleCodeIsAccepted` | apps/api/src/auth/challenge.service.ts:132-258 | A concrete interleaving in which a code is accepted after another has replaced it |
| `Challenges.InterleavedCodeBudget` | apps/api/src/auth/challenge.service.ts:132-258 | Interleaved: with at most k calls about to count a wrong code of a challenge and m about to replace its code at any one time, it is shown at most (4 + k)(3 + m) wrong codes |
| `Challenges.InterleavedCodeBudgetIsTight` | apps/api/src/auth/challenge.service.ts:132-258 | For all k and m of at least one, a run within those bounds that shows it exactly (4 + k)(3 + m) |
| `Ledger.DataService.RefreshUsage` | apps/api/src/data/data.service.ts:596-676 | The refresh, case by case: a revoked row stays, one past its time expires, any other gets the figures of what was recorded and is paused if and only if they exhaust it |
| `Ledger.DataService.Fold` | apps/api/src/data/data.service.ts:625-646 | The polling loop records what is new and adds exactly that to both totals |
| `Ledger.DataService.PauseAllocation` | apps/api/src/data/data.service.ts:458-486 | Pausing sets the status to paused now, resuming sets it to active without a pause time, and nothing else changes |
| `Ledger.DataService.UpdateAllocation` | apps/api/src/data/data.service.ts:488-528 | A total below what is used is refused; otherwise only the named fields change |
| `Ledger.DataService.Open` | apps/api/src/data/data.service.ts:329-376 | A first grant starts from zero; a later one sets the limits, reactivates, and keeps the used figures and their day |
| `Ledger.DataService.Revoke` | apps/api/src/data/data.service.ts:537-582 | Revoking sets status and time and nothing else |
| `Ledger.RecordedOnce` | apps/api/src/data/data.service.ts:625-639 | Recording a batch adds events of this allocation from this batch only, no reference twice, and leaves none of the batch out |
| `Ledger.ReplayAddsNothing` | apps/api/src/data/data.service.ts:625-639 | A repeated or overlapping batch adds nothing that is in the log already |
| `Ledger.DailyFigureAgreesIff` | apps/api/src/data/data.service.ts:612-647 | After a refresh the daily figure is the log's total for today if and only if, where the day has changed, nothing recorded before was dated today |
| `Ledger.FutureEventIsMissed` | apps/api/src/data/data.service.ts:612-647 | A concrete log with an event dated tomorrow, missing from tomorrow's figure |
| `Ledger.ActiveIsUnderBothLimits` | apps/api/src/data/data.service.ts:649-666 | A refresh that leaves the status active is strictly under both limits, before expiry, of an allocation that was active |
| `Ledger.TotalsAgreeWithLog` | apps/api/src/data/data.service.ts:596-676 | In every serial run of grants, pauses, changes, revocations and refreshes with events not dated ahead, both cached totals are the log's, in which no reference occurs twice |
| `Mailbox.CollectionTakesFront` | apps/api/src/remote/remote.service.ts:403-435 | A collection of at most 200 hands over the oldest undelivered signals of the other role in ascending order and leaves the rest as they were |
| `Mailbox.TwoQueues` | apps/api/src/remote/remote.service.ts:371-435 | Under every interleaving of locked appends and collections the stored numbers are exactly 1 to n, and for each role what it collected followed by what still waits is what the other role posted, in order |
| `Mailbox.WithoutTheLockNumbersCollide` | apps/api/src/remote/remote.service.ts:371-394 | Without the row lock two appends whose reads come first choose the same number |
| `Remote.RemoteService.CreateSession` | apps/api/src/remote/remote.service.ts:117-220 | After a sweep: refused exactly for want of permission, a heartbeat, or because another viewer's session survives on the computer; on acceptance exactly the viewer's own session there is closed, and every other survivor is as it was |
| `Remote.RemoteService.PostSignal` | apps/api/src/remote/remote.service.ts:306-350 | Posting: who may, what an expired or ended session answers, whom `bye` names, the number and place of a stored signal, and that all else stays |
| `Remote.RemoteService.CollectSignals` | apps/api/src/remote/remote.service.ts:403-435 | The rows returned are the next batch, and exactly they are marked |
| `Remote.RemoteService.MarkConnected` | apps/api/src/remote/remote.service.ts:474-504 | Connecting activates a session that has not ended and keeps the first connection time |
| `Remote.RemoteService.Beat` | apps/api/src/remote/remote.service.ts:284-292 | A heartbeat of the viewer moves the time last seen of a session that has not ended, and nothing else |
| `Remote.RemoteService.Close` | apps/api/src/remote/remote.service.ts:576-626 | Closing is idempotent and empties the post box |
| `Remote.RemoteService.ExpireStale` | apps/api/src/remote/remote.service.ts:636-674 | The loop over the sessions the query returned, any 200 live ones in any order or all, closes exactly those out of bounds, each for a bound it breaks, and returns how many |
| `Remote.RemoteService.EndSessionsForDevice` | apps/api/src/remote/remote.service.ts:684-693 | Every live session of the device is closed and counted |
| `Remote.SessionsOnlyMoveForward` | apps/api/src/remote/remote.service.ts:117-693 | After any run of calls: one live session per agent at most, ended sessions hold no signals, every session has only moved forward along pending, connecting, active, ended, and an ended one is unchanged |
| `Remote.StaleIffOutOfBounds` | apps/api/src/remote/remote.service.ts:645-667 | A session is given a reason to close exactly when it breaks one of the five bounds |
| `Remote.SweepIsCompleteIff` | apps/api/src/remote/remote.service.ts:636-674 | Whichever live sessions the query returned, every survivor of the sweep meets all five bounds if and only if the live ones not returned already did |
| `Remote.CompleteForEveryChoiceIff` | apps/api/src/remote/remote.service.ts:636-674 | A sweep is complete whichever sessions the query returns if and only if at most 200 are live or none of them is out of bounds |
| `Remote.SmallSweepIsComplete` | apps/api/src/remote/remote.service.ts:636-674 | With at most 200 live sessions a sweep is complete, and a second one at the same instant closes nothing |
| `Paths.WithinRootIsPrefix` | services/agent/internal/files/vault.go:231-240 | On clean absolute paths the test on the text is exactly the prefix test on names |
| `Paths.JoinLeads` | services/agent/internal/files/vault.go:156-163 | Joining a relative path to a location leads where its steps lead from there, and is clean |
| `Paths.ParseRender` | services/agent/internal/files/vault.go:156-172 | Reading a rendered location back gives its names |
| `Paths.NamesAreClean` | services/agent/internal/files/vault.go:300-309 | Names joined to a relative path are unchanged by cleaning |
| `Disk.WalkOn` | services/agent/internal/files/vault.go:170-192 | Walking a path is walking a first part of it and then the rest from where that leads, links included |
| `Disk.NamesLead` | services/agent/internal/files/vault.go:170-192 | The name of an entry that is no link leads to that entry |
| `Disk.MkdirAllChain` | services/agent/internal/files/vault.go:424-436 | Making directories adds a chain below the deepest part that exists, and nothing where a link to a missing place stands |
| `Disk.WrittenIsThere` | services/agent/internal/files/vault.go:384-420 | What a path leads to after a write that succeeds: the data, the old bytes with the data appended, or overlaid |
| `Disk.Moved` | services/agent/internal/files/vault.go:442-460 | A rename takes an entry and all below it to the new name, node by node |
| `Disk.RenameKeepsTree` | services/agent/internal/files/vault.go:442-460 | A rename leaves every entry in a directory under a proper name |
| `Vault.FolderVault.Approve` | services/agent/internal/files/vault.go:72-101 | Approved exactly when the path leads to a directory; what is stored is the place the path leads to, with the mode given, and no other folder changes |
| `Vault.FolderVault.ExistingAncestorIsInside` | services/agent/internal/files/vault.go:202-225 | The climbing loop ends and answers whether the nearest part that exists lies in the root |
| `Vault.FolderVault.ResolvePath` | services/agent/internal/files/vault.go:139-195 | Resolution; absolute paths, streams and NUL are always refused, and an unknown folder exactly then |
| `Vault.FolderVault.List` | services/agent/internal/files/vault.go:256-318 | A listing shows the entries of the folder resolved to, links out of the root left out |
| `Vault.FolderVault.Open` | services/agent/internal/files/vault.go:324-355 | A read succeeds exactly when the path is resolved to a file and the offset lies within it, and returns the bytes from there |
| `Vault.FolderVault.Write` | services/agent/internal/files/vault.go:376-421 | A write loses and changes no entry and no bytes but those of one file, which it creates, cuts, overlays or extends as the offset says; refused, it changes nothing |
| `Vault.FolderVault.MakeDir` | services/agent/internal/files/vault.go:424-436 | Making a folder makes folders only, loses nothing, and on success a folder is there; refused in a read-only root |
| `Vault.FolderVault.RenameItem` | services/agent/internal/files/vault.go:442-460 | Renaming succeeds exactly where a directory is neither replaced nor put below itself; the entry and all below it then stand under the new name, gone from the old, and the rest is as it was |
| `Vault.FolderVault.Delete` | services/agent/internal/files/vault.go:467-484 | Deleting succeeds exactly on an entry with nothing below it that is not the root; that entry is gone and its path leads nowhere; nothing else changes |
| `Vault.ResolveStaysInside` | services/agent/internal/files/vault.go:139-195 | Whatever is asked, a resolved path names what is really at or below the root, or hangs off a folder that really is |
| `Vault.WriteConfinedIff` | services/agent/internal/files/vault.go:376-421 | A write changes nothing outside the root if and only if its last name is not a link to a vacant place outside and it puts no other bytes into a file with a second name outside |
| `Vault.LinkToVacantPlace` | services/agent/internal/files/vault.go:197-201 | A concrete shared folder with such a link, where a write request for it creates the place it points to |
| `Vault.WriteLeavesAloneIff` | services/agent/internal/files/vault.go:376-421 | A write leaves an entry outside the root the same, bytes included, if and only if it neither creates it through a last link nor rewrites the file it names |
| `Vault.RequestLeavesAloneIff` | services/agent/internal/files/vault.go:376-484 | One request leaves an entry outside the folder it names the same, bytes included, if and only if it is not a write that alters that entry |
| `Vault.NothingElseActs` | services/agent/internal/files/vault.go:72-137 | Approving, revoking, and every request to a folder unknown or read-only leave the disk as it was |
| `Vault.OutsideUnchanged` | services/agent/internal/files/vault.go:139-240 | Any run of approvals, revocations, writes, new folders, renames and deletions leaves an entry exactly as it was if it is outside the writable folders throughout and no write on the way alters it through a link or a second name |
| `Vault.MadeIsThere` | services/agent/internal/files/vault.go:424-436 | Making a folder that succeeds leaves a folder there, inside the root |
| `Vault.UploadResumes` | services/agent/internal/files/vault.go:372-421 | A first part, also an empty one, written from the start and the rest at the offset reached leave the two parts one after the other in the file the request is resolved to, unless the first write creates it outside |
| `Vault.ReadsStayInside` | services/agent/internal/files/vault.go:256-355 | Whatever a request reads is at or below the root |
| `Vault.ShownIffReachable` | services/agent/internal/files/vault.go:277-298 | A name is shown if and only if it is there and what it leads to exists inside the root |
| `Vault.ListedCanBeAskedForIff` | services/agent/internal/files/vault.go:289-309 | The path a listing gives is resolved to what was listed if and only if it holds no colon or NUL and no two leading backslashes, and, where it holds a backslash, reading it with slashes leads to the same entry |
| `SigningInputs.BuildPowerInput` | services/agent/pkg/command/command.go:107-126 | The builder writes the nine lines of the power input in order |
| `SigningInputs.BuildGrantInput` | services/agent/pkg/remotegrant/grant.go:93-112 | The builder writes the nine lines of the grant input in order |
| `SigningInputs.BuildReleaseInput` | services/agent/pkg/release/release.go:95-120 | The builder writes six lines on the release and then five on each artifact, in order |
| `SigningInputs.PowerInputDeterminesCommand` | services/agent/pkg/command/command.go:107-126 | Against a signed command without line breaks the texts are equal if and only if all fields are, the times to the millisecond, whatever the presented fields hold |
| `SigningInputs.GrantInputDeterminesGrant` | services/agent/pkg/remotegrant/grant.go:93-112 | The same for grants |
| `SigningInputs.AgentInputDeterminesRequest` | apps/api/src/agents/agent-signature.guard.ts:205-222 | The same for agent requests, the method up to case and the body through its digest |
| `SigningInputs.ReleaseInputDeterminesManifestIff` | services/agent/pkg/release/release.go:95-120 | A manifest presented with the input of a clean signed one is that one, hash case and fractions of a millisecond aside, if and only if it has as many artifacts, and if and only if its fields are clean |
| `SigningInputs.FoldingKeepsInput` | services/agent/pkg/release/release.go:95-120 | Writing the first artifact of any manifest into its minimum version gives a different manifest with the same input |
| `SigningInputs.DomainsNeverMeet` | apps/api/src/agents/agent-signature.guard.ts:205-222 | Inputs of different domains are never equal, whatever their fields hold |
| `Versions.SplitVersion` | services/agent/pkg/release/release.go:312-335 | The filling loop yields the three numbers and the suffix the order looks at |
| `Versions.CompareParts` | services/agent/pkg/release/release.go:285-309 | The comparing loop and the suffix rules equal the order on numbers and suffix |
| `Versions.CompareVersions` | services/agent/pkg/release/release.go:281-310 | Two strings compare as what they are split into |
| `Versions.SignIsTotalOrder` | services/agent/pkg/release/release.go:285-309 | On numbers and suffix the sign is antisymmetric, chains, and is zero only for what compares alike |
| `Versions.CompareIsTotalPreorder` | services/agent/pkg/release/release.go:281-310 | On all strings: swapping sides swaps the sign, older-or-equal chains with the right sign, and equal strings compare alike with everything |
| `Versions.KeyOfRender` | services/agent/pkg/release/release.go:312-335 | A written version, with or without `v`, white space and suffix, is read back to its numbers and suffix |
| `Versions.WrittenOrder` | services/agent/pkg/release/release.go:281-335 | Written versions go by first, second and third number; of equal numbers the one without suffix is newest, and suffixes go by the dictionary |
| `Versions.BuildMetadataIsOlder` | services/agent/pkg/release/release.go:296-309 | Build metadata makes a version older than the same numbers without it |
| `Versions.UpdateVerifier.Verify` | services/agent/pkg/release/release.go:166-224 | A manifest is accepted exactly when it is authentic, newer, within reach and sound; when it is called a downgrade or too old to jump |
| `Versions.FoldingIsAccepted` | services/agent/pkg/release/release.go:95-224 | A genuine manifest that is too new to jump to is accepted, under the signature it was issued with, once its first of at least two artifacts is folded into its minimum |
| `Versions.FoldingExample` | services/agent/pkg/release/release.go:95-224 | Concrete clean manifests of this kind: version x.(y+1).0 asking for x.y.z where x.y.0 runs |
| `Versions.AcceptedStrictlyIncreases` | services/agent/pkg/release/release.go:166-224 | Along any run of offers each accepted version is newer than the one running at the start and than all accepted before, so no version or other spelling of it recurs and no manifest is accepted twice |
| `Base64Url.AlphabetOrder` | apps/mobile/src/lib/base64url.ts:1-16 | The letter of a digit is the alphabet's character at that place |
| `Base64Url.OneNumber` | apps/mobile/src/lib/base64url.ts:17-32 | Three bytes and their four digits are one number of 24 bits |
| `Base64Url.ToBase64Url` | apps/mobile/src/lib/base64url.ts:17-32 | The encoding loop yields the digits of the bytes, four for three |
| `Base64Url.FromBase64Url` | apps/mobile/src/lib/base64url.ts:34-57 | The decoding loop, its 32-bit accumulator never masked, yields the bytes of the digits |
| `Base64Url.DecodeEncode` | apps/mobile/src/lib/base64url.ts:17-57 | Decoding undoes encoding for every byte string |
| `Base64Url.EncodeDecodeIff` | apps/mobile/src/lib/base64url.ts:17-57 | Encoding undoes decoding exactly on canonical texts |
| `Base64Url.JunkIsSkipped` | apps/mobile/src/lib/base64url.ts:40-52 | Characters outside the alphabet change nothing, wherever they stand |
| `GbText.RoundTrip` | apps/desktop/frontend/src/screens/MemberAccessScreen.tsx:344-359 | Showing a positive amount of bytes as gigabytes and reading it back gives the amount, of any size |
| `GbText.GbToBytesIsFloor` | apps/desktop/frontend/src/screens/MemberAccessScreen.tsx:353-359 | On every text the answer is the amount rounded down to whole bytes, or nothing for zero or for a text that is no decimal |

## Left out

* HTTP controllers, the database mapper, mail, push messages, audit records, metrics,
  logging and screens: input and output without state the properties depend on.
* Cryptography: signatures are ideal, hashes injective, codes compared directly.
* WebRTC, screen capture, input injection, key storage, services and printers: foreign calls.
* Permission checks, metadata scrubbing, key tables and MAC parsing: true, and easy.
* Calendar formatting of timestamps: a text without line breaks, one for each millisecond.
* Calls that read and then write without a guard (cancel against collect, mark-connected
  against close, recording a failure, refreshing usage) are single steps; rotation,
  issuing, resending and consuming codes, spending a request nonce and appending a signal
  are split into their database statements.
* Where a query for one row names no order and several fit, the oldest is returned. (The
  sweep of remote sessions is proved for every choice.)
* Where commands are ordered by the time the database stamped on them, that is taken to be
  the order in which they were created.
* An agent that restarts has an empty nonce store; `PowerSystem` has no restarts, and each
  device enrols once.
* Deleting users, devices, agents and spaces, and what the database deletes with them.
* Allocations summing to at most the balance, `revoked` or `expired` allocations staying so,
  and a power result respecting an earlier one: the code does not keep these.
* Provider calls, the session seconds of a usage event and its device.
* A result recorded for a session violation, the connection strategy and the mode of a
  remote session: stored and never decided on. Permissions and the confirmation code of a
  new session are one flag.
* The operating system's own limit on links is taken to be the library's (255); a smaller
  one only makes more requests fail. Permissions, space, name lengths and files changed by
  other programs between two system calls of one request are not modelled.
* Windows path rules beyond the drive-letter, network-path and colon checks.
* The size, time and order of listed entries, and checksums of files.
* Strings are sequences of characters, compared by code point; byte strings that are not
  valid UTF-8 are not modelled.
