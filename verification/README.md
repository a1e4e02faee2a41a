# Verified model of the Alusa billing, finance and account protocols

This project models the protocols and calculations of the school-management system Alusa whose correctness is hard
to see from one function, and proves what they promise. Each module follows one component:

- `BillingClaims`: the trial and checkout claims of one billing account row. Any number of workers act on it by
  conditional statements; a claim is CLAIMED, then REQUESTING, and only a CLAIMED one may be taken over.
- `BillingSubscription`: the account update from a Stripe subscription, its event-time watermark, the snapshot that
  guards it, and the plan changes that it finalizes or withdraws in one transaction.
- `WebhookLease`: claims, leases and finalizations of one webhook event, and the row lock of a billing mutation.
- `InvoiceUpsert`: the upsert of one provider invoice, in which PAID is absorbing.
- `UploadQuota`: daily upload quotas against the reservations that account for them.
- `MobileSession`: refresh-token rotation, revocation and session versions.
- `ActionToken`, `PasswordOtp`: single-use credentials and the password writes they allow.
- `Reconciliation`: the five resolvers of reconciliation issues, each a review from earlier reads followed by a
  serializable transaction with a second check, a compare-and-set and an audit row.
- `RecoveryConditions`: exactly when those resolvers resolve, on the columns of the rows they read.
- `CivilDate`, `LocalMidnight`: proleptic Gregorian dates as in section 21.4.1 of ECMA-262, date keys, and the search
  for the instant at which a date starts in a timezone.
- `PriceBand`: the price band of a school, which changes only after three equal monthly closes.
- `CpfCheck`, `BrlText`: check digits, and the amount printer and parser.
- `Wrappers`, `DecimalText`, `TrimmedText`, `AuthContexts`: what several modules share.
- `RealtimeFeed`: the shared poll for finance events with one cursor and remembered keys per subscriber.

How concurrency is modelled: one SQL statement, or one transaction whose reads cannot be overtaken, is one step; a
run is a sequence of steps of all workers in commit order. Where an operation reads and later writes, its method takes
what others commit in between as a parameter (`gap`, `others`, `seen`, `Meanwhile`), and its contract holds for all of
them. A sweep sees the rows that were committed when its statement ran, not those that follow before its transaction
commits. A `throw` inside a transaction rolls it back. Time is a parameter of each step, so it may be read by different
workers in any order; rows are numbered in the order in which they commit. Random tokens and hashes are identified with
row numbers, so distinct tokens are distinct. A timezone is a function from instants to offsets.

Where the code does less than its comments or names suggest, the code is modelled and the exact condition is proved:

- The start of a date is the second of two local midnights when clocks go back over midnight no later than midnight
  UTC (`LocalMidnight.StartIsFirst`, `SecondMidnightIsReturned`).
- An update without a snapshot, or with one that leaves the watermark out, can move the watermark back
  (`BillingSubscription.UnguardedWrite`, `LateWriteMovesBack`).
- A login or refresh that commits between the sweep and the commit of a revocation survives it
  (`MobileSession.DeadExactlyWhenNoneMissed`, `LoginDuringRevocation`, `RefreshDuringRevocation`); tokens of older
  versions are dead all the same.
- A cancellation that is requested between the withdrawal and the commit of an account update stays pending on its plan
  change (`BillingSubscription.NoCancellationLeft`, `CancellationDuringUpdate`).
- Two overlapping creations leave two unspent tokens, or two open challenges (`ActionToken.OverlappingCreations`,
  `PasswordOtp.OverlappingRequests`, and the two lemmas `SingleExactlyWhenNoneMissed`).
- A worker id used for two claims is fenced by the later one only: a second finalization under it takes effect exactly
  when the id was claimed again (`WebhookLease.SecondFinalization`, `ReusedIdIsNotFenced`).
- The first PAID upsert of an invoice writes its own amount and those failure columns that it gives; a column that it
  leaves out keeps the failure of an earlier upsert. The next upsert clears them (`InvoiceUpsert.PaidFromFirst`,
  `PaidKeepsEarlierFailure`).
- The resolver of linked payments does not compare the issue's entity in its update (`Reconciliation.LinkedRerun`).
- Dates and months before the year 100 are misread (`LocalMidnight.EarlyDatesAreMisread`, `PriceBand.PreviousMonthIsExact`).

`dafny verify dfyconfig.toml` checks the whole project.

## Model

| member | source | states |
|---|---|---|
| BillingClaims.RunKeepsSound | packages/platform-billing/src/prisma-store.ts:111-370 | In every interleaving of statements by any number of workers the trial claim and the checkout claim are never both held, and the four columns of each claim always agree |
| BillingClaims.OneRequestAtMost | packages/platform-billing/src/prisma-store.ts:189-203 | At most one request, over both claims and all keys, is REQUESTING for an account |
| BillingClaims.RequestPersists | packages/platform-billing/src/prisma-store.ts:111-370 | A REQUESTING claim keeps all its columns however long it waits, until its own release, clear or bind, or, for the trial claim, an applied subscription |
| BillingClaims.GrantsAreSeparated | packages/platform-billing/src/prisma-store.ts:311-318 | Between any two moves to REQUESTING in a run lies a statement that may end the first request |
| BillingClaims.TakeoverIsStale | packages/platform-billing/src/prisma-store.ts:133-154 | A held key is replaced by another one only when it is CLAIMED for more than five minutes, and then by a new claim without a deadline |
| BillingClaims.OvertakenIsFenced | packages/platform-billing/src/prisma-store.ts:192-368 | A worker whose key no longer holds a claim, by takeover or otherwise, cannot start, release, bind or clear anything at any later time until it claims again, for both claims and whatever others do |
| BillingClaims.ReserveTakesFreeClaim | packages/platform-billing/src/prisma-store.ts:114-154 | A reservation on an account without claim, subscription or trial, alone, gets the claim, whether or not the row existed |
| BillingClaims.FirstReservationWins | packages/platform-billing/src/prisma-store.ts:111-187 | Of any number of workers that reserve a free account within five minutes, in any interleaving, exactly the first whose statement changes the row gets the claim, and no later one changes it |
| BillingClaims.OneTrialPerAccount | packages/platform-billing/src/prisma-store.ts:133-147 | Once an account has had a subscription or a trial, it never gets a trial claim again in any run, and without one from before no trial request can start |
| BillingClaims.TrialClaimFindsNothing | packages/platform-billing/src/prisma-store.ts:133-147 | In any run, a claim of the trial that changes the row finds no subscription, no trial and no checkout claim |
| BillingClaims.TrialClaimedExactly | packages/platform-billing/src/prisma-store.ts:133-154 | Which accounts get a trial claim, exactly, on the row's columns |
| BillingClaims.CheckoutByStatus | packages/platform-billing/src/prisma-store.ts:246-271 | Which accounts get a checkout claim, exactly, status by status: none with a subscription in force, a trialing or paused one only to reactivate an unpaid trial that is over or without a subscription |
| BillingClaims.ColumnsAfter | packages/platform-billing/src/prisma-store.ts:79-370 | Column by column, the only statements that write it and what: customer, subscription, trial end, payments, status, access and pending change |
| BillingClaims.ClaimsAfter | packages/platform-billing/src/prisma-store.ts:111-370 | The same for the two claims: taken, started for twenty hours, ended, or left alone |
| BillingClaims.NewRows | packages/platform-billing/src/prisma-store.ts:79-131 | What a missing row becomes, and by which two statements only |
| BillingClaims.AbandonedCheckout | packages/platform-billing/src/prisma-store.ts:246-370 | With statements of others between its three statements, an abandoned checkout leaves subscription and trial alone, keeps the access while it is open and of a reactivation for good, and restores the account exactly under the stated condition |
| BillingClaims.RetryWindow | packages/platform-billing/src/prisma-store.ts:205-218 | Until a request is ended, marking it as started again under the same key succeeds exactly during the twenty hours after it was granted, whatever other workers do |
| BillingClaims.BillingAccountStore.ReserveTrialSubscriptionClaim | packages/platform-billing/src/prisma-store.ts:111-187 | The row after the two statements with others in between; an account that had a subscription or a trial is returned without a trial claim; returns exactly for a new claim, a subscription, a trial, an own CLAIMED claim or an own request in its window, and otherwise throws the stated error |
| BillingClaims.BillingAccountStore.MarkTrialSubscriptionRequestStarted | packages/platform-billing/src/prisma-store.ts:189-224 | Succeeds exactly when it moves the claim to REQUESTING or the same key may retry; the error otherwise |
| BillingClaims.BillingAccountStore.ReleaseTrialSubscriptionClaim | packages/platform-billing/src/prisma-store.ts:226-240 | Clears the trial claim of its own key only, and that key does not hold it afterwards |
| BillingClaims.BillingAccountStore.MarkCheckoutPending | packages/platform-billing/src/prisma-store.ts:242-309 | Succeeds exactly when it takes the claim or the same key may retry; which of the four errors otherwise |
| BillingClaims.BillingAccountStore.MarkCheckoutRequestStarted | packages/platform-billing/src/prisma-store.ts:311-328 | Succeeds exactly when it moves the claim to REQUESTING or the same key may retry; the error otherwise |
| BillingClaims.BillingAccountStore.BindCheckoutSubscription | packages/platform-billing/src/prisma-store.ts:330-350 | Binds the subscription and ends the checkout claim in one statement, for its own key and customer only |
| BillingClaims.BillingAccountStore.ClearCheckoutClaim | packages/platform-billing/src/prisma-store.ts:352-370 | Two statements with others in between; reports whether the second one cleared a claim, and its key holds none afterwards |
| BillingSubscription.GuardedWriteAdvances | packages/platform-billing/src/prisma-store.ts:408-414 | A write with an event time and the watermark of an earlier read in its snapshot moves the watermark forward or not at all, wherever it read the row |
| BillingSubscription.WatermarkNeverMovesBack | packages/platform-billing/src/prisma-store.ts:462-486 | Over every history in which snapshot, read and write are separate moments, guarded updates never move the watermark back |
| BillingSubscription.UnguardedWrite | packages/platform-billing/src/prisma-store.ts:462-492 | An update with an event time moves the watermark back exactly when it was not outdated at the read, the row is newer than the event at the write, and its snapshot, if any, matches the row found |
| BillingSubscription.LateWriteMovesBack | packages/platform-billing/src/prisma-store.ts:475-492 | It occurs, for every row and event, without a snapshot and with one that leaves the watermark out |
| BillingSubscription.PreparedIsWritten | packages/platform-billing/src/prisma-store.ts:462-486 | A snapshot just taken from the row matches it, so the update is written unless it is outdated |
| BillingSubscription.StaleSnapshotIsRefused | packages/platform-billing/src/prisma-store.ts:462-486 | An update prepared from one row is written over another exactly if the two agree on every column it compares |
| BillingSubscription.NewestWins | packages/platform-billing/src/prisma-store.ts:416-486 | With updates that take their snapshot, if any, from the row they are written to, and distinct event times, the row ends with the newest event's own status, plan, subscription, price, period end, cancellation, trial end, event id and access, each in its column, and its time |
| BillingSubscription.OldStreamIsIgnored | packages/platform-billing/src/prisma-store.ts:408-414 | A row newer than every event of such a stream stays as it is |
| BillingSubscription.ArrivalOrderIsIrrelevant | packages/platform-billing/src/prisma-store.ts:408-486 | Two arrival orders of the same events, with or without snapshots, end with the same always-assigned columns and the same watermark |
| BillingSubscription.AllOrNothing | packages/platform-billing/src/prisma-store.ts:394-517 | Account update, each core column from its own property, and plan-change finalization commit together or not at all, and which of lease, snapshot and plan change was not as expected when nothing commits |
| BillingSubscription.OtherColumns | packages/platform-billing/src/prisma-store.ts:423-461 | The other columns after an applied update: optional ones given or left out, the ended trial claim, the claim token, the version of the access, and a withdrawn pending change |
| BillingSubscription.LeaseIsRequired | packages/platform-billing/src/prisma-store.ts:394-404 | The lease check refuses exactly an update whose worker does not hold the event it names, as being processed |
| BillingSubscription.FinalizedExactly | packages/platform-billing/src/prisma-store.ts:494-517 | A finalization goes through exactly if the plan change found is the named one in every column and still waits, and what it then becomes |
| BillingSubscription.LateEventChangesNothing | packages/platform-billing/src/prisma-store.ts:408-414 | Once the row was newer than an event, the event changes nothing at any later time of any guarded history, and its transaction returns the row unless its lease is lost |
| BillingSubscription.NoCancellationLeft | packages/platform-billing/src/prisma-store.ts:519-541 | After an applied update that does not cancel, the account has no pending cancellation, and the only plan changes of the account that have one are those committed so between the withdrawal and the commit |
| BillingSubscription.CancellationDuringUpdate | packages/platform-billing/src/prisma-store.ts:519-541 | The exception occurs: a cancellation committed in between stays pending after an applied update |
| BillingSubscription.EndedChangesStay | packages/platform-billing/src/prisma-store.ts:494-541 | The transaction never leaves APPLIED, FAILED or CANCELED plan changes, whatever others commit to other rows |
| BillingSubscription.OtherChangesStay | packages/platform-billing/src/prisma-store.ts:494-541 | A plan change that is not the finalized one changes exactly if it is a waiting cancellation of the account and the update is applied without cancelling; then it is canceled at the time |
| BillingSubscription.BillingDatabase.UpdateAccountFromStripeSubscription | packages/platform-billing/src/prisma-store.ts:391-549 | The lease check and the statements in place, with rollback on a throw, have exactly the outcome of the transaction that the lemmas speak about |
| WebhookLease.LeaseIsOpenClaim | packages/platform-billing/src/prisma-store.ts:798-812 | At every moment of every run a worker holds the lease exactly when its claim is the latest and the event was not finalized since |
| WebhookLease.FinalizationIsFenced | packages/platform-billing/src/prisma-store.ts:814-868 | A finalization under a worker id takes effect exactly under the latest, still open claim of that id |
| WebhookLease.SecondFinalization | packages/platform-billing/src/prisma-store.ts:798-868 | After a finalization under an id, another one under the same id takes effect exactly when the id was claimed again since, and that claim is the latest and open |
| WebhookLease.LockKeepsLease | packages/platform-billing/src/prisma-store.ts:394-404 | While a mutation has the event row locked, its worker keeps the lease |
| WebhookLease.LockedUntilEnd | packages/platform-billing/src/prisma-store.ts:394-404 | A lease check on a held lease locks the event: nothing else runs on it until the mutation ends, which it can, and which leaves the event as it was |
| WebhookLease.MutationIsFenced | packages/platform-billing/src/prisma-store.ts:394-404 | A billing mutation that ends does so under the latest, still open claim |
| WebhookLease.FinalizedAtMostOnce | packages/platform-billing/src/prisma-store.ts:814-868 | With a fresh worker id per claim, each claim is finalized at most once |
| WebhookLease.ReusedIdIsNotFenced | packages/platform-billing/src/prisma-store.ts:798-812 | With an id that is claimed twice, two finalizations under it take effect, and the store cannot tell whose the second one is |
| WebhookLease.WebhookEventStore.MarkProcessing | packages/platform-billing/src/prisma-store.ts:798-812 | Claims unconditionally: every column of the event afterwards, with one attempt more |
| WebhookLease.WebhookEventStore.MarkProcessed | packages/platform-billing/src/prisma-store.ts:814-831 | Succeeds exactly without a worker id or for the worker that holds the processing event; every column afterwards; else changes nothing |
| WebhookLease.WebhookEventStore.MarkIgnored | packages/platform-billing/src/prisma-store.ts:833-848 | The same for IGNORED |
| WebhookLease.WebhookEventStore.MarkFailed | packages/platform-billing/src/prisma-store.ts:850-868 | The same for FAILED with its retry time, or EXHAUSTED when attempts are used up, with the error cut to 1000 characters |
| InvoiceUpsert.SplitIsAtomic | packages/platform-billing/src/prisma-store.ts:669-734 | A write prepared from an earlier read has the effect of one atomic upsert or throws and has none |
| InvoiceUpsert.PaidStaysPaid | packages/platform-billing/src/prisma-store.ts:678-706 | From PAID on, over any later upserts: PAID, the amount is the running maximum, the payment time is the first one set and never changes, failure columns are empty after the next upsert |
| InvoiceUpsert.OwnerNeverChanges | packages/platform-billing/src/prisma-store.ts:670-676 | The owning account of an invoice never changes |
| InvoiceUpsert.PaidExactlyOnce | packages/platform-billing/src/prisma-store.ts:678-689 | The final status is PAID exactly when the invoice was PAID or some upsert of its owner was |
| InvoiceUpsert.PaidFromFirst | packages/platform-billing/src/prisma-store.ts:678-719 | From creation, whatever came before the first PAID upsert: the amount is the largest since it, the payment time stays once set, and the failure columns are empty exactly when another upsert of the owner followed or the first PAID one gave each as null or found it empty and left it out |
| InvoiceUpsert.PaidKeepsEarlierFailure | packages/platform-billing/src/prisma-store.ts:699-704 | The exception occurs: an Open upsert with a failure and a PAID one that leaves the columns out end with the failure on the paid invoice |
| InvoiceUpsert.ColumnsOfUpsert | packages/platform-billing/src/prisma-store.ts:682-719 | Each column an upsert leaves on an unpaid or new invoice: what it gives, else what was there |
| InvoiceUpsert.LastUpsertDecides | packages/platform-billing/src/prisma-store.ts:682-706 | After any run the overwritten columns are those of the owner's last upsert, and so are status and amount unless the invoice is paid |
| InvoiceUpsert.PaymentTimeMoves | packages/platform-billing/src/prisma-store.ts:698 | A payment time that is set changes exactly before the invoice is paid, when another one is given |
| InvoiceUpsert.InvoiceStore.UpsertInvoice | packages/platform-billing/src/prisma-store.ts:658-738 | Equals one upsert after the others, or throws: another account exactly when the row read has one, a changed invoice exactly when the row found differs in the compared columns |
| UploadQuota.StepKeepsBalance | apps/web/lib/upload-quota.server.ts:25-106 | Every transaction keeps reserved bytes equal to the PENDING sizes, used bytes equal to the committed sizes, and their sum within the daily limit |
| UploadQuota.RunKeepsSound | apps/web/lib/upload-quota.server.ts:25-106 | The same in every run, with one quota per account and day and each completed reservation committed exactly once |
| UploadQuota.LeavesPendingOnce | apps/web/lib/upload-quota.server.ts:64-106 | Over any run a reservation leaves PENDING at most once and keeps everything else |
| UploadQuota.ReservesExactly | apps/web/lib/upload-quota.server.ts:25-51 | A reservation succeeds exactly for one byte or more that the limit allows beside the day's bytes; the reservation and the quota it leaves |
| UploadQuota.ReservedCompletesUntilDeadline | apps/web/lib/upload-quota.server.ts:64-72 | A reservation that nobody ends is completed by exactly its account, with one byte up to the reserved size, until exactly its deadline |
| UploadQuota.LeavingIs | apps/web/lib/upload-quota.server.ts:64-106 | What completion and release do to the reservation and to both counters of its quota |
| UploadQuota.ExpiresExactly | apps/web/lib/upload-quota.server.ts:90-106 | Expiring a listing expires exactly its pending reservations of the account, leaves all others alone, and returns exactly their object keys in order |
| UploadQuota.ExpireAllExpires | apps/web/lib/upload-quota.server.ts:95-103 | Expiring a listing keeps the accounts sound, and none of the listed reservations is pending afterwards |
| UploadQuota.UploadQuotas.ReserveTenantUpload | apps/web/lib/upload-quota.server.ts:25-58 | Reserves exactly when the size is allowed and fits, with the reservation it returns; otherwise no reservation is added |
| UploadQuota.UploadQuotas.CompleteTenantUpload | apps/web/lib/upload-quota.server.ts:64-75 | With read and write apart, acts as one transaction at the time of its write, and reports exactly whether it succeeded |
| UploadQuota.UploadQuotas.ReleaseTenantUpload | apps/web/lib/upload-quota.server.ts:77-88 | The same for a release; the reservation is not pending afterwards |
| UploadQuota.UploadQuotas.ExpireTenantUploadReservations | apps/web/lib/upload-quota.server.ts:90-106 | Expires exactly the listed reservations that are still pending and returns their object keys |
| UploadQuota.UploadQuotas.WithTenantUploadQuota | apps/web/lib/upload-quota.server.ts:109-125 | Reserves exactly when the reservation succeeds; ends completed, or throws with the reservation no longer pending and only when the action or the completion failed |
| MobileSession.OneLiveSessionPerLogin | apps/web/lib/mobile-auth-service.ts:292-312 | In every interleaving each login has at most one unrevoked session among its descendants |
| MobileSession.TokenIsSpentOnce | apps/web/lib/mobile-auth-service.ts:293-297 | A refresh token that was spent never rotates again, in any run |
| MobileSession.RefreshHandsOver | apps/web/lib/mobile-auth-service.ts:292-312 | A rotation creates one session of the same login, user and context and leaves every other session of the login revoked |
| MobileSession.DeadExactlyWhenNoneMissed | apps/web/lib/auth-service.ts:60-81 | When a revocation commits, all sessions it covers that exist by then are revoked exactly when no live one was committed between its sweep and its commit |
| MobileSession.RevocationIsFinal | apps/web/lib/auth-service.ts:51-81 | Every session that the sweep of a revocation saw stays revoked over every later run; if the sweep missed none, so does every covered session that exists when it commits, and every descendant |
| MobileSession.LoginDuringRevocation | apps/web/lib/auth-service.ts:66-78 | A login that commits between sweep and commit survives the revocation: its session passes the checks of a refresh, and the token of the refresh is accepted |
| MobileSession.RefreshDuringRevocation | apps/web/lib/auth-service.ts:66-78 | So does the new session of a refresh that commits while the sweep waits for its row, although the old one is dead |
| MobileSession.VersionsOnlyGrow | apps/web/lib/auth-service.ts:61-69 | Session versions never go down |
| MobileSession.OldTokenIsNeverAccepted | apps/web/lib/auth-service.ts:182-186 | A token older than its credential's version is never accepted again |
| MobileSession.RevokedTokensAreDead | apps/web/lib/mobile-auth-service.ts:359-373 | After a revocation that saw the credential no token minted before it, or by a refresh that read its version before it, is accepted; nor is any token of a session that the sweep saw, or of any that existed if it missed none, even when session and credential are read at different moments |
| MobileSession.SessionWorksUntilDeadline | apps/web/lib/mobile-auth-service.ts:233-297 | While nobody ends it, a session works exactly until its deadline: its token of the current version is accepted and its refresh passes every check, whatever else commits between the reads |
| MobileSession.NewSessionIsInForce | apps/web/lib/mobile-auth-service.ts:292-312 | After a login or a refresh the new session is in force with the deadline given, so that it works until then |
| MobileSession.DeactivatedUserIsRefused | apps/web/lib/mobile-auth-service.ts:359-373 | No token of a deactivated user is accepted until the user is active again |
| MobileSession.MobileAuth.CreateSession | apps/web/lib/mobile-auth-service.ts:136-173 | Adds one live session of its own login, whose token and expiry it returns |
| MobileSession.MobileAuth.RefreshMobileSession | apps/web/lib/mobile-auth-service.ts:226-331 | Succeeds exactly when the columns read in its three reads pass and the session is still live at the write, then rotates; the new deadline, the token's version and account; which error otherwise, with nothing written |
| MobileSession.MobileAuth.RevokeMobileSession | apps/web/lib/mobile-auth-service.ts:333-340 | Revokes the session of its token only; the token is not live afterwards |
| MobileSession.MobileAuth.RevokeUserSessions | apps/web/lib/auth-service.ts:51-81 | With others between the two statements and before the commit: every session that the sweep saw is revoked, and every credential that the first statement saw has a newer version |
| MobileSession.MobileAuth.VerifyMobileAccessToken | apps/web/lib/mobile-auth-service.ts:342-380 | Accepts exactly when the session was live and current when read and the version matched when the credential was read |
| ActionToken.RunKeepsSound | apps/web/lib/auth-email-flow.ts:416-443 | In every run used and invalidated are disjoint, and each used reset token has exactly one password write, of its own user and context |
| ActionToken.SpentStaysSpent | apps/web/lib/auth-action-tokens.ts:124-148 | Used and invalidated are terminal states |
| ActionToken.ResetsOnce | apps/web/lib/auth-email-flow.ts:420-442 | A reset token writes the password at most once, whatever happens in between |
| ActionToken.SingleExactlyWhenNoneMissed | apps/web/lib/auth-action-tokens.ts:76-102 | A creation keeps at most one unspent token per user, type and context exactly when no such token commits between its sweep and its commit; every other step always does |
| ActionToken.SerialRunsKeepSingle | apps/web/lib/auth-action-tokens.ts:71-105 | So at most one exists in every run whose creations do not overlap |
| ActionToken.OverlappingCreations | apps/web/lib/auth-action-tokens.ts:76-102 | Two creations that both sweep before either commits leave two unspent tokens |
| ActionToken.CreationSweepsExactly | apps/web/lib/auth-action-tokens.ts:76-102 | A creation invalidates exactly the unspent tokens of its user, type and context that its sweep saw, and adds its own |
| ActionToken.ResetTouchesExactly | apps/web/lib/auth-email-flow.ts:420-442 | A reset that writes uses its own token, invalidates exactly the other reset tokens of its user and context that it saw, and touches nothing else |
| ActionToken.CreatedIsGoodUntilDeadline | apps/web/lib/auth-action-tokens.ts:71-134 | A token that nobody sweeps or consumes is good for exactly its type until exactly its expiry |
| ActionToken.AuthActionTokens.CreateAuthActionToken | apps/web/lib/auth-action-tokens.ts:71-105 | Invalidates what its sweep sees and adds the token it returns, unspent |
| ActionToken.AuthActionTokens.ConsumeAuthActionToken | apps/web/lib/auth-action-tokens.ts:117-177 | Consumes exactly an unspent, unexpired token of the type; an expired one is invalidated |
| ActionToken.AuthActionTokens.InvalidateAuthActionTokens | apps/web/lib/auth-action-tokens.ts:214-232 | No token of the user, type and context is unspent afterwards |
| ActionToken.AuthActionTokens.ResetPasswordByToken | apps/web/lib/auth-email-flow.ts:416-446 | The password is written exactly when the token is used; a missing credential throws and nothing changes; the sweep invalidates what it sees, with others before the commit |
| PasswordOtp.RunKeepsSound | apps/web/lib/password-change-otp.ts:326-346 | In every run the password writes are exactly the used challenges, each once, and a used challenge was verified at most five minutes before and never invalidated |
| PasswordOtp.SpentStaysSpent | apps/web/lib/password-change-otp.ts:418-431 | A used challenge never changes again and an invalidated one is never used |
| PasswordOtp.CompletesOnce | apps/web/lib/password-change-otp.ts:418-438 | A challenge completes at most once |
| PasswordOtp.SingleExactlyWhenNoneMissed | apps/web/lib/password-change-otp.ts:169-195 | A request keeps at most one open challenge per user, account and context exactly when none commits between its sweep and its commit |
| PasswordOtp.SerialRunsKeepSingle | apps/web/lib/password-change-otp.ts:137-199 | So at most one is open in every run whose requests do not overlap |
| PasswordOtp.OverlappingRequests | apps/web/lib/password-change-otp.ts:169-195 | Two requests that both sweep before either commits leave two open challenges |
| PasswordOtp.CooldownIsExact | apps/web/lib/password-change-otp.ts:141-160 | In any table, a request is refused exactly while the newest open, unexpired challenge of the subject is younger than its cooldown |
| PasswordOtp.RequestedVerifiesUntilDeadline | apps/web/lib/password-change-otp.ts:162-195 | A requested challenge that nobody spends or verifies is verified by exactly the code sent, for exactly its subject, until exactly ten minutes later |
| PasswordOtp.RequestCoolsDownForAMinute | apps/web/lib/password-change-otp.ts:141-160 | Right after a request another one of the subject is refused for exactly a minute |
| PasswordOtp.VerifiedCompletesUntilDeadline | apps/web/lib/password-change-otp.ts:326-346 | A verified challenge that nobody spends is completed by exactly the token handed out, for exactly its subject, until exactly five minutes later and within its own time |
| PasswordOtp.CompletionNeedsHandedOutToken | apps/web/lib/password-change-otp.ts:394-431 | In any run, a completion that writes carries the very token that an earlier verification handed out to this subject against the code sent, less than five minutes before |
| PasswordOtp.PasswordChange.RequestPasswordChangeOtp | apps/web/lib/password-change-otp.ts:113-236 | Refuses an unavailable user, or during the cooldown, with nothing written; otherwise, with others between check, sweep and commit, creates the challenge, and spends it when the mail fails |
| PasswordOtp.PasswordChange.VerifyPasswordChangeOtp | apps/web/lib/password-change-otp.ts:243-353 | Verifies exactly a member's open challenge with its code, in time and with attempts left, if it is still open and unverified at the write; exactly when each error is thrown |
| PasswordOtp.PasswordChange.CompletePasswordChange | apps/web/lib/password-change-otp.ts:355-456 | Completes exactly when the user is available, the challenge read is the subject's, open, verified with this token and within both deadlines, still open at the write, and the credential exists; which error otherwise |
| Reconciliation.FinanceDatabase.ResolveHistoricalPayment | scripts/recover-finance-reconciliation-lifecycle.ts:195-267 | A dry run changes nothing. Otherwise it changes nothing, or makes one step from open to resolved with one audit row, exactly when the transaction finds no local link and the issue is the version reviewed |
| Reconciliation.FinanceDatabase.ResolveAbsentTerminalLagIssue | scripts/recover-finance-reconciliation-lifecycle.ts:269-351 | The same, with its own check of the owner |
| Reconciliation.FinanceDatabase.ResolveCanonicalCyclePaymentIssue | scripts/recover-finance-reconciliation-lifecycle.ts:357-423 | The same, with the chain of the cycle loaded again and equal to the one reviewed |
| Reconciliation.FinanceDatabase.ResolveAlreadyLinkedPaymentIssue | scripts/recover-finance-reconciliation-lifecycle.ts:425-525 | The same for charge and cobranca, or for the cycle it hands over to |
| Reconciliation.FinanceDatabase.ResolveVerifiedEventCancellation | scripts/recover-finance-reconciliation-lifecycle.ts:527-627 | The same for the event order |
| Reconciliation.FinanceDatabase.ResolveIfUnchanged | scripts/recover-finance-reconciliation-lifecycle.ts:409-420 | The conditional update and its audit row: both happen or neither |
| Reconciliation.CycleReferenceIsExact | scripts/recover-finance-reconciliation-lifecycle.ts:367-369 | A cycle reference names an operation and the payment exactly when it is their canonical text |
| Reconciliation.EnrollmentReferenceIsExact | scripts/recover-finance-reconciliation-lifecycle.ts:459-465 | The same for first payments and enrollment fees |
| Reconciliation.NoPaymentLinkExactly | scripts/recover-finance-reconciliation-lifecycle.ts:118-126 | The search for a payment finds nothing exactly when no charge, cobranca or pagamento of the account has it under any provider id or is the entity |
| Reconciliation.NoSubscriptionLinkExactly | scripts/recover-finance-reconciliation-lifecycle.ts:132-143 | The same for a subscription over its six tables |
| Reconciliation.LoadedProofIsCanonical | scripts/recover-finance-reconciliation-lifecycle.ts:362-394 | A proof that loads belongs to stored rows of one account that name each other consistently and agree on amount and due date |
| Reconciliation.ProofLoadsExactly | scripts/recover-finance-reconciliation-lifecycle.ts:362-394 | Where the unique columns are unique, a proof loads exactly when such a chain is stored |
| Reconciliation.CycleAgreesInTransaction | scripts/recover-finance-reconciliation-lifecycle.ts:395-415 | When a cycle is resolved, the chain stored in the transaction's snapshot agrees with the provider's payment and subscription |
| Reconciliation.HistoricalEvidence | scripts/recover-finance-reconciliation-lifecycle.ts:199-242 | When a historical payment is resolved: the provider's rows as approved, the approved version of the issue, and, table by table, no local row in the transaction's snapshot |
| Reconciliation.AbsentLagEvidence | scripts/recover-finance-reconciliation-lifecycle.ts:288-336 | When a lag is resolved: the provider's resource has ended and, table by table, no local row has its id or is the issue's entity in the transaction's snapshot |
| Reconciliation.LinkedEvidence | scripts/recover-finance-reconciliation-lifecycle.ts:445-510 | When a payment is confirmed: in the transaction's snapshot charge and cobranca are linked and open under the provider's reference, which names an operation that was read with this payment |
| Reconciliation.CancellationEvidence | scripts/recover-finance-reconciliation-lifecycle.ts:540-609 | When a cancellation is confirmed: the order is closed in the transaction's snapshot, its own payment is deleted, and the provider lists no alternative |
| Reconciliation.HistoricalTextIsMarked | scripts/recover-finance-reconciliation-lifecycle.ts:245 | The text of a historical resolution keeps the marker by which a later run recognizes it, also when it is cut to 1000 characters |
| Reconciliation.HistoricalRerun | scripts/recover-finance-reconciliation-lifecycle.ts:207-216 | Run again on the issue it resolved, at any later time and with the same answers of the provider, it says that the issue was already resolved; exactly if a local link has appeared, it throws before |
| Reconciliation.AbsentLagRerun | scripts/recover-finance-reconciliation-lifecycle.ts:275-281 | The same for lags, with any answers and any local tables by then: already resolved |
| Reconciliation.CancellationRerun | scripts/recover-finance-reconciliation-lifecycle.ts:534-539 | The same for event cancellations |
| Reconciliation.LinkedRerun | scripts/recover-finance-reconciliation-lifecycle.ts:431-437 | The same for linked payments exactly when the issue's entity at the commit was the manifest's; otherwise the second run throws |
| Reconciliation.LinkedRerunMayThrow | scripts/recover-finance-reconciliation-lifecycle.ts:498-510 | Such a resolution exists, because its update does not compare the entity |
| Reconciliation.PlansSeeOpenIssues | scripts/recover-finance-reconciliation-lifecycle.ts:214-216 | Only an open issue leads any of the reviews to a transaction |
| Reconciliation.ResolvedIssueIsLeftAlone | scripts/recover-finance-reconciliation-lifecycle.ts:195-627 | After a resolution and over any later run, no recovery of any kind that reads the issue reaches a transaction, unless someone else has opened it again |
| Reconciliation.RowsOfStep | scripts/recover-finance-reconciliation-lifecycle.ts:233-265 | A step adds a resolver's audit row for an issue exactly when a resolver moves it from open to resolved |
| Reconciliation.OneRowForEachOpening | scripts/recover-finance-reconciliation-lifecycle.ts:195-627 | Over every interleaving of any resolvers with arbitrary other writers: the resolvers' audit rows of an issue, closings by others and open at the end balance with openings and open at the start. Rows that other writers add under the same action are not counted |
| Reconciliation.StalePlanNeverCommits | packages/finance/src/reconciliation/finance-reconciliation-issue.service.ts:89-106 | While other writers never move an issue's time back and reopen it with a newer one, a review from before a closing or a new sighting never commits, whatever runs in between |
| Reconciliation.CommitMakesPlansStale | scripts/recover-finance-reconciliation-lifecycle.ts:498-511 | A commit makes every review of the same or an earlier version stale, its own included |
| RecoveryConditions.HistoricalResolvesExactly | scripts/recover-finance-reconciliation-lifecycle.ts:195-267 | Exactly when a historical payment is resolved, on the columns of every row read: both directions |
| RecoveryConditions.AbsentLagResolvesExactly | scripts/recover-finance-reconciliation-lifecycle.ts:269-351 | The same for a lag, with the search for its own entity at the review and in the transaction |
| RecoveryConditions.CycleResolvesExactly | scripts/recover-finance-reconciliation-lifecycle.ts:357-423 | A recurring cycle is resolved exactly when one canonical chain is stored at the first proof and in the transaction, agrees with the provider, and the issue is unchanged in every column |
| RecoveryConditions.LinkedPlansExactly | scripts/recover-finance-reconciliation-lifecycle.ts:425-484 | Outside a cycle the review leads to a transaction exactly when the first charge and cobranca of the payment are linked, open, named by an operation and agree with the provider |
| RecoveryConditions.LinkedCommitsExactly | scripts/recover-finance-reconciliation-lifecycle.ts:485-511 | The transaction then resolves exactly while the rows are linked and open and the issue has the version and metadata read |
| RecoveryConditions.CancellationResolvesExactly | scripts/recover-finance-reconciliation-lifecycle.ts:527-627 | Exactly when a cancellation is resolved, with the legacy form of its issues |
| RecoveryConditions.HistoricalAnswers | scripts/recover-finance-reconciliation-lifecycle.ts:199-216 | Without a transaction, a historical payment counts as already resolved exactly when its issue is resolved with the marker, and as stale exactly when it is no longer its open issue |
| RecoveryConditions.AbsentLagAnswers | scripts/recover-finance-reconciliation-lifecycle.ts:275-321 | The same for a lag, for each of its answers exactly when |
| RecoveryConditions.LinkedAnswers | scripts/recover-finance-reconciliation-lifecycle.ts:431-442 | The same for linked payments: mismatch, already resolved and stale |
| RecoveryConditions.CancellationAnswers | scripts/recover-finance-reconciliation-lifecycle.ts:534-554 | The same for cancellations, where an exactly named issue that was seen again is stale too |
| RecoveryConditions.DryRunIsReady | scripts/recover-finance-reconciliation-lifecycle.ts:229-322 | A dry run is ready exactly when an applied run reaches its transaction |
| RecoveryConditions.LinkedDryRunIsReady | scripts/recover-finance-reconciliation-lifecycle.ts:482-484 | The same for linked payments, or would but for a missing cause, which a dry run does not look for |
| RecoveryConditions.CancellationDryRunIsReady | scripts/recover-finance-reconciliation-lifecycle.ts:587-589 | The same for cancellations |
| RecoveryConditions.RepairMarkerExactly | scripts/recover-finance-reconciliation-lifecycle.ts:353-355 | The marker of a manual repair is a true flag, or a text that is not blank |
| CivilDate.DayFromYearStep | packages/shared/src/date-only.ts:12 | The closed formula for the first day of a year (section 21.4.1 of ECMA-262) agrees with the leap-year rule for every year |
| CivilDate.YearIsUnique | packages/shared/src/date-only.ts:15 | Every day lies in exactly one year |
| CivilDate.CivilOfDay | packages/shared/src/date-only.ts:12-17 | Every day number has a calendar date that leads back to it |
| CivilDate.DayOfCivil | packages/shared/src/date-only.ts:12-17 | Every calendar date has a day number that leads back to it |
| CivilDate.DayOrder | packages/shared/src/date-only.ts:12-17 | Day numbers are ordered as the dates are |
| CivilDate.RangeOfDates | packages/shared/src/date-only.ts:12 | A date built from fields exists exactly within a hundred million days of the epoch (section 21.4.1 of ECMA-262) |
| CivilDate.TwoDigitYears | packages/shared/src/date-only.ts:12 | The years 0 to 99 mean 1900 to 1999 and every other year itself (section 21.4.3.4 of ECMA-262) |
| CivilDate.ValidExactly | packages/shared/src/date-only.ts:1-19 | The validity check accepts exactly the Gregorian dates of the years 100 to 9999 |
| CivilDate.KeyParses | packages/shared/src/date-only.ts:58-62 | A key parses back to its day exactly when its year has four digits |
| CivilDate.ParsedKey | packages/shared/src/date-only.ts:21-25 | A valid text is the key of the day it denotes, exactly when its year is 1000 or later |
| CivilDate.KeyOrder | packages/shared/src/date-only.ts:179-186 | Keys of four-digit years sort as text in the order of their days, both ways |
| CivilDate.AddAcademicDays | packages/shared/src/date-only.ts:92-98 | The in-place computation equals the function the next three lemmas speak about |
| CivilDate.AddedDaysMoves | packages/shared/src/date-only.ts:92-98 | Adding days gives the key of the day moved by exactly that many |
| CivilDate.AddedDaysParses | packages/shared/src/date-only.ts:92-98 | Parsing the sum gives the start plus exactly that many days, across month ends, leap years and centuries |
| CivilDate.AddedDaysAction | packages/shared/src/date-only.ts:92-98 | Adding zero is neutral, and adding twice equals adding the sum |
| CivilDate.BoundsHoldTheirDay | packages/shared/src/date-only.ts:84-90 | The bounds of a key hold exactly the instants whose key it is |
| CivilDate.BoundsTile | packages/shared/src/date-only.ts:84-90 | The bounds of consecutive days meet without gap or overlap |
| CivilDate.TodayIsTheDay | packages/shared/src/date-only.ts:191 | Outside the years 0 to 99, the day built again from the clock's fields is the clock's own day |
| CivilDate.IsAtLeastAgeYears | packages/shared/src/date-only.ts:188-200 | True exactly for a real date whose birthday of the given age is not after today, and never with an invalid clock |
| LocalMidnight.GetAcademicDateStartInstant | packages/shared/src/date-only.ts:107-156 | The loops equal the search the next lemmas speak about |
| LocalMidnight.FindsMidnight | packages/shared/src/date-only.ts:127-141 | Whenever some instant shows local midnight, the iteration finds one within four attempts, for any single offset change |
| LocalMidnight.SkippedMidnight | packages/shared/src/date-only.ts:143-155 | When midnight is skipped, the scan returns the first instant of the date |
| LocalMidnight.StartIs | packages/shared/src/date-only.ts:107-156 | Which of the two candidate midnights, or the change, is returned |
| LocalMidnight.StartIsFirst | packages/shared/src/date-only.ts:107-156 | The result is the first instant of its date exactly unless midnight shows twice and the change lies no later than midnight UTC |
| LocalMidnight.SecondMidnightIsReturned | packages/shared/src/date-only.ts:127-141 | The exception occurs: a timezone in which, for any date, the second of two midnights is returned |
| LocalMidnight.EarlyDatesAreMisread | packages/shared/src/date-only.ts:113-114 | Dates before the year 100 start in the 1900s |
| PriceBand.TargetIsExact | packages/platform-billing/src/commercial-model.ts:30-38 | The eight bands cover 1 to 500 students without gap or overlap; no students count as the smallest, more as a specialist case |
| PriceBand.BandByEdges | packages/platform-billing/src/commercial-model.ts:1-38 | A count pays the band whose edge on the ladder 25, 50, 100, 150, 200, 300, 400, 500 is the next one up |
| PriceBand.PreviousMonthIsExact | packages/platform-billing/src/commercial-model.ts:91-94 | The month before, over year ends, is the next smaller month number, for all periods but those of the years 0 to 99 and of the first month a date can hold |
| PriceBand.DecisionIsExact | packages/platform-billing/src/commercial-model.ts:63-77 | A change is decided exactly when the three newest closes, of consecutive months, agree on a code other than the current one |
| PriceBand.OrderIsIrrelevant | packages/platform-billing/src/commercial-model.ts:67-69 | The decision ignores the order of the snapshots |
| PriceBand.OlderIsIrrelevant | packages/platform-billing/src/commercial-model.ts:67-70 | The decision ignores everything older than the newest three |
| PriceBand.DecidingAgainChangesNothing | packages/platform-billing/src/commercial-model.ts:75-76 | Deciding again after applying yields no change |
| PriceBand.ChangesAreThreeClosesApart | packages/platform-billing/src/commercial-model.ts:63-77 | Over whole runs, with changes applied at any of the closes that decide them, any two changes are at least three closes apart |
| PriceBand.ConfirmedBandIgnoresCounts | packages/platform-billing/src/checkout-commercial-resolution.ts:44-58 | A confirmed band is the plan whatever live and declared counts are, until the closes call for a specialist |
| PriceBand.CustomInvitationPlan | packages/platform-billing/src/checkout-commercial-resolution.ts:30-39 | A custom invitation resolves to its own price, or not at all without one; which count |
| PriceBand.UnstableExactly | packages/platform-billing/src/checkout-commercial-resolution.ts:51-54 | Otherwise the plan is unstable exactly for one outside the bands that is not canceled in status and access |
| PriceBand.PlanFollowsCount | packages/platform-billing/src/checkout-commercial-resolution.ts:60-69 | Without a band in force the plan is the band of the declared or live count, which of the two, and exactly when it is none |
| PriceBand.NewSchoolPaysItsBand | packages/platform-billing/src/checkout-commercial-resolution.ts:60-69 | Without plan and invitation, the plan is exactly the band of the live count |
| CpfCheck.CalcDigit | apps/web/lib/formatters.ts:59-66 | The loop computes the check digit of the weighted sum that the lemmas speak about |
| CpfCheck.IsValidCpfDigits | apps/web/lib/formatters.ts:55-70 | Decides exactly whether the digits form a CPF |
| CpfCheck.CpfByFormula | apps/web/lib/formatters.ts:55-70 | Exactly the texts of eleven digits, not all the same, whose last two are the written-out weighted sums times ten modulo eleven, ten read as zero |
| CpfCheck.RepeatedPassesDigits | apps/web/lib/formatters.ts:51-57 | Repeated numbers would pass both check digits and are refused for the repetition alone |
| CpfCheck.WrongDigitIsCaught | apps/web/lib/formatters.ts:55-70 | Two valid numbers that differ in one digit differ in the first by 1 or in the sixth by 2 or 9 |
| CpfCheck.ExceptionsExist | apps/web/lib/formatters.ts:55-70 | Each of the differences occurs: 1 in the first digit, 2 and 9 in the sixth |
| BrlText.ParseFormatBrl | apps/web/lib/finance-form-utils.ts:38-55 | Parsing the formatted text gives exactly the typed digits as cents |
| BrlText.ParseFormatPercent | apps/web/lib/finance-form-utils.ts:57-64 | The same for percentages, as hundredths |
| BrlText.ParsesDecimal | apps/web/lib/finance-form-utils.ts:38-44 | Digits around a comma, with dots anywhere before it, are read as one decimal with as many places as follow |
| BrlText.ParsesWhole | apps/web/lib/finance-form-utils.ts:38-44 | Digits without a comma, with dots anywhere, are read as a whole number |
| BrlText.FormatBrlIsIdempotent | apps/web/lib/finance-form-utils.ts:46-55 | Formatting is idempotent |
| BrlText.GroupsOfThree | apps/web/lib/finance-form-utils.ts:52-54 | The integer part is in groups of three without leading zeros |
| RealtimeFeed.MarkSubscriberEvents | apps/web/hooks/use-finance-realtime.ts:68-89 | Returns the events not yet remembered, each once, in order, and keeps the newest 200 keys |
| RealtimeFeed.RelevantExactly | apps/web/hooks/use-finance-realtime.ts:143-145 | A subscriber without a charge, or with the empty one, takes every event, any other exactly those of its charge |
| RealtimeFeed.FreshIsInOrder | apps/web/hooks/use-finance-realtime.ts:71-76 | New events are delivered in the order of their first occurrence |
| RealtimeFeed.CursorIsLeast | apps/web/hooks/use-finance-realtime.ts:113-116 | The cursor is the least one past every event of the batch and not before the old one |
| RealtimeFeed.SharedFeed.Fetched | apps/web/hooks/use-finance-realtime.ts:112-121 | Caches the batch and moves the cursor past its newest event, never back |
| RealtimeFeed.SharedFeed.NotifySubscribers | apps/web/hooks/use-finance-realtime.ts:137-159 | Every subscriber present is notified by itself, and none remembers more than 200 keys |
| RealtimeFeed.DeliveredExactlyOnce | apps/web/hooks/use-finance-realtime.ts:137-159 | If the server honours the cursor and no batch exceeds 200 events, a subscriber receives exactly the matching events of the notifications made while it was present, each once |
| RealtimeFeed.CursorNeverGoesBack | apps/web/hooks/use-finance-realtime.ts:113-116 | The cursor never goes back |
| RealtimeFeed.RepeatedNotification | apps/web/hooks/use-finance-realtime.ts:78-86 | A repeated notification of one new batch delivers nothing again exactly when at most 200 of its events matched |

## Left out

- Stripe, Asaas, e-mail and storage calls, password hashing, token signing and randomness: their results are parameters or opaque values. For the resolvers this includes the pages of the payment listing, which arrive as one complete listing.
- The webhook handlers and use cases that call the billing store: nothing is claimed about the order of their calls. In particular a finalized event can be claimed again, since that claim is unconditional.
- BillingSubscription.NewestWins: an update whose snapshot is stale throws, and repeating it is up to its caller; it speaks of the columns every update assigns and of updates with an event time; optional columns, which an update may leave alone, do not converge.
- BillingSubscription.AllOrNothing: assumes that nobody else writes the plan change row this transaction has locked; the lease check and the row lock on the event are one step here, and interleaved in `WebhookLease`.
- UploadQuota.RunKeepsSound: the daily limit is one constant of the run; telemetry and the cleanup callback are not modelled.
- MobileSession.RevokedTokensAreDead: a login step takes the version that its caller read; a login that has checked its credentials before a revocation and creates its session after it lies outside the property. Account listing and membership are parameters.
- PasswordOtp.RunKeepsSound: the attempt counter and the invalidation of an expired challenge are written by a transaction that then throws, so they are rolled back; no bound on attempts is claimed.
- ActionToken.AuthActionTokens.ResetPasswordByToken: password policy, user and session columns of the same transaction are not part of the token state; revocation is modelled in `MobileSession`.
- PasswordOtp.CooldownIsExact: the newest challenge is the one that committed last; the code takes the one with the latest creation time.
- Reconciliation.HistoricalEvidence: speaks of the transaction's snapshot, as the other evidence lemmas do; a writer at a lower isolation level may commit local rows after the snapshot and before the commit.
- Reconciliation.FinanceDatabase.ResolveHistoricalPayment: rows found without an order are the first of their table; the time stamps of issue and manifest are compared as instants, amounts as integer cents, and a text is cut by characters.
- The manifest's own validation, the classification of external subscriptions, the job lock and the run loop of the recovery script.
- LocalMidnight.StartIs: covers one offset change near the date, whole-minute offsets of at most 18 hours, and four-digit years; era years of the date formatter are not modelled.
- CivilDate.AddedDaysMoves: for texts the platform's own date parsing is not modelled; the value is an instant or invalid.
- PriceBand.ChangesAreThreeClosesApart: when a decided change is applied is a parameter; scheduling it is not modelled.
- BrlText.ParseFormatBrl: amounts are exact decimals, so floating-point rounding is not modelled; other texts that `Number` accepts are one opaque case.
- RealtimeFeed.DeliveredExactlyOnce: an event is identified with the six fields of its delivery key, not with the joined text; timers, visibility and failed fetches, which only skip a poll, are not modelled.
- Database failures, and the re-reading of a row by a statement that waited for its lock.
- CNPJ digits, phone and CEP formatting, access policy, retry delays, status maps and route lists: case tables that would only add easy members.
