# Proofs about what the two services keep

Two services in this repository write state that has to stay right when calls fail, and the portal
draws conclusions from it. This project models them in Dafny and proves what that state means.

Check everything with `dafny verify dfyconfig.toml`.

## The bridge (`apps/stripe-bridge`)

A Stripe event is redelivered until its handler gets through. `WebhookPlans` gives, for each event, the
ordered list of effects its handler makes: every store write, every Wizarr, Stripe and SMTP call.
`Delivery` performs such a list until a call fails or the process dies, so a delivery can stop between
any two effects, and strings deliveries and admin changes into runs. `Bridge` holds the same handlers
as methods over mutable tables, with their early returns, each proved to do exactly its plan or the
part of it that came off. `SerialQueue` is the promise chain the deliveries wait in, with every
interleaving of their calls it lets happen. The properties are about runs:

- `Retries`: which invite is minted, bound, mailed and recorded, whatever fails, and what a processed
  mark means.
- `Recipients`: who an event's payer is, and that nobody else is ever written to.
- `Retirement`, `Duplicates`: which subscriptions a retirement must find, and what it and the deletions
  it causes can take away.
- `Flags`: which flags each event writes, and whose row and which subscription decide it.
- `ReturningMembers`: a run of deliveries after which the guard for another paying address looks at the
  wrong row.
- `Outcomes`: what an event's plan does to the rows and to every record, and what a Stripe failure costs.
- `TagRules`, `Resolutions`, `Sweep`: what a ban or a VIP tag forbids the handlers, over both looks a
  delivery takes at its payer, the expiry sweep and a reissue.
- `Identity`, `Standing`, `MemberLinks`, `Roster`: who one person is, when one step along the links is
  enough to find them whole, and the roster rows that follow.

## The fleet monitor (`apps/fleet-monitor`)

- `Incidents`, `IncidentHistory`: checks folded into streaks and outages in a mutable `Monitor`; the
  rows against a reading of each target's own checks, and uptime against the time it was down.
- `PlayLedger`, `LedgerRuns`: the paged, resumable copy of a play history and what it covers.
- `Catalogue`, `Inventory`: enrichment, with its termination measure, and the library inventory against what
  the server holds.
- `Viewings`, `PlayViews`, `PlayGroups`: the deduplicated base, what is counted under one title, and the
  sums every play view draws from it.
- `PythonMath`, `Series`: Python's `round` and `//`, and the thinned chart.

## Shared and portal code

- `Time` (`libs/server-common`): the stored timestamp text, its order, and reading it back.
- `Income`, `TypoTwins` (`apps/admin-portal`): the income log and its replay; addresses one edit apart.

## What the code does where a reader may expect otherwise

Each of these is a lemma with the input, or an exact condition.

- `Date.UTC` moves the years 0 to 99 into the twentieth century, so a timestamp reads back exactly from
  the year 100 on (`Time.RoundTrip`).
- The guard that keeps a payer's access when another address of theirs is cancelled asks only the row
  that answers for each address. The row order is meant to put the newest checkout last, but checking
  out again under an older customer does not move its row, so an ended customer first seen later still
  answers for the address, and the records are disabled
  (`Duplicates.CheckoutAnswersForTheAddress`, `ReturningMembers.TheStoryLeadsThere`,
  `ReturningMembers.AnOlderRowDoesNotGuard`).
- A checkout looks its payer up twice, the second time through the row it has just written, and checks
  tags at the first look alone. When its session is already bound to an invite that the customer's row no
  longer holds, and that invite leads to an address tagged more strongly than the first look found, the
  second look slips past the tag: a VIP's records are reset, a banned member is granted access. That is
  the only way (`Resolutions.SlipsMeans`, `Resolutions.StaleSessionSlips`).
- A renewal or a cancellation for which no address can be resolved skips the tag checks. It takes a row
  with an invite and no address, which no delivery writes
  (`TagRules.WithoutAPayerTagsAreSkipped`, `Resolutions.BlankRowHidesItsPayer`, `Resolutions.RunsStayAddressed`).
- Links that redemptions imply are not checked the way an admin's are, and a stated link behind an
  implied one splits a person (`Identity.ChainSplitsAPerson`).
- A checkout session whose id is spelled like a prefixed invoice would share that invoice's binding
  (`BridgeStore.KeysCollide`).
- `retireAbsent` selects by `LIKE`, so an underscore in a host's name reaches the containers of a host
  named alike, although its comment promises it never does. Without one, only a host whose name differs in
  ASCII case alone is reached (`IncidentHistory.UnderscoreReachesAcross`, `IncidentHistory.PlainHostsKeepApart`).
- A named quality filter only compares the item's label. The comment says it excludes tracks; the
  column and the filtered total differ by the tracks that carry the label. The library parser documents
  the label as null for a track, and nothing in it makes it so: a track whose media names a resolution
  or a width gets one (`PlayViews.ColumnIsFilteredTotal`, `PlayViews.LabelledTrackIsCounted`).
- An album is counted under its title, a colon and its artist, so a colon inside either can join two
  albums: "a" by "b:c" and "a:b" by "c" are one (`PlayGroups.TracksGroupByAlbum`, `PlayGroups.ColonJoinsTwoAlbums`).
- The history cursor is set, not maximised, so it can dip, by no more than the overlap, and exactly when
  every play a pass read is older. A pass that ran to its end does not leave it behind
  (`LedgerRuns.CursorDips`, `LedgerRuns.CursorDipsExactly`, `LedgerRuns.CompletePassKeepsUp`).
- Thinning can give one point over its limit, exactly when every bucket has a reading and one of them
  lands on the end (`Series.ThinnedCount`, `Series.OnePointOver`).
- Never-played and the play views complement each other over all time, not inside a window: they fail
  for a group exactly when it was played there and every play there only marks an earlier one again
  (`Viewings.WindowBreaksTheComplement`, `Viewings.MarkedTwiceIsNowhere`).
- Four kinds of log row move a member's standing by something other than what they list
  (`Income.StepMoves`).

## Hypotheses

- Wizarr answers a new invite with a code that is on no invitation it listed before (`FreshCode`), and an
  event's own address is missing or is not empty (`Named`). Where the tag rules speak of runs, the rows an
  admin's change leaves carry an address, as every row the bridge writes does (`Addressed`).
- A run of checks has non-decreasing times and one threshold of at least one.
- A section's listing does not change while it is paged, and a failed request says why.
- A play history is ascending and only appended to, a history id names one play, and a page reply
  gives its size and total as they were when it answered.
- The merged link map is a star and no payer's stated link disagrees with their redemption, wherever a
  lemma is about whole people (`Star`, `RedemptionsAgree`, `Sound`).
- Numbers are exact: rationals for doubles, and a double is a dyadic rational where rounding is the point.

## Model

| member | source | states |
|---|---|---|
| Retries.BoundInviteNeverChanges | apps/stripe-bridge/src/store/invites.ts:28-72 | in every run, once an operation is bound to an invite no delivery, retry or failure binds it to another |
| Retries.EveryLinkCarriesTheBoundCode | apps/stripe-bridge/src/invites.ts:154-225 | in every run, each link mailed for an operation carries the code the operation is bound to |
| Retries.ExtrasAreFailures | apps/stripe-bridge/src/invites.ts:154-225 | in every run, mints beyond the bound one are exactly the deliveries that died between create and bind, and mails beyond the marked one those that died between send and mark |
| Retries.MarkedMeansPerformed | apps/stripe-bridge/src/webhook/handlers.ts:613-641 | a delivery that leaves its event newly marked performed the whole plan of that event |
| Retries.ProcessedMeansPaid | apps/stripe-bridge/src/webhook/handlers.ts:321-375 | in every run, a processed event that owed its payer an invite has it bound, the payer's row written with its code, and its link mailed: to the payer of the delivery that mailed it, and so to this payer unless the operation was ever delivered for another address; a checkout with no session id has its own invite minted and mailed to its payer |
| Retries.DeliveriesAreHandledOnce | apps/stripe-bridge/src/webhook/handlers.ts:613-641 | a delivery that lives leaves its event processed with its whole plan done, and a processed event does nothing again |
| Recipients.PayerMeans | apps/stripe-bridge/src/webhook/handlers.ts:94-113 | the payer is the event's own address, else the one on the first row of its customer, else Stripe's; a checkout's is its own or none |
| Recipients.PlansWriteToThePayer | apps/stripe-bridge/src/invites.ts:211-225 | every link an event mails and every notice to a member goes to the event's payer, a link under the event's own key |
| Recipients.CheckoutRecordsItsSale | apps/stripe-bridge/src/webhook/handlers.ts:353-361 | the row a checkout writes is for its own customer, address and tier, dated now, with the dunning flag settled |
| Recipients.RenewalKeepsTheTier | apps/stripe-bridge/src/webhook/handlers.ts:160-195 | the row a renewal writes is for its customer and payer, at the tier the payer's address stands at |
| Recipients.RenewalRestoresExactly | apps/stripe-bridge/src/webhook/handlers.ts:436-463 | a renewal reissues exactly when its payer has no record left, is neither banned nor VIP, and the invoice has an id; without the id the delivery fails and stays retryable |
| Recipients.OthersGrantNothing | apps/stripe-bridge/src/webhook/handlers.ts:466-608 | no event but a checkout or a paid invoice mints, mails, extends or re-subscribes |
| Recipients.RunsWriteToThePayer | apps/stripe-bridge/src/invites.ts:211-225 | in every run, whatever was mailed to anybody was mailed by a delivery whose payer they are |
| BridgeStore.KeysCollide | apps/stripe-bridge/src/store/invites.ts:8-12 | two operations have one key exactly when they are the same or a session id is spelled like a prefixed invoice |
| WebhookPlans.LiveMeans | apps/stripe-bridge/src/subscriptionStatus.ts:24-63 | a customer's best status is live exactly when some subscription of theirs is |
| Bridge.Database.RecordInviteIssuance | apps/stripe-bridge/src/store/invites.ts:46-65 | the first binding of an operation stands |
| Bridge.Database.MarkInviteEmailed | apps/stripe-bridge/src/store/invites.ts:66-80 | only the operation's own mark changes |
| Bridge.Database.SetPaymentState | apps/stripe-bridge/src/store/customers.ts:220-232 | every row of the address has the flag and no other row changes |
| Bridge.Database.SetSubscribed | apps/stripe-bridge/src/store/customers.ts:203-218 | every row of the address has the flag and no other row changes |
| Bridge.Database.WritePending | apps/stripe-bridge/src/store/customers.ts:104-178 | the pending row under its customer, or every row of the address, with a settled payment in the same write |
| Bridge.Process.IssueInvite | apps/stripe-bridge/src/invites.ts:154-209 | does the issuing plan or the part of it that came off, and answers the code and whether its link already went out |
| Bridge.Process.DeliverInvite | apps/stripe-bridge/src/invites.ts:211-225 | an emailed invite is not sent again; another is sent, marked and announced, in that order |
| Bridge.Process.RetireDuplicates | apps/stripe-bridge/src/duplicates.ts:24-94 | the loops over customers, subscriptions and invoices make exactly the plan's calls, up to the one that throws, and answer retired, none or failed |
| Bridge.Process.RescopeAndStamp | apps/stripe-bridge/src/webhook/handlers.ts:226-263 | disables what the tier leaves out or cannot be judged, and stamps the records left |
| Bridge.Process.OnCheckoutCompleted | apps/stripe-bridge/src/webhook/handlers.ts:321-395 | the handler with its early returns performs exactly its plan, or the part of it before the call that failed |
| Bridge.Process.OnInvoicePaid | apps/stripe-bridge/src/webhook/handlers.ts:398-463 | the handler with its early returns performs exactly its plan, or the part of it before the call that failed |
| Bridge.Process.OnPaymentFailed | apps/stripe-bridge/src/webhook/handlers.ts:470-518 | the handler with its early returns performs exactly its plan, or the part of it before the call that failed |
| Bridge.Process.OnSubscriptionUpdated | apps/stripe-bridge/src/webhook/handlers.ts:521-530 | the handler performs exactly its plan, or the part of it before the call that failed |
| Bridge.Process.OnSubscriptionDeleted | apps/stripe-bridge/src/webhook/handlers.ts:533-583 | the handler with its early returns performs exactly its plan, or the part of it before the call that failed |
| Bridge.Process.HandleEvent | apps/stripe-bridge/src/webhook/handlers.ts:613-641 | one delivery as the runs of the model take it: nothing for a marked event, otherwise its handler and then its mark |
| Bridge.RunQueue | apps/stripe-bridge/src/webhook/webhookController.ts:25-35 | jobs done one after another over the mutable tables leave the state their run does, failed or not |
| SerialQueue.QueueIsSerial | apps/stripe-bridge/src/webhook/webhookController.ts:16-35 | for every interleaving of arrivals, starts and single calls that the chain allows, no two jobs are in flight, and once all have settled the state is that of running them in the order they came |
| SerialQueue.NeverStuck | apps/stripe-bridge/src/webhook/webhookController.ts:16-35 | while a job has not settled some job can move, however the earlier ones failed |
| SerialQueue.WithoutTheChainBothMint | apps/stripe-bridge/src/webhook/webhookController.ts:16-35 | without the chain two copies of one checkout, neither failing, both mint an invite |
| Outcomes.RowHoldsTheInvite | apps/stripe-bridge/src/store/customers.ts:104-147 | the customer's rows hold the invite, tier, time and flags, the placeholder goes, and every other row stays with all but a settled flag |
| Outcomes.AddressHoldsTheInvite | apps/stripe-bridge/src/store/customers.ts:148-178 | with no customer, every row of the address holds the invite and keeps the rest, and every other row stays as it was; a row is added only where the address had none, neither subscribed nor past due |
| Retirement.DunningIsStillRetried | apps/stripe-bridge/src/duplicates.ts:33-40 | what is retired is exactly each past due or unpaid subscription of each other customer Stripe lists at the address |
| Retirement.NoneMeansNobodyIsRetried | apps/stripe-bridge/src/duplicates.ts:76-94 | when Stripe answers, a retirement finds nothing exactly when there is none such |
| Retirement.CheckoutSettlesEveryDuplicate | apps/stripe-bridge/src/webhook/handlers.ts:376-386 | a checkout nobody is banned from cancels each of them and voids each invoice it left open |
| Retirement.FailedPaymentSettlesEveryDuplicate | apps/stripe-bridge/src/webhook/handlers.ts:480-500 | so does a failed payment of a customer whose address has a live one |
| Retirement.RetirementIsReported | apps/stripe-bridge/src/webhook/handlers.ts:376-386 | with the link already out, a checkout alerts exactly when its retirement did something or was stopped |
| Outcomes.EveryCallIsTold | apps/stripe-bridge/src/duplicates.ts:55-94 | in the plan of every event, wherever Stripe throws, an alert comes after each mailed link, cancelled subscription and voided invoice |
| Outcomes.StripeCostsOnlyTheRetirement | apps/stripe-bridge/src/duplicates.ts:55-75 | wherever a retirement is stopped, the event invites, writes, disables and stamps exactly what it would have done otherwise |
| Resolutions.CheckoutResetsExactly | apps/stripe-bridge/src/webhook/handlers.ts:226-263 | a checkout of somebody no tag exempts stamps each record its last look finds exactly when they were found under the payer's address and the tier covers them all, and otherwise disables each |
| Outcomes.RenewalExtendsExactly | apps/stripe-bridge/src/webhook/handlers.ts:398-452 | the plan of a renewal settles the dunning flag, raises subscribed exactly when nobody is banned, and stamps each record of the person, the access days in milliseconds from now, exactly when no tag exempts them |
| Outcomes.CancellationCutsExactly | apps/stripe-bridge/src/webhook/handlers.ts:533-583 | the plan of a cancellation disables each record of the person exactly when, in the tables as it finds them, no VIP tag, live customer at the address or other paying address keeps them |
| Flags.CancellationFlags | apps/stripe-bridge/src/webhook/handlers.ts:543-556 | a cancellation clears subscribed exactly when nothing else at the address is paid for, and otherwise clears the dunning flag; it writes no other flag |
| Flags.FailedPaymentFlags | apps/stripe-bridge/src/webhook/handlers.ts:470-518 | a failed payment marks the payer past due and points the member at the card exactly when no live sibling stands at the address, and always alerts |
| Flags.StatusIsMirrored | apps/stripe-bridge/src/webhook/handlers.ts:521-530 | past due and unpaid set the flag, active and trialing clear it, any other status writes nothing |
| Flags.SignupInvoiceOnlySettles | apps/stripe-bridge/src/webhook/handlers.ts:398-413 | the invoice of a sign-up clears the dunning flag and does nothing else |
| Flags.CustomerlessIsNeverProcessed | apps/stripe-bridge/src/webhook/handlers.ts:398-400 | a paid invoice or cancellation that names no customer is never marked processed |
| Flags.SiblingMeansPaid | apps/stripe-bridge/src/members.ts:164-190 | a live sibling is found exactly when another real customer recorded at the address has an active or trialing subscription |
| Flags.LatestRowAnswers | apps/stripe-bridge/src/store/customers.ts:268-297 | the row that answers for an address is the latest of a real Stripe customer, else the latest there is; its flag and tier are the address's |
| Duplicates.RetirementSparesThePayer | apps/stripe-bridge/src/duplicates.ts:24-53 | each subscription retirement cancels is a dunning one of another customer listed at the address |
| Duplicates.VoidsFollowTheirCancel | apps/stripe-bridge/src/duplicates.ts:41-52 | wherever retirement stops, each invoice voided by then belongs to a subscription cancelled before it |
| Duplicates.DeletionSparesThePayer | apps/stripe-bridge/src/webhook/handlers.ts:533-583 | a deletion of another customer of a person Stripe reports live plans no record change and leaves the paying address subscribed |
| Duplicates.PaidAccessSurvives | apps/stripe-bridge/src/webhook/handlers.ts:543-577 | through any run of such deletions, in any order, redelivered and failing anywhere, no record is touched and the payer stays mapped and subscribed |
| Duplicates.CheckoutLeavesThemPaying | apps/stripe-bridge/src/webhook/handlers.ts:353-386 | a checkout that got as far as its row leaves its customer paying at the address, wherever it then dies |
| Duplicates.RetirementNeverRevokes | apps/stripe-bridge/src/duplicates.ts:55-94 | from a checkout that wrote its row through any run of the deletions about that person, nothing disables or re-stamps a record or unmaps the payer |
| Duplicates.CheckoutAnswersForTheAddress | apps/stripe-bridge/src/store/customers.ts:104-147 | after the checkout's write the address reads as subscribed exactly when the customer is new or no ended customer first seen later stands at it |
| ReturningMembers.AnOlderRowDoesNotGuard | apps/stripe-bridge/src/members.ts:192-213 | a returning member whose older row does not answer for the address loses their records to a deletion at their other address |
| ReturningMembers.TheStoryLeadsThere | apps/stripe-bridge/src/store/customers.ts:104-147 | four checkouts and a cancellation leave exactly that table, and an admin's link completes it |
| Resolutions.SlipsMeans | apps/stripe-bridge/src/webhook/handlers.ts:226-242 | the last look of a delivery finds a stronger tag than the first exactly when its session is bound to an invite the customer's row no longer holds and that leads to an address so tagged |
| Resolutions.BanHoldsUnlessItSlips | apps/stripe-bridge/src/webhook/handlers.ts:338-346 | with anybody banned at either look, an event's plan mints, mails, stamps and re-subscribes nothing exactly when the ban did not slip past the first look |
| Resolutions.VipHoldsUnlessItSlips | apps/stripe-bridge/src/webhook/handlers.ts:387-394 | with anybody VIP at either look, an event's plan disables and stamps no record exactly when the tag did not slip past the first look |
| Resolutions.StaleSessionSlips | apps/stripe-bridge/src/webhook/handlers.ts:226-242 | a session bound to an invite that another has replaced on the row: a VIP's record is disabled, a banned member's row is written |
| Resolutions.RunsStayAddressed | apps/stripe-bridge/src/store/customers.ts:104-178 | in every run of events with addresses and admin changes that keep them, every row carries an address |
| Resolutions.RunsKeepTheTagRules | apps/stripe-bridge/src/webhook/handlers.ts:421-443 | after every such run both rules hold of everything a delivery did, wherever it failed, unless it slips |
| Resolutions.BlankRowHidesItsPayer | apps/stripe-bridge/src/webhook/handlers.ts:411-420 | a row with an invite and no address extends a banned member |
| TagRules.WithoutAPayerTagsAreSkipped | apps/stripe-bridge/src/webhook/handlers.ts:411-420 | a banned member's records are stamped, and a VIP's disabled, exactly when no address was resolved and the invite led to records |
| TagRules.FlagsKeepIdentity | apps/stripe-bridge/src/members.ts:96-117 | writing a payment or subscription flag changes neither who a customer resolves to nor what governs them |
| Sweep.ReconcilePendingExpiries | apps/stripe-bridge/src/reconcile.ts:44-94 | performs exactly the sweep of the tables and snapshot it starts with, or the part of it that came off |
| Sweep.SweepStampsWhatItOwes | apps/stripe-bridge/src/reconcile.ts:44-94 | a stamp is planned exactly when a member who reads as subscribed, with a sign-up and no exempting tag, holds that record with no expiry: at the close of the sign-up's window while that is ahead, else of one from the sweep; nothing else is done |
| Sweep.SweepNeverRevokes | apps/stripe-bridge/src/reconcile.ts:65-74 | everything the sweep stamps had no expiry, belongs to a subscribed member and gets none in the past |
| Sweep.SweepSparesTheTagged | apps/stripe-bridge/src/reconcile.ts:52-56 | over sound links, a stamped record's own address belongs to nobody who is banned or VIP under any address |
| Sweep.ReissueInvite | apps/stripe-bridge/src/admin/actions.ts:382-441 | performs exactly the reissue plan or the part of it that came off, and refuses exactly the banned |
| Sweep.ReissueKeepsTheBan | apps/stripe-bridge/src/admin/actions.ts:399-403 | a reissue grants something exactly when the member is banned under no address |
| Sweep.ReissueDoes | apps/stripe-bridge/src/admin/actions.ts:404-441 | a reissue mints, records and mails one invite to the address, and disables each record there exactly when one of them is left out of the tier or cannot be judged |
| Sweep.InviteComesBeforeTheCut | apps/stripe-bridge/src/admin/actions.ts:416-425 | nothing is disabled before the new invite exists and is on record |
| Identity.LinkedToIsComponent | apps/stripe-bridge/src/identity.ts:111-121 | one step in each direction finds the whole connected component from every address exactly when no destination pays for a third address |
| Identity.LinkedToIsClass | apps/stripe-bridge/src/identity.ts:111-121 | over such a map every member of a class has that class |
| Identity.PersonIsClass | apps/stripe-bridge/src/identity.ts:159-196 | over a star that agrees with redemptions a person is the whole class of the address, with one primary, from any member |
| Identity.ChainSplitsAPerson | apps/stripe-bridge/src/identity.ts:93-121 | a redemption behind a stated link gives two addresses of one component that do not find each other |
| Identity.RecordsFollowAddresses | apps/stripe-bridge/src/identity.ts:131-145 | a record with an address is among a person's records exactly when its address is among theirs |
| Identity.StatedLinksOutrank | apps/stripe-bridge/src/identity.ts:171-175 | the merged link of a payer is the stated one, else to the redeemer of their invite when that is somebody else |
| Identity.RedeemerIsNamed | apps/stripe-bridge/src/identity.ts:44-58 | an invite's redeemer is the first account its first invitation names, by id or by username |
| Identity.EvidenceInOrder | apps/stripe-bridge/src/identity.ts:178-195 | an address's own records answer first, then its stated link's, then the redeemer's, each time all there are |
| Standing.StrongestAcrossIsGoverning | apps/stripe-bridge/src/standing.ts:44-60 | the strongest tag over the addresses is the same in whatever order they are walked |
| Standing.OneAddressDecides | apps/stripe-bridge/src/standing.ts:17-60 | banned under any address is banned, VIP under any is VIP unless banned, and an HVU tag alone exempts nobody |
| Standing.TagIsThePersons | apps/stripe-bridge/src/members.ts:75-87 | the governing tag is the same whichever of a person's addresses is asked |
| MemberLinks.LinkTable.LinkAddress | apps/stripe-bridge/src/admin/actions.ts:121-163 | an accepted link is stored and an accepted unlink removed, for that payer alone, and a refusal changes nothing |
| MemberLinks.LastAcceptedStands | apps/stripe-bridge/src/admin/actions.ts:121-163 | after any run a payer is linked to the destination of their last accepted request, and as they began when none was |
| MemberLinks.RunsStayStars | apps/stripe-bridge/src/memberLinks.ts:5-22 | every run of linkAddress from an empty table keeps payers and destinations disjoint |
| MemberLinks.RefusedMeans | apps/stripe-bridge/src/memberLinks.ts:5-22 | over a star a link is refused exactly when it would give an address both roles |
| MemberLinks.UnlinkUndoes | apps/stripe-bridge/src/admin/actions.ts:121-163 | an accepted link can always be taken back, which restores the table of a payer that had none |
| MemberLinks.RunsKeepPeopleWhole | apps/stripe-bridge/src/identity.ts:159-196 | after every run, with stated links alone, a person's addresses are one component |
| Roster.EveryAddressOnOneRow | apps/stripe-bridge/src/roster.ts:208-267 | each paying address and each record's address is on one row and no second |
| Roster.EveryRecordOnOneRow | apps/stripe-bridge/src/roster.ts:208-267 | each record with an address is under one row and no second |
| Roster.RowsAreLinkClasses | apps/stripe-bridge/src/roster.ts:208-267 | two addresses share a row exactly when links join them |
| Roster.ShownIsAhead | apps/stripe-bridge/src/roster.ts:73-94 | the billing account shown is the person's own that pays, else that an admin linked, else that is their own address, else the first by address |
| Roster.BillingIgnoresOrder | apps/stripe-bridge/src/roster.ts:73-94 | the billing account shown is the same for every order of the customer rows |
| Incidents.Monitor.Record | apps/fleet-monitor/src/incidents.ts:150-220 | one check leaves exactly the streak and incident rows of the fold, and answers what it opened or closed |
| Incidents.Monitor.RetireAbsent | apps/fleet-monitor/src/incidents.ts:281-309 | every open incident the pattern selects and the round did not see is closed as removed, its streak dropped, and nothing else changes |
| Incidents.Monitor.UptimePercent | apps/fleet-monitor/src/incidents.ts:362-400 | the loop over the outage rows answers the score the lemmas are about |
| IncidentHistory.TablesFitHistories | apps/fleet-monitor/src/incidents.ts:150-220 | after any history a target's row holds its trailing runs and observed run, at most one incident is open, and one is exactly while its checks have it down |
| IncidentHistory.OpenIncidentsTell | apps/fleet-monitor/src/incidents.ts:190-217 | after any history an open incident began at the check that took its target down and gives the latest reason a failing check named since, an empty one never replacing it |
| IncidentHistory.RunStartMeans | apps/fleet-monitor/src/incidents.ts:110-121 | the observed run begins at the longest suffix of checks with no gap |
| IncidentHistory.RunsDecide | apps/fleet-monitor/src/incidents.ts:205-217 | a failing run at the threshold means open, a good run there means not open, and only one run is ever positive |
| IncidentHistory.ChangesAlternate | apps/fleet-monitor/src/incidents.ts:205-217 | a target's openings and closings alternate from an opening on, and an odd count leaves it open |
| IncidentHistory.OutagesAreDisjoint | apps/fleet-monitor/src/incidents.ts:390-397 | no instant belongs to two outages of one target |
| IncidentHistory.RunsStayOrdered | apps/fleet-monitor/src/incidents.ts:205-217 | in every state reached in time order a target's outages are closed before the next one opens |
| IncidentHistory.CoveredMeansDown | apps/fleet-monitor/src/incidents.ts:383-397 | the rows cover an instant exactly when the checks up to then had the target down |
| IncidentHistory.DownMillisCounts | apps/fleet-monitor/src/incidents.ts:390-397 | adding up clipped outages counts the covered milliseconds of the window |
| IncidentHistory.UptimeIsExact | apps/fleet-monitor/src/incidents.ts:362-400 | uptime is the share of the window in which the target was not down, is unknown exactly when the window is not positive or the run misses an end, and never needs its clamp |
| IncidentHistory.ObservedIsTheRun | apps/fleet-monitor/src/incidents.ts:323-342 | after any history the observed run is from the first check of the unbroken run a target's checks end in to its last, and there is none exactly when it has no check |
| IncidentHistory.ScoreIsEarned | apps/fleet-monitor/src/fleet.ts:195-217 | after any history a target has a score exactly when its own checks span the window with no gap, and the score is the share of it they did not have the target down |
| IncidentHistory.PlainPrefixMatches | apps/fleet-monitor/src/incidents.ts:293-297 | a prefix without wildcards matches exactly what starts with it in any ASCII case |
| IncidentHistory.SweepReaches | apps/fleet-monitor/src/incidents.ts:267-299 | which targets the sweep gives up on, those under the prefix and those only LIKE takes for such |
| IncidentHistory.UnderscoreReachesAcross | apps/fleet-monitor/src/incidents.ts:277-299 | an underscore in the prefix gives up on containers of another host |
| IncidentHistory.PlainHostsKeepApart | apps/fleet-monitor/src/collector.ts:338-343 | the prefix of a host with no wildcard in its name takes in another host's containers exactly when the names differ in ASCII case alone |
| PlayLedger.Tables.InsertPlays | apps/fleet-monitor/src/plays/ledger.ts:557-593 | the first row of a history id stays, and the count is of the new ones |
| PlayLedger.Tables.KeepPage | apps/fleet-monitor/src/plexSync/history.ts:106-132 | one page's kept plays and its newest instant are committed together |
| PlayLedger.Tables.PageAll | apps/fleet-monitor/src/plexSync/client.ts:160-183 | pages are committed one by one until the end, a failure or death |
| PlayLedger.Tables.SyncHistory | apps/fleet-monitor/src/plexSync/history.ts:330-337 | a pass reads from the overlap behind the cursor, or from the lookback |
| PlayLedger.Tables.PurgeSections | apps/fleet-monitor/src/plays/ledger.ts:386-418 | exactly the plays go whose own row or whose item names one of the sections, and exactly the items of the sections |
| PlayLedger.RereadingIsFree | apps/fleet-monitor/src/plays/ledger.ts:547-593 | reading a page again inserts nothing and changes nothing but the cursor |
| PlayLedger.EmptyPageEnds | apps/fleet-monitor/src/plexSync/client.ts:173-182 | a page that is empty or does not say its size ends the pass, and nothing behind it is asked for |
| PlayLedger.PassKeepsPromises | apps/fleet-monitor/src/plexSync/history.ts:75-133 | wherever a pass stops, all it read is stored and everything before its cursor is |
| LedgerRuns.RunsCover | apps/fleet-monitor/src/plexSync/history.ts:89-133 | after any passes and purges, each dying after any page, every play nobody dropped from the first floor up to the cursor is stored as the server has it, and nothing else is |
| LedgerRuns.CompletePassStoresAll | apps/fleet-monitor/src/plexSync/history.ts:330-337 | a completed pass has stored all the server held from two days behind the cursor on, or from the lookback |
| LedgerRuns.AnsweredPassCompletes | apps/fleet-monitor/src/plexSync/client.ts:160-183 | a pass is complete exactly when its replies got to the total they named |
| LedgerRuns.PurgedStaysOut | apps/fleet-monitor/src/plexSync/history.ts:106-132 | once a library is purged and every later pass leaves it out, none of its plays is stored |
| LedgerRuns.CursorDipsWithinOverlap | apps/fleet-monitor/src/plays/ledger.ts:253-271 | a pass never leaves the cursor more than two days behind where it was |
| LedgerRuns.CursorIsNewestRead | apps/fleet-monitor/src/plexSync/history.ts:106-132 | a pass leaves the cursor at the newest play it read, and where it was when it read none |
| LedgerRuns.CursorDipsExactly | apps/fleet-monitor/src/plays/ledger.ts:253-271 | the cursor dips exactly when a pass read some play and each it read is older |
| LedgerRuns.CompletePassKeepsUp | apps/fleet-monitor/src/plexSync/history.ts:330-337 | a completed pass never leaves the cursor behind while the listing it was told the size of holds a play as new |
| LedgerRuns.CursorDips | apps/fleet-monitor/src/plays/ledger.ts:253-271 | the cursor does dip when a pass dies after an older page |
| Catalogue.MissingItemKeys | apps/fleet-monitor/src/plays/ledger.ts:599-621 | the first missing keys in text order, up to the limit |
| Catalogue.StoreAnswered | apps/fleet-monitor/src/plexSync/history.ts:136-163 | described items are present now, and unanswered keys get an absent row |
| Catalogue.EnrichSingly | apps/fleet-monitor/src/plexSync/history.ts:171-199 | success leaves none of the keys missing, rows only change by being described, and one request is made a key at most |
| Catalogue.EnrichItems | apps/fleet-monitor/src/plexSync/history.ts:209-246 | ends for every server because the missing set shrinks, success leaves none missing, and two requests a missing item are enough |
| Catalogue.PageSection | apps/fleet-monitor/src/plexSync/inventory.ts:64-93 | the items of the pages that landed are present now, and the failure is answered |
| Catalogue.SyncLibrary | apps/fleet-monitor/src/plexSync/inventory.ts:108-193 | excluded sections are purged, every other one is paged even after a failure, and unseen items are retired only by a complete run |
| Catalogue.RunIsComplete | apps/fleet-monitor/src/plexSync/inventory.ts:159-173 | a run is complete exactly when no section it pages failed |
| Catalogue.InventoryMeans | apps/fleet-monitor/src/plays/ledger.ts:525-545 | a complete run leaves present what it listed and what was stamped no earlier than it; an incomplete one turns nothing absent |
| Inventory.SectionListsWhatItHolds | apps/fleet-monitor/src/plexSync/client.ts:160-183 | a section that answers to its end lists every item it holds, and none lists an item it does not |
| Inventory.LastFailureIsKept | apps/fleet-monitor/src/plexSync/inventory.ts:159-181 | of the sections that failed, the reason kept is that of the one paged last |
| Inventory.AnsweredRunIsComplete | apps/fleet-monitor/src/plexSync/inventory.ts:159-181 | a run is complete exactly when every section it pages answered to the end of its listing |
| Inventory.CompleteInventoryIsExact | apps/fleet-monitor/src/plays/ledger.ts:525-545 | with a clock that moved on, such a run leaves present exactly the items the server holds in the sections that are not excluded |
| Inventory.InventoryKeepsWhatIsHeld | apps/fleet-monitor/src/plexSync/inventory.ts:96-107 | however the sections answer, no item still held turns absent, and a row changes only by being listed or by being retired |
| Viewings.PreviousMeans | apps/fleet-monitor/src/plays/base.ts:118-125 | the window's predecessor is the latest earlier play of the partition, kept or not |
| Viewings.KeptExactly | apps/fleet-monitor/src/plays/base.ts:129-143 | a play is kept exactly when each earlier one of the item by its viewer is, in milliseconds, at least the runtime behind it |
| Viewings.KeptPlaysAreApart | apps/fleet-monitor/src/plays/base.ts:129-143 | two kept plays of an item by a viewer are at least its runtime apart |
| Viewings.EveryPlayHasAHead | apps/fleet-monitor/src/plays/base.ts:129-143 | every play leads back to a kept one of the same viewer through gaps shorter than the runtime |
| Viewings.DedupeIsIdempotent | apps/fleet-monitor/src/plays/base.ts:129-143 | deduplicating the kept plays keeps them all |
| Viewings.PlayedMeansViewed | apps/fleet-monitor/src/plays/base.ts:214-235 | an item is in the unfiltered base exactly when the ledger has a play of it |
| Viewings.UnplayedMeans | apps/fleet-monitor/src/plays/neverPlayed.ts:87-119 | a group is never-played exactly when it has present members and none was played |
| PlayGroups.FilmIsUnplayed | apps/fleet-monitor/src/plays/neverPlayed.ts:87-119 | a film is listed exactly when it is present and nobody finished it in the window |
| PlayGroups.ShowIsUnplayed | apps/fleet-monitor/src/plays/neverPlayed.ts:87-119 | a show is listed exactly when the library has an episode of it and nobody finished any in the window |
| PlayGroups.AlbumIsUnplayed | apps/fleet-monitor/src/plays/neverPlayed.ts:87-119 | an album is listed exactly when the library has a track of it and nobody finished any in the window |
| Viewings.NeverPlayedComplementsPlays | apps/fleet-monitor/src/plays/neverPlayed.ts:87-119 | over all time a library group is never-played exactly when no member has a row in the base |
| Viewings.ViewingsInWindow | apps/fleet-monitor/src/plays/base.ts:129-143 | an item has no viewing in a window exactly when each play of it there follows an earlier one too soon |
| Viewings.WindowBreaksTheComplement | apps/fleet-monitor/src/plays/neverPlayed.ts:151-154 | inside a window the two lists fail to complement each other for a group exactly when a member was played there and every play there of every member only marks an earlier one again |
| Viewings.MarkedTwiceIsNowhere | apps/fleet-monitor/src/plays/neverPlayed.ts:87-119 | a film marked twice within its runtime, across the window's start, has no viewing there and is not listed |
| Viewings.LostPlaysBeganEarlier | apps/fleet-monitor/src/plays/base.ts:129-143 | a play lost so leads back to a kept one from before the window |
| PlayViews.GroupsAddUp | apps/fleet-monitor/src/plays/views.ts:182-197 | the groups of any key add up to the rows |
| PlayViews.GroupsHoldOneKind | apps/fleet-monitor/src/plays/base.ts:85-103 | plays in a group that is not a lone item have one kind |
| PlayGroups.BaseMeans | apps/fleet-monitor/src/plays/base.ts:171-198 | a play is in the base exactly when every filter asks for it and it is kept, whatever the filters drop |
| PlayGroups.EpisodesGroupByShow | apps/fleet-monitor/src/plays/base.ts:85-103 | episodes of known shows count together exactly when the shows have one name |
| PlayGroups.FilmsGroupByTitleAndYear | apps/fleet-monitor/src/plays/base.ts:85-103 | films with a title count together exactly when title and year agree |
| PlayGroups.TracksGroupByAlbum | apps/fleet-monitor/src/plays/base.ts:85-103 | tracks of known albums count together exactly when album and artist agree or a colon hides in them |
| PlayGroups.ColonJoinsTwoAlbums | apps/fleet-monitor/src/plays/base.ts:85-103 | two albums by two artists that a colon makes one |
| PlayGroups.LoneItemsStandAlone | apps/fleet-monitor/src/plays/base.ts:85-103 | an item that stands alone shares its title with no other |
| PlayViews.OverviewAddsUp | apps/fleet-monitor/src/plays/views.ts:282-298 | kinds add up to the total, the four qualities to the video plays, and hosts to the total exactly when every play's host is listed |
| PlayViews.OverviewCounts | apps/fleet-monitor/src/plays/views.ts:269-280 | titles and viewers are counted once each |
| PlayViews.TimelineAddsUp | apps/fleet-monitor/src/plays/views.ts:310-368 | the timeline's points add up to the total for every way of bucketing |
| PlayViews.RewatchesAreRepeats | apps/fleet-monitor/src/plays/views.ts:198-200 | rewatches are the plays less the distinct viewer and item pairs |
| PlayViews.TitlePageAgrees | apps/fleet-monitor/src/plays/history.ts:299-325 | a title's own plays, viewers, items, rewatches, latest instant, best quality and servers equal those of its ranked row |
| PlayViews.HighestMeans | apps/fleet-monitor/src/plays/history.ts:299-325 | the latest instant and the best quality shown are some play's, and no play's is higher |
| PlayViews.QualityNarrowsBase | apps/fleet-monitor/src/plays/base.ts:182-198 | a quality filter keeps the rows of the unfiltered base that pass it, no viewing being judged again |
| PlayViews.ColumnIsFilteredTotal | apps/fleet-monitor/src/plays/views.ts:286-294 | a quality's column equals the total under its filter exactly when no track carries the label |
| PlayViews.LabelledTrackIsCounted | apps/fleet-monitor/src/plays/base.ts:182-198 | one play of a track labelled 4k is in that filter's total and not in its column |
| PythonMath.HalfwayIsOddHalves | apps/fleet-monitor/src/pythonMath.ts:10-18 | a double is halfway at some digits exactly when it is an odd multiple of 2^-(digits + 1) |
| PythonMath.RoundsHalfToEven | apps/fleet-monitor/src/pythonMath.ts:14-22 | over every double the result is the nearest decimal, the even one of a tie, and no other number is |
| PythonMath.RoundMeans | apps/fleet-monitor/src/pythonMath.ts:14-22 | over all reals, exactly which ties go to the wrong neighbour |
| PythonMath.RoundIsClose | apps/fleet-monitor/src/pythonMath.ts:14-22 | the number answered is a whole count of units of its last digit, within half a unit of any double |
| PythonMath.FloorDivideIsFloor | apps/fleet-monitor/src/pythonMath.ts:55-74 | the quotient is the floor for every sign of dividend and divisor |
| Series.Downsample | apps/fleet-monitor/src/series.ts:248-282 | the map of buckets, sorted, gives one point a segment, stamped at its last reading with its rounded mean |
| Series.SegmentsTileTheSeries | apps/fleet-monitor/src/series.ts:263-276 | the buckets cut a series in time order into contiguous segments that make up the series |
| Series.ThinnedCount | apps/fleet-monitor/src/series.ts:259-271 | at most one point over the limit, and over it exactly when the series is long enough to thin and every bucket, the one past the last included, has a reading; then one lies on the end |
| Series.OnePointOver | apps/fleet-monitor/src/series.ts:259-271 | a reading exactly on the end gives one point over |
| Series.ThinnedInOrder | apps/fleet-monitor/src/series.ts:271-281 | the points of the thinned chart are in time order |
| Series.AveragedReadingsAreClose | apps/fleet-monitor/src/series.ts:236-246 | readings averaged together are less than a bucket apart |
| Series.MeansAddUp | apps/fleet-monitor/src/series.ts:271-281 | the segments' means, each as often as it has readings, add up to the series |
| Series.MeanBetween | apps/fleet-monitor/src/series.ts:271-281 | a segment's mean lies between any bounds of its readings |
| Series.WidthIsLeast | apps/fleet-monitor/src/series.ts:262 | a bucket is a second, or just wide enough for the limit to span the window |
| Time.CivilRoundTrip | libs/server-common/src/time.ts:28-50 | a date taken apart and put together again is the same instant exactly from the year 100 on |
| Time.CalendarCounts | libs/server-common/src/time.ts:28-50 | months and years have their lengths, leap years among them, counted from 1970 |
| Time.EveryDateIsWritten | libs/server-common/src/time.ts:12-18 | every date of the calendar is what is written for the seconds counted up to it |
| Time.EpochText | libs/server-common/src/time.ts:12-18 | the epoch's text, to the letter |
| Time.TextOrderIsTimeOrder | libs/server-common/src/time.ts:12-18 | over the years 0 to 9999, text with or without its fraction sorts as the instants do |
| Time.StoredOrder | libs/server-common/src/time.ts:12-18 | the same between millisecond text and microsecond rows left by Python |
| Time.SameText | libs/server-common/src/time.ts:12-18 | the text equals what Python would have written for that instant |
| Time.ParseCutsToMillis | libs/server-common/src/time.ts:20-50 | a microsecond row reads back cut to its millisecond exactly from the year 100 on |
| Time.EveryFormMeans | libs/server-common/src/time.ts:20-50 | every accepted form, with up to six digits of fraction and any zone, reads as its date's instant cut to the millisecond and moved by its offset; a longer fraction is refused |
| Time.RoundTrip | libs/server-common/src/time.ts:12-50 | reading back what was written gives the instant exactly from the year 100 on |
| Income.StepMoves | apps/admin-portal/src/lib/income.ts:260-338 | one row moves the standing by its delta and by a gap, which is zero but for four kinds of row |
| Income.EventsTellTheMove | apps/admin-portal/src/lib/income.ts:260-338 | an upgrade, downgrade or cancel is listed exactly when the member makes that move, with its tiers and its delta |
| Income.PaymentAwaitsItsSignup | apps/admin-portal/src/lib/income.ts:270-336 | a payment by somebody not known to pay lists nothing, and the sign-up it was for is later listed in full, once |
| Income.OrderedIsTheLog | apps/admin-portal/src/lib/income.ts:344-367 | the log is walked whole, each row once, by instant and then by id |
| Income.DeltasAddUp | apps/admin-portal/src/lib/income.ts:344-367 | over every log a member's deltas and gaps add up to where they stand |
| Income.DeltasTelescope | apps/admin-portal/src/lib/income.ts:344-367 | the deltas of a member who opens with a sign-up naming a tier, with no payment while not paying, add up to the price of their standing |
| Income.StepAgrees | apps/admin-portal/src/lib/income.ts:370-392 | one row keeps the replay in agreement exactly when it is not a silent change |
| Income.SortedBack | apps/admin-portal/src/lib/income.ts:366-380 | filtering and sorting the published list back gives the walk's own events before the moment, equal instants in order |
| Income.ReplayFollowsExactly | apps/admin-portal/src/lib/income.ts:370-392 | the replay agrees with a member's standing after every row of a log exactly when no row of theirs is a silent change |
| Income.StatesBeforeAgrees | apps/admin-portal/src/lib/income.ts:370-392 | walking the published list back to a moment tells whether a member pays, and at which tier, as the log does, when no earlier row of theirs was silent, whatever anybody else's are |
| Income.ListTellsTheLog | apps/admin-portal/src/lib/income.ts:344-392 | for a member who opens with a sign-up the deltas listed before any moment add up to the price of where the replay has them, which is where the log has them |
| TypoTwins.OneEditApartMeans | apps/admin-portal/src/lib/duplicateMembers.ts:45-63 | checking at the first difference holds exactly when one substitution, insertion or deletion anywhere does it |
| TypoTwins.OneEditApartIsSymmetric | apps/admin-portal/src/lib/duplicateMembers.ts:45-63 | the relation is symmetric and nobody is one edit from themselves |
| TypoTwins.CanonicalIsFixed | apps/admin-portal/src/lib/duplicateMembers.ts:28-38 | the canonical form of a canonical form is itself |
| TypoTwins.TagsMakeNoMailbox | apps/admin-portal/src/lib/duplicateMembers.ts:27-38 | a plus tag does not change the canonical form |
| TypoTwins.DotsMakeNoMailbox | apps/admin-portal/src/lib/duplicateMembers.ts:27-38 | a dot before a tag does not change the canonical form, wherever it stands |
| TypoTwins.PlainMailboxesDiffer | apps/admin-portal/src/lib/duplicateMembers.ts:27-38 | addresses without a dot or a tag have one canonical form only when they are one address |
| TypoTwins.FindDuplicateTwins | apps/admin-portal/src/lib/duplicateMembers.ts:73-96 | an address is listed exactly when it has matches, with all those of the last candidate that carries it |
| TypoTwins.MatchesAreTheTwins | apps/admin-portal/src/lib/duplicateMembers.ts:73-96 | the matches are every other candidate of the same canonical form or one edit from it, once each time it is listed, in list order |
| TypoTwins.TwinsAreMutual | apps/admin-portal/src/lib/duplicateMembers.ts:85-95 | twins are mutual, and an address is its own twin exactly when it is a candidate twice |

## Left out

- The member event log's rows and their wording: `recordEvent` and the alert and mail texts hold no state anything modelled reads.
- Trimming and lowercasing of addresses and invite codes: they are values already folded; the empty one stands for a missing email.
- Local Plex accounts with no address, which the roster lists under their username.
- An admin's change landing inside a delivery: changes happen between deliveries, and the admin API's own queueing is not modelled. In `SerialQueue` a delivery reads the tables when it begins.
- Which of two rows of one address SQLite returns first beyond insertion order: rows keep the order their keys were first inserted in. Stripe's customer prefix is matched in lower case only.
- Income.StatesBeforeAgrees: goes one way at one moment, since a later row can make up for a silent one; over every row of a log the condition is exact.
- Duplicates.PaidAccessSurvives: needs the answering row subscribed only where a deletion resolves to another address; the checkout lemma says exactly when it is.
- Instants outside the years 0 to 9999, and `Date` values that are not numbers.
- IEEE rounding inside sums, means and quotients: arithmetic is exact, and the compensated sum is a sum.
- Surrogate pairs in addresses, and Unicode case folding.
- SQLite's local-time bucketing: a bucket is any function of a play.
- Section folders against the excluded paths: the set of excluded sections is given.
- The order and limits of ranked lists, page sizes, search text and names or thumbnails in the play views.
- The monthly income table built on the replay, and members the log never saw sign up.
- HTTP, ssh, SMTP, SQLite and Nest plumbing, authentication, schema guards, page code and configuration tables.
- Admin `resetExpiry` and `resetTier`: these actions bypass the tag rules on purpose.
- Notes and download toggles, the invite's libraries and the tier table: nothing modelled reads them.
