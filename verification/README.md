# viz-gateway: a verified model of the bridge

viz-gateway moves VIZ to GRAM and Solana as wrapped wVIZ and back. Operators sign with T-of-N;
a coordinator without keys collects their signatures; watchers and a dispatcher, any of which may
crash between two statements, share one SQLite store. This project models those protocols in
Dafny and proves what each of them guarantees, and exactly how far.

Against an arbitrary coordinator: whatever lands on VIZ is called for by a source event on an
honest operator's node (`KeyedSigner.LandedIsCalledFor`), and at most one release per action id
lands, exactly as long as honest operators are not asked for two that the ledger takes for one
(`ReleaseLimits.AtMostOneLandsIff`). VIZ pays a burn at most once, under whichever id
(`KeyedSigner.VizPaysBurnAtMostOnce`). Signers do accept the mint and the refund of one deposit
side by side, and the release and the return of one burn
(`SourceValidator.MintAndRefundBothAcceptedIff`, `SourceValidator.ReleaseAndReturnBothAcceptedIff`);
choosing between the two is the dispatcher's work. So a burn can be returned on GRAM and released
on VIZ: exactly when its home account is made between the two (`KeyedSigner.PaidOnBothSidesIff`).

With an honest coordinator and dispatcher, crashes and lost answers included: on each remote chain
locked less circulating is always what is left of each deposit and burn, fees are never over-swept,
and the outbox never confirms both a mint and its refund (`Backing`, `Dispatcher`). A deposit can still be
paid both ways on chain when the answer about a landed mint is lost until its window is past;
`BackingLimits` says for which deposits, and `Backing` what holds when mints land in time.

The scans lose no event and invent none, whatever crashes (`BurnWatcher`, `VizScan`).

`dafny verify dfyconfig.toml` checks everything.

## How it is arranged

From one signer to the whole federation:

- `ReplayLedger` is the signer's ledger of signed proposals: the table with its compare-and-swap,
  and one `/approve` call as a sequence of steps between which anything else may happen.
- `ReleaseProtocol` runs any number of such calls at every operator, over a growing chain of
  which each node serves a growing prefix, under an arbitrary coordinator and dishonest operators.
- `ReleaseLimits` shows exactly where its law ends: which sets of requests let two releases of one
  action land, with the runs in which they do. `ReleaseSuccession` is the other half: when signers let
  go of a release, and that its successor then lands.
- `Acceptance` writes out the six payments that source validation accepts, down to the texts hashed.
- `SourceValidator` and `KeyedSigner` are the signer's other checks; `KeyedSigner` joins them with
  the release protocol, from a burn on GRAM to the one transfer that lands for it, and to the order
  that may return it beside.
- `Canonical`, `Decimal`, `Text`, `VizAmount` and `Fees` are the encodings and the arithmetic all
  parties have to agree on.

From the store to the books:

- `Outbox` and `Policy` are the rows and the pure decisions about them, `Dispatcher` the machine of
  watchers, dispatcher, coordinator, crashes and operator directives over the table, one store
  access per step. `Settlement` says what its final REFUNDED state means, `HeldRows` which held rows
  it sends back by itself, `TickLaws` what each answer and each crash does to a row.
- `Backing` runs that machine together with VIZ, GRAM and Solana, rows of both chains in one table
  and a fee policy and a gateway account for each, and proves conservation; `Sums` has the finite
  sums it needs, `BackingLimits` the histories in which a deposit is paid both ways or a pinned fee
  goes stale, `Turnover` how the books move between two moments. `Recon` is the reconciler, with
  what keeps it quiet over honest histories and what a shortfall makes it do.

Scans, limits and the rest:

- `BurnScan` and `BurnWatcher` are the peg-out scans, per call and over runs; `VizScan` the deposit
  scan, its windows and its agreement with the signers' own reading; `ChainDeposits` what both read,
  told by the chain alone.
- `SlidingWindow` has the 24h cap and the sender rate limit in both store implementations.
- `Authority`, `Approvals`, `MultisigOrder`, `Rotation` and `Proposals` are the selection of
  signatures, their collection, the packing of multisig orders and key rotation.

Code that changes things step by step is written so here: the store's tables, the ledger, the
approval set, the reconciler and the auto-unpause are classes, the loops are loops. Each such
method is tied to a function, and the properties are proved of that function. Protocols with
several parties are step machines over values, with properties proved of every run.

## What is assumed

- Cryptography is ideal: hashes and transaction ids are injective, so a ledger key carries the
  release it identifies and a digest the fields it was made from. Key recovery is a table.
- Every operator's node serves a prefix of one chain, and later a longer prefix. Its "has this
  transaction landed" answer is true of that prefix; the code answers "not landed" on any lookup
  error (packages/viz-watcher/src/vizChain.ts:554-563), so a failing lookup is outside the model.
- VIZ admits a transfer once, not after its expiration, only with the threshold of signatures, and
  only to an account that exists in its block; accounts are only ever added. Nothing else about
  admission is modelled: reference blocks (TaPoS), the gateway's balance and the one-hour limit on
  expirations could only keep more out. So where a lemma says that two releases do land, that is as
  far as admission is modelled.
- VIZ accounts have names as packages/solana-watcher/src/lookupValidate.ts:23 has them, and a TON
  sender is a wallet address of 48 characters, where a lemma needs that no account is one.
- Operators' nodes agree on source events; each shows the VIZ accounts of the prefix it has seen.
- Some theorems need honest operators to be sent no proposal with the marker fields of a chain its
  direction is not routed to (`HonestWellAsked`): what a signer could check request by request.
  Nothing in the signer checks this, so it is a hypothesis of those theorems, not of the machine.
  `ReplayLedger.KeyNamesEffectIffShapeMatches` says what it gives; what is needed for at most one
  release to land is less, and `ReleaseLimits.AtMostOneLandsIff` says what.
- In `Dispatcher` the coordinator, a separate process, stops writing a row before the dispatcher
  takes the answer for it or, after a dispatcher crash, before the row is requeued, and directives
  are applied when it boots, between ticks.
  `Dispatcher.LateWriteIsSafeIff` says exactly when a later write of a txid would do no harm.
- In `Backing` an answer of success is true, each action lands at most once (for releases this is
  `ReleaseProtocol.AtMostOneReleaseLands`), anything but a mint only once its txid is persisted,
  destinations never become unprovisioned, the fee policies are fixed, and store writes succeed. An
  answer of failure may be false, and a mint, pinned beforehand or not, may land at any later
  moment. Where a law needs mints to land in time, it says so (`MintsInTime`); where it needs pinned
  fees not to go stale, likewise (`PinsKeepUp`, exact by `BackingLimits.AlwaysBackedIffPinsKeepUp`).
- Clocks passed to the sliding windows do not go back.

## What the code does beside its documentation

- The two amount conversions are documented as inverses. They are, except on negative amounts with
  a fraction, whose sign is lost (`VizAmount.RoundTripExactly`).
- The minimum quoted to a rejected depositor does not always suffice (`Fees.QuotedMinimumSuffices`).
- The TON scan with a page size of one stops after the newest transaction and reports it as drained
  (`BurnScan.PaginateBurnsByLt`, `BurnScan.PageOfOneLosesBurns`).
- "Any other pause stays latched" needs two provisos: no stalled pause overwrites its reason, and it
  is not written while a tick is clearing (`Recon.OverwrittenOrLatePausesAreCleared`).
- Signature selection is documented as minimal; with unequal weights a selected signature may be
  dispensable (`Authority.DispensableIffWithinOvershoot`).
- A return action is told by its id alone, so a signer asked for it as a release signs a VIZ transfer
  to the burn's sender (`PaysReturn` in `KeyedSigner.SignedIffCalledFor`). It can never land, as the
  sender is no VIZ account (`KeyedSigner.VizPaysBurnAtMostOnce`).
- Validation goes by an action's id and not by the direction it claims, so a sweep or a refund sent as a
  GRAM_RETURN passes it too (`KeyedSigner.GramReturnIsApprovedIff`); its recipient is a VIZ account.
- The ledger has no word on a return approved while the home account is missing and a release asked
  for once it is there (`KeyedSigner.PaidOnBothSidesIff`).
- A fee is documented as pinned before every broadcast. A zero fee is not, and an earlier pin then
  stands in the books for more than was withheld (`BackingLimits.AlwaysBackedIffPinsKeepUp`).

## Model

| member | source | states |
|---|---|---|
| ReplayLedger.KeyNamesEffectIffShapeMatches | packages/signer/src/replayLedger.ts:69-83 | the recorded key names the signed effect, and a release's own expiration, exactly when the proposal has no marker fields of a chain its direction is not routed to |
| ReplayLedger.ForeignMarkerHidesRelease | packages/signer/src/routeApproval.ts:27-46 | any two releases sent with one GRAM marker would be signed as themselves and are recorded under one key |
| ReplayLedger.SignedProposals.PutSigned | packages/common/src/store.ts:785-790 | compare-and-swap: inserts only where there is no row, replaces only the expected key, else changes nothing and says so |
| ReplayLedger.AssertNotReplay | packages/signer/src/replayLedger.ts:86-127 | clears if and only if the action is new, or on record with this key, or on record with another release whose expiration this node's head is more than a minute past and which is in none of its blocks; the row is then this entry, and a refusal changes nothing; all as the interruptible call does when nothing intervenes |
| ReplayLedger.InterruptedVerdict | packages/signer/src/replayLedger.ts:86-127 | whatever happens between its awaits, a call is cleared if and only if one of these holds of what each await found; a call that loses the first claim is cleared if and only if the winner claimed the same key |
| ReleaseSuccession.SuccessorLandsIff | packages/signer/src/replayLedger.ts:104-126 | of two genuine releases of one action, some run with every request in shape gives one a quorum and lands the other if and only if the other is good for more than a minute longer (as far as admission is modelled) |
| ReleaseSuccession.SuccessorLandsLater | packages/signer/src/replayLedger.ts:104-126 | over every run, with a quorum for one release another of that action lands only in a block more than a minute past the first one's expiration |
| ReleaseLimits.AtMostOneLandsIff | packages/signer/src/replayLedger.ts:86-127 | with n + dishonest < 2T <= 2n, for any set of requests: in every run in which honest operators are asked only for these, at most one release per memo lands, if and only if no two of them for one action are recorded under one key and sign different genuine releases of it (landing as far as admission is modelled) |
| ReleaseProtocol.TwoLandedClash | packages/signer/src/replayLedger.ts:86-127 | whatever honest operators are asked: two releases landed under one memo go back to two such requests sent to one honest operator |
| ReleaseProtocol.SignaturesAreTraced | packages/signer/src/index.ts:242-247 | in every run each approval goes back to a request for that action whose derived key the ledger recorded, and whose routed effect is what was signed |
| ReleaseProtocol.AtMostOneReleaseLands | packages/signer/src/replayLedger.ts:86-127 | the guard per request: when honest operators are sent only proposals in shape, releases with one memo that landed are one transfer in one block |
| ReleaseLimits.MarkedReleasesBothLand | packages/signer/src/replayLedger.ts:69-83 | in every federation any two genuine releases of one action, marked for another chain, both land in some run (as far as admission is modelled: no TaPoS, balance or one-hour expiration rule) |
| ReleaseLimits.DifferentActionsBothLand | packages/signer/src/replayLedger.ts:86-127 | the law is per action id: any two genuine releases of different actions both land in some run with every request in shape (again as far as admission is modelled) |
| ReleaseProtocol.TwoQuorumsOneDead | packages/signer/src/replayLedger.ts:104-126 | under the same proviso two effects never both gather a quorum for one action unless one is a release that an honest node proves can never land |
| ReleaseProtocol.ClaimedKeyIsCurrentOrNeverLands | packages/signer/src/replayLedger.ts:92-127 | whatever is asked: a key once claimed and no longer the row's is more than a minute expired in that operator's view and lands in no later state |
| ReleaseProtocol.RemoteRowIsPermanent | packages/signer/src/replayLedger.ts:104-110 | a GRAM or Solana row never changes its key |
| ReleaseProtocol.RunKeepsInv | packages/signer/src/replayLedger.ts:86-127 | in every reachable state, any request admitted, every operator's ledger, its pending calls and the chain are in order |
| ReleaseProtocol.WellAskedSignsItsKeys | packages/signer/src/index.ts:242-247 | an operator asked in shape has signed only what its ledger recorded |
| ReleaseProtocol.LandedIsGenuine | packages/signer/src/keyedSigner.ts:134-155 | with fewer than T dishonest, whatever lands passed an honest operator's own checks |
| ReleaseProtocol.LaterQuorumBuriesEarlier | packages/coordinator/src/adapters.ts:98-124 | with honest operators asked in shape, once a body proposed later has a quorum, the earlier one has not landed and never will: the last id persisted before a send is the only one recovery has to look up |
| Acceptance.AcceptedIff | packages/signer/src/sourceValidator.ts:174-443 | a signer accepts an action if and only if it is one of six payments of an event on its own node, each written out: a mint, a sweep, a refund, a release, a return, or a Solana release |
| Acceptance.MintTextIsHashed | packages/common/src/canonical.ts:73-92 | the exact text under a peg-in's digest |
| Acceptance.BurnTextIsHashed | packages/common/src/canonical.ts:94-112 | the exact text under a peg-out's digest |
| SourceValidator.SpawnedChildrenAreAccepted | packages/dispatcher/src/policy.ts:80-114 | every sweep and refund the dispatcher spawns from a deposit's row is accepted by a signer that sees the deposit and shares the fees |
| SourceValidator.AcceptedSweepIsTheSpawnedChild | packages/signer/src/sourceValidator.ts:237-261 | a sweep is accepted if and only if it is the one the dispatcher spawns for a deposit on this node, to the id, recipient, amount, chain and digest |
| SourceValidator.AcceptedRefundIsTheSpawnedChild | packages/signer/src/sourceValidator.ts:271-301 | likewise for refunds, dust excluded |
| SourceValidator.OneChildPerDepositAndKind | packages/signer/src/sourceValidator.ts:174-216 | two accepted children of one kind for one deposit agree in everything but the direction they claim |
| SourceValidator.AcceptedPegInIsCanonical | packages/signer/src/sourceValidator.ts:356-388 | a peg-in is accepted if and only if it is the canonical action of a mintable deposit on this node |
| SourceValidator.PaddedIdIsRefused | packages/signer/src/sourceValidator.ts:356-388 | an id with a zero-padded index leads to the same deposit and is refused |
| SourceValidator.AcceptedTonPegOutIsCanonical | packages/signer/src/sourceValidator.ts:433-443 | a TON peg-out is accepted if and only if it is what the watcher derives from that burn |
| SourceValidator.ReturnOnlyWithoutDestination | packages/signer/src/sourceValidator.ts:314-354 | the return the dispatcher spawns for a burn is accepted if and only if its home account does not exist; its release is accepted either way, see the next row |
| SourceValidator.ReleaseAndReturnBothAcceptedIff | packages/signer/src/sourceValidator.ts:314-443 | one burn's release and return are both accepted if and only if its home account is missing and it exceeds the refund fee |
| SourceValidator.MintAndRefundBothAcceptedIff | packages/signer/src/sourceValidator.ts:271-388 | one deposit's mint and refund are both accepted if and only if it can be minted and exceeds the refund fee |
| KeyedSigner.ReleaseIsSignedIff | packages/signer/src/keyedSigner.ts:134-155 | for every action and proposal: signed if and only if the action is a PEG_OUT payout of an event on this node, and the transfer is out of its chain's account, to its recipient, of its amount as text, under its id |
| KeyedSigner.SignedIffCalledFor | packages/signer/src/keyedSigner.ts:134-155 | some action makes a signer sign a release if and only if a source event on its own node calls for exactly that payment |
| KeyedSigner.LandedIsCalledFor | packages/signer/src/keyedSigner.ts:134-155 | over every run, each landed release is one that a source event calls for |
| KeyedSigner.BurnIsPaidOnceAndExactly | packages/signer/src/keyedSigner.ts:134-155 | releases landed with a TON burn's own id as memo are one transfer, to the burn's home account and of the amount burnt |
| KeyedSigner.VizPaysBurnAtMostOnce | packages/common/src/adapters.ts:43-48 | over every run, what lands on VIZ under a burn's own id or its return's is one transfer, the burn's release; nothing lands under the return's |
| KeyedSigner.GramReturnIsApprovedIff | packages/signer/src/keyedSigner.ts:176-190 | for every action and order: approved if and only if it is a GRAM_RETURN told by the id of a sweep, a refund or a return on this node, to the action's recipient and for exactly its amount |
| KeyedSigner.ReturnIsApprovedIff | packages/signer/src/keyedSigner.ts:176-190 | a GRAM return is approved if and only if the burn exceeds the refund fee, its home account is missing on this node, and the order pays its sender exactly what is left of it |
| KeyedSigner.PaidOnBothSidesIff | packages/signer/src/sourceValidator.ts:314-354 | with `before` the accounts an approving node shows and `after` those of the release's block, some run with every request in shape both returns and releases a burn if and only if it exceeds the refund fee and its home account is missing before and there after |
| KeyedSigner.GramMintIsApprovedIff | packages/signer/src/keyedSigner.ts:157-173 | for every action and proposal: approved if and only if it mints a usable deposit for GRAM on this node, to its destination, at its gross less base fee and surcharge, which is positive |
| KeyedSigner.QuotedMintIsApprovedIff | packages/signer/src/keyedSigner.ts:157-173 | for a quoted deposit a GRAM mint is approved if and only if the deposit is for GRAM, at the quoted net and the deposit's destination |
| Canonical.CanonicalStringInjective | packages/common/src/canonical.ts:14-23 | different lists of fields have different encodings, whatever separators or digits the values hold |
| Canonical.TagsAreNeeded | packages/common/src/canonical.ts:14-23 | without the length tags two lists collide |
| Canonical.PegInIdInjective | packages/common/src/canonical.ts:73-92 | a peg-in id names one transaction and operation index |
| Canonical.PegInDigestBinds | packages/common/src/canonical.ts:73-92 | equal digests if and only if equal operation, chain, destination and gross amount |
| Canonical.PegOutDigestBinds | packages/common/src/canonical.ts:94-112 | equal digests if and only if equal source id, chain, recipient and amount |
| Canonical.PegInNeverPegOut | packages/common/src/canonical.ts:73-112 | a peg-in and a peg-out never share a digest |
| Fees.BaseIsLarger | packages/common/src/fees.ts:60-63 | the base fee is the least amount that is at least the floor and at least the percentage, rounded down |
| Fees.SignersAgreeWithQuote | packages/common/src/fees.ts:60-79 | base, activation and net make up the gross; signers with the policy sign the quoted net and no other; what they would sign beyond the quotes is under the mint-gas floor |
| Fees.NetMonotone | packages/common/src/fees.ts:60-63 | for bps up to 10000 neither the base fee nor the net falls as the deposit grows |
| Fees.AcceptanceUpwardClosed | packages/common/src/fees.ts:70-79 | a larger deposit than an accepted one is accepted, for no less |
| Fees.QuotedMinimumSuffices | packages/common/src/fees.ts:70-79 | the minimum named in a rejection is accepted if and only if there is a mint-gas floor and the base fee does not rise on the way to it |
| Fees.RejectedIsBelowQuotedMinimum | packages/common/src/fees.ts:70-79 | a rejected deposit lies below the named minimum, or at it when there is no mint-gas floor |
| VizAmount.WrittenIff | packages/viz-watcher/src/vizChain.ts:179-185 | an amount has one text: whole VIZ without a leading zero, a point, three digits of thousandths, and the unit |
| VizAmount.RoundTripExactly | packages/viz-watcher/src/vizChain.ts:171-185 | reading back a written amount gives it again if and only if it is non-negative or whole |
| VizAmount.ReadsDecimal | packages/viz-watcher/src/vizChain.ts:171-177 | how any decimal text reads: no whole part is zero, digits past the thousandths are dropped, missing ones are zeros |
| VizAmount.MilliToVizInjective | packages/viz-watcher/src/vizChain.ts:179-185 | different amounts are written differently, so comparing text compares amounts |
| VizAmount.NegativeFractionLosesSign | packages/viz-watcher/src/vizChain.ts:171-185 | a negative amount above minus one VIZ reads back positive |
| Outbox.OutboxStore.EnqueueRow | packages/common/src/store.ts:315-356 | an existing row is left as it is, a new one is added, and a digest clash pauses the gateway |
| Outbox.OutboxStore.SetRowStatus | packages/common/src/store.ts:363-389 | changes status and the patched columns of that row and nothing else |
| Outbox.OutboxStore.SetRowFee | packages/common/src/store.ts:391-395 | pins the fee of that row, and touches nothing else |
| Dispatcher.RunKeepsInv | packages/dispatcher/src/index.ts:73-242 | in every reachable state, with crashes of the dispatcher, a coordinator that writes on after them, and directives, each row and its children agree and the tick's snapshot is current |
| HeldRows.OnlyForItsDestination | packages/dispatcher/src/index.ts:137-185 | over every run, a held row leaves HELD, or gets a refund or a return, by no step but a directive, unless it is a peg-in held for INVALID_DESTINATION or a burn held for RETURN_INVALID_DEST, with a sender |
| HeldRows.HeldHeadIsDealtWith | packages/dispatcher/src/index.ts:137-185 | and those are: sent back less the fee and REFUNDING, or REFUNDED when the fee takes it all; any other is passed over |
| TickLaws.SuccessConfirms | packages/dispatcher/src/policy.ts:43-96 | what a broadcast writes to its row, and the sweep it spawns for a minted deposit |
| TickLaws.FailureRetries | packages/dispatcher/src/policy.ts:43-68 | what a failure writes that is to be tried again: a peg-in's within its window, any other's always |
| TickLaws.FailureGivesUp | packages/dispatcher/src/policy.ts:43-68 | what it writes to a peg-in past its window |
| TickLaws.GivenUpIsSentBack | packages/dispatcher/src/policy.ts:75-114 | and the refund that follows, or its closing as dust |
| TickLaws.ConfirmedBackClosesItsParent | packages/dispatcher/src/index.ts:214-232 | a confirmed refund or return goes on to close the row it came from, and no other success closes one |
| TickLaws.DeliversInTurn | packages/dispatcher/src/index.ts:188-195 | each picked row is marked in delivery before the coordinator is called, in turn |
| TickLaws.WatchersWrite | packages/common/src/seenRecovery.ts:36-52 | what watchers may write: a new row, a seen row queued or held with its reason, a noted burn, a row forgotten while only seen |
| TickLaws.StrandedAreRequeued | packages/dispatcher/src/index.ts:101-123 | a tick that starts undisturbed requeues, with an attempt more, exactly the rows in delivery for longer than the shorter timeout and no less than their own |
| TickLaws.DirectiveIsTakenIff | packages/coordinator/src/sourceHints.ts:150-185 | a mint directive applies between ticks, exactly to a deposit held, being sent back or sent back whose refund, if any, is neither confirmed nor has a txid |
| TickLaws.DirectiveQueuesAgain | packages/coordinator/src/sourceHints.ts:186-197 | it marks the refund failed and queues the deposit again, due at once, and changes nothing else |
| TickLaws.PicksWhatIsDue | packages/dispatcher/src/index.ts:137-190 | the held and the queued rows picked are exactly those whose time has come, oldest first |
| Dispatcher.MintXorRefund | packages/dispatcher/src/index.ts:194-232 | a confirmed peg-in has no refund but an abandoned one; sweeps exist only under confirmed peg-ins, returns only under burns never delivered |
| Dispatcher.RefundedNeverMints | packages/coordinator/src/sourceHints.ts:143-193 | once a refund is confirmed its peg-in is confirmed in no later state, directives included |
| Dispatcher.FinalStaysFinal | packages/dispatcher/src/index.ts:101-232 | a confirmed or failed row stays so |
| Dispatcher.RequeuedRowsCarryAttempts | packages/dispatcher/src/index.ts:116-123 | a queued row that was ever delivered has at least one attempt, so recovery looks on chain first |
| Dispatcher.NoOrphanChildren | packages/dispatcher/src/policy.ts:80-114 | every sweep, refund and return has its parent row, named by its id |
| Dispatcher.LateWriteIsSafeIff | packages/coordinator/src/adapters.ts:98-115 | a txid written late to any row once delivered keeps the whole machine's invariant and the row's end final if and only if the row has not ended, no refund of it is live, and the tick is not about to act on it |
| Settlement.RefundedMeansSentBack | packages/dispatcher/src/index.ts:214-232 | in every run a peg-in or burn is REFUNDED only if its own refund or return is confirmed, unless it is dust or has no sender |
| Settlement.RunSettles | packages/dispatcher/src/index.ts:137-232 | that, and the ticks in between, hold in every reachable state, crashes and directives included |
| Policy.ChildIdsInjective | packages/dispatcher/src/policy.ts:80-114 | a child id names its parent and its kind |
| Backing.Conservation | packages/dispatcher/src/policy.ts:75-114 | in every history of both remote chains, lost answers and late mints included, locked less circulating is on each the sum of what is left of its deposits and burns, and no burn is overpaid |
| Backing.DepositIsOverpaidIff | packages/dispatcher/src/policy.ts:43-78 | in every history a deposit is overpaid if and only if its mint and its refund have both landed and the refund exceeds the fee withheld |
| BackingLimits.OverpaidSomewhereIff | packages/dispatcher/src/policy.ts:43-78 | some history overpays a deposit of a given size on a given chain if and only if one is accepted for minting there and its refund is worth more than the base fee |
| Backing.NeverOverSwept | packages/common/src/store.ts:423-438 | the unswept fees of a chain are never negative, in any history and under any fee policies, though recovery may rebuild and overwrite the pinned fee |
| Backing.BackedButForSweepsInFlight | packages/recon/src/checker.ts:143-146 | on each chain, while no landed mint is on its way back and its pins keep up, locked plus the sweeps landed but not yet confirmed is at least circulating plus unswept fees |
| Backing.BackedButForOverpayment | packages/recon/src/checker.ts:143-146 | without the first proviso, the same once what deposits were overpaid is added |
| BackingLimits.AlwaysBackedIffPinsKeepUp | packages/coordinator/src/orchestrator.ts:75-82 | a chain's books are covered in every history whose mints land in time if and only if it has no surcharge, or the least deposit that can bear it bears a base fee |
| Turnover.BooksMoveByTurnover | packages/dispatcher/src/policy.ts:75-114 | between any two moments of a history a chain's gateway account moves by what was deposited less the releases, refunds and sweeps landed, and its circulation by what mints and returns issued less what was burnt |
| Backing.ConfirmedFeeIsPinned | packages/coordinator/src/orchestrator.ts:75-117 | a confirmed peg-in's pinned fee and the fee its mint withheld both cover the base, and while pins keep up the pin is at most what was withheld |
| Backing.EachDepositSettlesOneWay | packages/dispatcher/src/index.ts:196-232 | while no landed mint is on its way back, a deposit is minted or refunded on chain, never both, and swept only after its mint |
| Recon.Recon.Check | packages/recon/src/checker.ts:89-167 | indeterminate exactly when something could not be read; fails and pauses, never as stalled, exactly when a fee is under the sanity floor, unswept fees are negative, or supplies and unswept fees exceed the balance by more than the tolerance; else OK, and pauses nothing |
| Recon.BackedIffCovered | packages/recon/src/checker.ts:118-160 | read at one moment of any history, a check of a chain fails if and only if its account is short of circulation and unswept fees by more than the tolerance, its fees are over-swept, or some minted peg-in's fee is under the sanity floor |
| Recon.FailedCheckMeansOverpaid | packages/recon/src/checker.ts:118-160 | in any history of a gateway whose pins keep up, a check that fails with a tolerance for the sweeps in flight means that some deposit of the chain was overpaid |
| Recon.CirculatingIsTotal | packages/recon/src/checker.ts:143-146 | circulation is the total of the supplies |
| Recon.Recon.OnCheckResult | packages/recon/src/checker.ts:203-216 | counts indeterminate results, resets on any other, and pauses as stalled at the threshold |
| Recon.CounterIsTrailingRun | packages/recon/src/checker.ts:203-216 | the counter is the length of the trailing run of indeterminate checks |
| Recon.HonestHistoryIsBacked | packages/recon/src/checker.ts:89-160 | over honest histories, with balance, supply, books and fees each read at its own moment, a check of one chain comes out OK when the tolerance covers sweeps in flight and the skew: the larger of what was deposited and paid out plus the larger of what was issued and burnt while it read |
| Recon.PauseStore.Pause | packages/common/src/store.ts:575-578 | latches the pause and overwrites the reason |
| Recon.PauseStore.Unpause | packages/common/src/store.ts:579-582 | lifts the pause whatever its reason |
| Recon.AutoUnpause.OnTick | packages/recon/src/checker.ts:238-255 | one tick makes the step of the latch machine, and says whether it cleared |
| Recon.StreakIsTrailingRun | packages/recon/src/checker.ts:238-245 | the streak is the number of ticks since the last that was not all OK |
| Recon.ClearsOnlyStalledAfterOkRun | packages/recon/src/checker.ts:238-255 | a tick clears only after the required consecutive OK ticks and only when the last pause written was of the stalled class |
| Recon.ClearsIff | packages/recon/src/checker.ts:238-255 | and then it does: a tick clears if and only if it and enough ticks before it were all OK and the latch holds a stalled pause |
| Recon.OtherPausesStayLatched | packages/recon/src/checker.ts:219-228 | any other pause stays latched until an operator lifts it or a stalled pause overwrites it, unless written while a tick clears |
| Recon.OverwrittenOrLatePausesAreCleared | packages/common/src/store.ts:575-578 | both exceptions happen, however many ticks are required: an overwritten reason, and a write between the read and the clearing |
| BurnScan.PaginateBurnsByLt | packages/gram-watcher/src/gramChain.ts:276-327 | with pages of two or more a drained scan reports exactly the final burns above the cursor; at most the allowed fetches; undrained, every page was filled above the cursor |
| BurnScan.PaginateBurnsBySlot | packages/solana-watcher/src/solanaChain.ts:54-103 | the same for slots with pages of one or more |
| BurnScan.FinalBurnsAreTheFinalBurns | packages/gram-watcher/src/gramChain.ts:301-315 | a burn is reported if and only if an entry above the cursor carries it that is old enough at the cutoff and has not failed |
| BurnScan.EachBurnOncePerEntry | packages/gram-watcher/src/gramChain.ts:301-315 | and as often as such entries carry it |
| BurnScan.NewestFinalBelowUnfinished | packages/gram-watcher/src/gramChain.ts:308-311 | the new cursor is below every entry not yet final if and only if finality follows position |
| BurnScan.ReachInClosedForm | packages/gram-watcher/src/gramChain.ts:292-324 | how far so many pages reach, each but the first repeating its anchor |
| BurnScan.PageOfOneLosesBurns | packages/gram-watcher/src/gramChain.ts:292-324 | a wallet where the one transaction that a page size of one reaches misses a burn |
| BurnWatcher.CursorNeverPassesAnUnrecordedBurn | packages/gram-watcher/src/index.ts:80-146 | over every run neither cursor passes a burn that is not in the outbox |
| BurnWatcher.EveryRowIsOneFinalBurn | packages/gram-watcher/src/index.ts:93-105 | every row is one final burn of the history, and no burn has two |
| BurnWatcher.CursorAndOutboxOnlyGrow | packages/common/src/store.ts:567-570 | the stored cursor never moves back and no row changes |
| BurnWatcher.CompletedTickCommits | packages/gram-watcher/src/index.ts:90-133 | a tick that drains and gets through its burns brings both cursors to the newest final entry, and every final burn above the old cursor has its row |
| BurnWatcher.ColdStartKeepsTip | packages/gram-watcher/src/gramChain.ts:264-266 | a cold start leaves the newest transaction, and no other, for the first scan |
| VizScan.IrreversibleDepositsSince | packages/viz-watcher/src/vizChain.ts:263-309 | yields exactly the deposits of the blocks asked for, cut at 200 |
| ChainDeposits.ScannedIffMade | packages/viz-watcher/src/vizChain.ts:263-309 | a deposit is scanned if and only if a transfer in the window makes it: to a backing account, of its amount, from its sender, to what its memo names, in plain or decrypted, and valid exactly when that is an address of the account's chain |
| ChainDeposits.ReadIffMade | packages/viz-watcher/src/vizChain.ts:422-457 | a signer reads from an operation exactly the deposit it makes, and nothing from any other |
| ChainDeposits.MemoNames | packages/viz-watcher/src/memo.ts:28-42 | what a memo names: itself, or what it decrypts to less one leading '#', trimmed, or nothing without a key or when decrypting fails |
| VizScan.ScannedIffConfirmed | packages/viz-watcher/src/vizChain.ts:422-457 | a deposit is scanned if and only if a signer looking up its transaction in one of the blocks reconstructs it, field for field |
| VizScan.WindowIsScannedWhole | packages/viz-watcher/src/vizChain.ts:147-150 | a window advances, stays within the head, and is never cut short by the scan |
| VizScan.CompletedTickCommits | packages/viz-watcher/src/index.ts:80-164 | a tick that gets through its window records every deposit in it and commits both cursors up to 200 blocks on, or to the head |
| VizScan.BacklogIsDrained | packages/viz-watcher/src/vizChain.ts:147-150 | after k completed ticks under one head both cursors are k full strides on, or at the head |
| VizScan.EachBlockScannedOnce | packages/viz-watcher/src/index.ts:80-158 | what a process has committed is the deposits between its start and its cursor, each block once and in order |
| VizScan.CursorNeverPassesADeposit | packages/viz-watcher/src/index.ts:74-158 | over every run, with ticks cut short and restarts, neither cursor passes a block while a confirmable deposit in it has no row |
| VizScan.EveryRowIsOneDeposit | packages/viz-watcher/src/index.ts:84-158 | every row is one irreversible deposit, keyed by its operation, that signers would confirm |
| VizScan.CursorAndRowsOnlyGrow | packages/common/src/store.ts:567-570 | the stored cursor never moves back and no row changes |
| SlidingWindow.MemoryCaps.TryReserve | packages/common/src/store.ts:718-724 | grants exactly when the window total leaves room and records exactly what it grants |
| SlidingWindow.SqliteCaps.TryReserve | packages/common/src/store.ts:487-510 | answers as if nothing had been pruned, and holds the live rows plus what it granted |
| SlidingWindow.SqliteCaps.Sum | packages/common/src/store.ts:477-485 | the total of the closed window over the unpruned history, though it prunes first |
| SlidingWindow.EveryWindowStaysUnderCap | packages/common/src/caps.ts:59-65 | in every run the amounts accepted in any closed window, wherever it starts, total at most the cap |
| SlidingWindow.GrantedTotals | packages/common/src/store.ts:487-510 | the same, read off the pruned table's answers |
| SlidingWindow.AnswersAreExact | packages/common/src/store.ts:477-510 | in every run the pruned store grants a request if and only if it fits under the cap together with what was granted before it in the closed window ending now, and its sums are those totals |
| SlidingWindow.PrunedAgreesWithUnpruned | packages/common/src/store.ts:477-510 | the pruned and the unpruned store give the same answers to every sequence of calls |
| SlidingWindow.SqliteRates.TryReserve | packages/common/src/store.ts:512-525 | grants exactly when the sender's hits in the window are below the limit, pruned or not |
| SlidingWindow.MemoryRates.TryReserve | packages/common/src/store.ts:726-732 | the same answer, and keeps everything |
| SlidingWindow.PrunedRatesAgree | packages/common/src/store.ts:512-525 | the two rate limiters give the same answers to every sequence of requests |
| SlidingWindow.RateIsUnitCap | packages/common/src/store.ts:726-732 | one sender's rate limit is the cap window over weights of one, shifted by the open end |
| SlidingWindow.EverySenderStaysUnderRate | packages/common/src/store.ts:726-732 | no window open at its start lets through more than the limit for one sender |
| SlidingWindow.RateAllowsBothEnds | packages/common/src/store.ts:726-732 | a closed window may hold one more |
| Authority.SelectAuthoritySignatures | packages/viz-watcher/src/vizSign.ts:85-114 | the loop computes the selection that the next lemmas judge |
| Authority.LastEntryCounts | packages/viz-watcher/src/vizSign.ts:85-95 | a key weighs what the last entry naming it says |
| Authority.SelectionSucceedsIff | packages/viz-watcher/src/vizSign.ts:85-114 | it succeeds if and only if the distinct authorised keys recoverable from all signatures reach the threshold, and else reports their weight |
| Authority.SelectionIsMinimal | packages/viz-watcher/src/vizSign.ts:85-114 | the chosen signatures recover to distinct authorised keys that reach the threshold, and not without the last |
| Authority.OrderAndRepetitionDoNotMatter | packages/viz-watcher/src/vizSign.ts:85-114 | collections of the same signatures succeed alike, in any order and with any repetitions |
| Authority.DispensableIffWithinOvershoot | packages/viz-watcher/src/vizSign.ts:63-84 | a chosen signature is dispensable if and only if its weight is within the overshoot |
| Authority.EqualWeightsSelectMinimally | packages/viz-watcher/src/vizSign.ts:63-84 | with equal weights none is |
| Authority.WeightOneSelectsThreshold | packages/common/src/rotation.ts:58-70 | with weight one exactly threshold signatures are chosen |
| Authority.UnequalWeightsMayOvershoot | packages/viz-watcher/src/vizSign.ts:63-84 | weights one and two, threshold two: the first chosen is not needed |
| Approvals.ApprovalSet.Add | packages/common/src/threshold.ts:20-30 | one approval per known operator and action; anything else changes nothing |
| Approvals.CollectApprovals | packages/coordinator/src/orchestrator.ts:118-139 | met if and only if enough distinct known operators approve this action; asking stops there, with exactly threshold approvals, one per operator |
| MultisigOrder.PackOrder | contracts/ton/src/wrappers/Multisig.ts:162-176 | fails exactly above 255 actions and otherwise keeps them under keys in order |
| MultisigOrder.PackLarge | contracts/ton/src/wrappers/Multisig.ts:113-161 | fails exactly on the empty list, runs ceil(n/254) rounds, and builds from the tail what splitting from the head describes |
| MultisigOrder.PackedDoesTheSame | contracts/ton/src/wrappers/Multisig.ts:113-161 | executing the chained orders carries out the original actions in order |
| MultisigOrder.PackedIsAChain | contracts/ton/src/wrappers/Multisig.ts:113-161 | the result is a chain of ceil(n/254) orders, each but the last full, its 255th entry executing the next one, and at most 254 entries in the last |
| MultisigOrder.PackedInjective | contracts/ton/src/wrappers/Multisig.ts:113-161 | lists with no chaining of their own pack alike if and only if they are equal |
| Rotation.ParseInvertsSerializeIff | packages/common/src/rotation.ts:20-50 | parsing inverts serializing if and only if every operator is well-formed |
| Rotation.ParsedIsWellFormed | packages/common/src/rotation.ts:20-40 | whatever is parsed is well-formed |
| Rotation.ReparsedIsTheSame | packages/common/src/rotation.ts:20-50 | a parsed list written out again reads the same |
| Proposals.HashIgnoresOrderIff | packages/common/src/rotation.ts:73-80 | authorities of distinct keys hash alike if and only if threshold and entries agree, in any order |
| Proposals.BuiltAuthority | packages/common/src/rotation.ts:58-70 | the authority depends on the set of keys alone and holds each once, ascending |
| Proposals.BuiltAuthoritySelectsThreshold | packages/common/src/rotation.ts:58-70 | a release signed under a built authority carries exactly threshold signatures |
| Proposals.AcceptedIffHandsOver | packages/common/src/rotation.ts:176-211 | a proposal is accepted if and only if it is of version 1, for this chain, unexpired, and its one operation gives the account, as active and as regular authority, to the keys of its distinct operators, ascending, at weight one each and its threshold, and changes nothing else that signs |
| Proposals.BuiltHandsOver | packages/common/src/rotation.ts:83-162 | a proposal is built if and only if the threshold is within the number of distinct operators, and its one operation does just that |
| Proposals.BuiltIsAcceptedIffUnexpired | packages/common/src/rotation.ts:145-162 | every built proposal is accepted until it expires, whatever partials it has gathered |
| Proposals.PartialsAccumulate | packages/common/src/rotation.ts:214-217 | partials accumulate as a set, without repeats, and change nothing else |
| Proposals.PartialsInAnyOrder | packages/common/src/rotation.ts:214-217 | their order and repetition do not matter |
| Proposals.PartialsAreIdempotent | packages/common/src/rotation.ts:214-217 | adding them again changes nothing |

## Left out

- HTTP, RPC transport, endpoint failover, timeouts and alerts: reads are parameters or facts of the modelled chain.
- Signature schemes, sha256, key stores, Graphene and TON cell serialization: injective by assumption.
- The contracts on GRAM and Solana and the operators' on-chain approvals: an order executes at most once, entries in key order, a chained order after the entries before it.
- SQL and its locking: each statement or transaction is one step on a map or sequence.
- `deriveFloorMilliViz` and configuration parsing: the fee policy is given.
- The signer registry: which signers the coordinator asks affects delivery, not what an honest signer signs; collection is modelled from their answers on.
- The per-transaction and review limits around the 24h window: comparisons with constants that hold a row back or let it go.
- `recoverStaleSeen`: one of the watcher moves in `Dispatcher`, its alerts aside.
- The web site, deployment scripts and command-line tools.
- Liveness: half-approved orders racing the window, a redirected parent whose refund is abandoned, and operators whose claim windows are staggered.
- Reorganisations: nodes serve irreversible prefixes, and remote finality is the scans' cutoff.
- `parseInt` on an operation index beyond 2^53, and characters beyond one byte in the length tags: numbers are exact, and a character is a byte.
- Malformed amounts in chain operations: `VizScan` reads amounts with a total function; the block number carried as a hint is not part of a deposit.
- A VIZ chain younger than the extra confirmations, where the watcher's cursor could return to its cold-start value: heads are positive in `VizScan`.
- A store failure while the reconciler reads the smallest fee, which throws past the counter.
- Gateway pauses seen by watchers and signers: they only skip work.
- Solana's two-account transfer parsing, the account pins of its mint approval, and its own mint recovery: validation takes the parsed transfer as given.
- VIZ's admission of transfers beyond what is listed under "What is assumed".
- ReleaseProtocol.AtMostOneReleaseLands: needs honest operators to be asked in shape; the exact condition is `ReleaseLimits.AtMostOneLandsIff`.
- KeyedSigner.VizPaysBurnAtMostOnce: likewise, and burns on TON only, whose senders are addresses of 48 characters.
- BurnWatcher.CursorNeverPassesAnUnrecordedBurn: states it from the last cold start on, as nothing earlier is scanned by design.
- VizScan.CursorNeverPassesADeposit: likewise from the last cold start on.
