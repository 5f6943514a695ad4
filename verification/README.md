# Provenance: exchange settlements, message fees and the vesting conversion, in Dafny

This project models five parts of the Provenance blockchain and proves what they promise, for all inputs and all runs.
`dafny verify dfyconfig.toml` checks all of it.

1. **Commitment settlements** (`x/exchange/commitments.go`). Inputs and outputs of many accounts, in many denoms, are
   turned into transfers that each have one input or one output, by draining a first-in-first-out queue per denom. The
   queues are pictured as lines of single units, each owned by an account: every transfer takes the next stretch of each
   line. From this follow when a settlement is accepted, that each transfer is balanced, that each account gives and
   receives exactly its amounts, how many pieces there can be, and that making the transfers one after the other at the
   bank refines settling everything at once.
   Files: `AccountAmounts`, `DenomQueues`, `DenomSource`, `Transfers`, `Ledgers`, `Bank`, `CommitmentSettlement`.
2. **Message fees** (`internal/antewrapper`, `internal/handlers`, `x/msgfees`). A transaction pays a base fee first, is
   charged for each message as it is routed, and has the rest of its fee swept at the end, with recipients paid from it. The
   meter's fields are tied to the full history of charges; over that history the run keeps the fee sufficient, and the
   three phases settle every balance exactly. Whatever the handlers charge on their own, and whichever of them fail, the
   exact condition for a run and for a funded transaction to go through is given; unless a handler charges fees of its
   own, it comes down to the base fee step, the mempool's check, the fee grant, and that no message fails.
   Files: `FeeKeys`, `FeeMeter`, `MsgFees`, `FeePayout`, `FeeFlow`.
3. **The vesting conversion** (`app/upgrades.go`, `app/upgrade_data.go`). Accounts are walked, split into a vesting and a
   kept part, filtered, and converted all-or-nothing, with running totals; a whole run, with any filters, is described
   as a function of the accounts there were. Amounts are printed and parsed as decimal text.
   Files: `HashStrings`, `UnlockedTable`, `Vesting`, `VestingConversion`, `VestingRun`.
4. **Genesis validation and rounding** (`x/exchange/genesis.go`, `x/exchange/helpers.go`). Files: `Genesis`, `Rounding`.
5. **Order matching** (`x/exchange/fulfillment.go`). How assets and prices are divided between asks and bids, including
   the exact division of what bids pay beyond the ask prices. File: `Fulfillment`.

`SdkCoins`, `Sums` and `CoinMaps` hold the shared vocabulary. A coin set is a finite map from denom to a non-zero amount, so
equal amounts mean equal coin sets. Denoms and accounts are names that can only be compared.

## How the model relates to the program

- Loops over Go maps and over coin sets take the keys in *any* order; the sorted orders the program sometimes uses are
  among them. All results hold for every order.
- Objects that the program updates (`denomSourceMap`, `FeeGasMeter`, `MsgFeesDistribution`, `acctInfo`, `acctConverter`,
  the order fulfillments, and the balances and grant of a transaction) are classes with methods that state their
  whole new state. Error returns are `None` or `false`; so are panics.
- Taken as inputs, because the code is elsewhere: whether a fee grant accepts an amount, which accounts exist, which strings
  are addresses, what a message handler does to balances (anything), which fees it charges (any) and whether it fails, the outcome
  of cancelling exchange holds, the locked amount afterwards, whether a vesting account can be created, the parser of
  integer text, and the validity of single genesis elements. The bank refuses a send exactly if the coins are not valid
  or the sender does not have them. The floor price does not change within a transaction, and the gas
  meter's limit is the transaction's gas.
- A message fails after its fees are charged if its own validation, the circuit breaker or its handler refuses it. Messages
  that a handler routes itself are part of the handler: what they charge is among its fees, and if one of them is refused
  the handler fails.
- In genesis validation, a payment whose own validation passes has a source without a space: it is a Bech32 address
  (the "Bech32" section of BIP-173).

Where the code and its comments disagree, the model follows the code:

- `SplitCoinByBips` is described as giving the recipient everything at 100 bips; the code does so at 10,000.
- `EnsureSufficientFloorAndMsgFees` is described as being for CheckTx only; it is also called for every routed message.
- `toHashString` is described as multiplying by 10^9; it divides.

Things the proofs bring out:

- `buildPrimaryTransfers` checks that the totals agree only if neither side has exactly one entry. With one entry on a side it
  returns the single transfer, balanced or not.
- A composite fee key can be split again if and only if neither part contains the delimiter.
- While messages run, a transaction whose messages cost nothing is never checked against the base fee; the final sweep is
  what rejects it. So a run can pass every step's check and the transaction still fails (`FeeFlow.RunWithoutBaseFee`).
- The checks at the messages never stop a transaction that the final sweep would let through (`FeeFlow.SweepDecides`).
- Fees that a handler charges with `ConsumeMsgFee` are not checked when charged; the final sweep still
  fails, for a payer with the means, exactly if base fee and all charges exceed the fee.
- In the second pass of `allocatePrice`, the step to the next bid after a partial take
  (`x/exchange/fulfillment.go:629-632`) is never taken, and the panic about missing bids (`x/exchange/fulfillment.go:593-598`) never happens. The loop goes through the asks at most twice.

## Model

| member | source | states |
|---|---|---|
| AccountAmounts.SumAccountAmounts | x/exchange/commitments.go:62-68 | the result holds, for each denom, the total over all entries |
| AccountAmounts.SimplifyAccountAmounts | x/exchange/commitments.go:71-92 | for every list, the two loops give one entry per account that comes up, in the order in which the accounts first come up, each account with the same amount of every denom as before |
| AccountAmounts.SimplifiedAccounts | x/exchange/commitments.go:71-92 | the accounts of the result are distinct and in order of first occurrence, and there are no more of them than entries |
| AccountAmounts.SimplifiedInOrder | x/exchange/commitments.go:80-90 | an account stands before another in the result only if it comes up, somewhere in the list, before the other has |
| AccountAmounts.SimplifiedOf | x/exchange/commitments.go:71-92 | every account has the same amount of every denom before and after |
| AccountAmounts.SimplifiedTotal | x/exchange/commitments.go:71-92 | the grand total of every denom is kept |
| AccountAmounts.SimplifiedOfDistinct | x/exchange/commitments.go:71-92 | a list whose accounts are already distinct comes back unchanged |
| AccountAmounts.SimplifiedIdempotent | x/exchange/commitments.go:242-279 | simplifying again changes nothing, so the second calls on the splits have no effect |
| AccountAmounts.SimplifiedValid | x/exchange/commitments.go:71-92 | positive amounts stay positive |
| AccountAmounts.SimplifiedNoneEmpty | x/exchange/commitments.go:71-92 | if every entry has an amount, so has every entry of the result |
| DenomQueues.TakeIsPrefix | x/exchange/commitments.go:200-230 | drawing n takes exactly the first n units of the queue's line and leaves exactly the units behind them |
| DenomQueues.TakeTotals | x/exchange/commitments.go:200-230 | pieces and rest add up to the queue, both stay positive, and nothing is short exactly if 0 <= n <= the queue's total |
| DenomQueues.TakeConserves | x/exchange/commitments.go:200-230 | what is taken of an account and what is left of it add up to what it had |
| DenomQueues.TakeCount | x/exchange/commitments.go:203-220 | a draw makes at most one more entry in all: every pass but the last drains an entry |
| DenomSource.DenomSourceMap.constructor | x/exchange/commitments.go:177-185 | the queue of each denom lists the entries that have some of it, in order (`Transfers.LineIsFifo` says which end is the front), and the number of queue entries is the number of coins |
| DenomSource.DenomSourceMap.Join | x/exchange/commitments.go:180-182 | each coin of an entry joins the end of its denom's queue; the other queues stay |
| DenomSource.QueueOfAccount | x/exchange/commitments.go:177-185 | an account's amount in the queue of a denom is its amount over the entries |
| DenomSource.QueueOfTotal | x/exchange/commitments.go:177-185 | the queue of a denom totals what the entries have of it |
| DenomSource.DenomSourceMap.Sum | x/exchange/commitments.go:188-196 | the result holds the total of each denom's queue |
| DenomSource.DenomSourceMap.UseCoin | x/exchange/commitments.go:200-230 | succeeds if and only if the amount is not negative and the queue has it; takes the draw's pieces, leaves its rest (no empty queue stays), and touches no other denom |
| DenomSource.DenomSourceMap.UseCoins | x/exchange/commitments.go:233-243 | succeeds if and only if every denom has enough; the pieces have distinct accounts, total the coins, and each denom's queue loses exactly its draw; pieces and remaining entries are at most the old entries plus the coins |
| DenomSource.DrawnTotal | x/exchange/commitments.go:233-243 | what is drawn for a coin set totals that coin set in every denom |
| Transfers.LineIsFifo | x/exchange/commitments.go:181-210 | first in, first out: with the units of a denom in the order in which they are drawn, those of entry i are exactly the ones from the total of the entries before it to the total including it |
| Transfers.BuildPrimaryTransfers | x/exchange/commitments.go:246-291 | with exactly one entry on a side, the one transfer; otherwise accepts if and only if all totals agree, whichever side is split; transfer k then carries main entry k alone on its side and, on the other, of every account and denom exactly the overlap of its amounts with those of main entry k when both sides are laid end to end; at most as many pieces as there are coins on both sides; always takes exactly the inputs and gives exactly the outputs; with equal totals each transfer is balanced and has a single input or output, and none has an empty entry or side unless inputs or outputs had one |
| Transfers.ServeEach | x/exchange/commitments.go:264-290 | the loop succeeds if and only if the totals of both sides agree, and then serves each main entry in turn |
| Transfers.SidesExhaust | x/exchange/commitments.go:266-283 | with equal totals, the stretches cut for the main entries add up to exactly what every split account had |
| Transfers.ServingRealises | x/exchange/commitments.go:256-290 | with equal totals, transfers that serve in turn move every account's exact amounts, whichever side is split |
| Transfers.ServingInOrder | x/exchange/commitments.go:264-283 | serving from the queues is dividing by overlap: what an account gives or gets in transfer k is what of its amounts lies opposite main entry k |
| Transfers.ServingFills | x/exchange/commitments.go:266-283 | if every main entry has an amount, every transfer has inputs and outputs and all of them have an amount |
| CommitmentSettlement.BuildFeesTransfer | x/exchange/commitments.go:294-306 | no transfer exactly if there are no fees; otherwise a balanced transfer of all the fees to the market alone, with no empty amount unless a fee was empty |
| CommitmentSettlement.BuildCommitmentTransfers | x/exchange/commitments.go:154-165 | accepts exactly as the primary transfers do; returns the primary transfers, in order, and then, if there are fees, the one transfer of all the fees to the market; what it accepts, balanced or not, takes exactly inputs and fees and gives exactly outputs and, to the market, the fee total; with equal totals it always succeeds with proper transfers, none with an empty entry unless one was given |
| Bank.MadeBal | x/exchange/keeper/keeper.go:201-233 | after any run of transfers that was not refused, every balance changed by exactly what the account received less what it gave |
| Bank.FundedNeverRefused | x/exchange/keeper/keeper.go:201-233 | if every account starts with all it has to give, no transfer of the run is refused, in whatever order money comes in |
| CommitmentSettlement.TransfersRefineSettlement | x/exchange/commitments.go:150-165 | refinement: on any ledger, making the transfers in order, if not refused, leaves every balance as settling inputs, outputs and fees all at once; for funded accounts and equal totals it is never refused |
| CommitmentSettlement.FeesFromProceeds | x/exchange/commitments.go:160-162 | because the fees come last, nothing is refused as soon as every account has its inputs and its fees are within what it has after inputs and outputs |
| FeeKeys.SplitUndoesGet | x/msgfees/types/keys.go:39-54 | splitting a composite key gives its parts back if and only if neither contains the delimiter |
| FeeKeys.KeysAreDistinct | x/msgfees/types/keys.go:39-44 | different pairs of delimiter-free parts never share a key |
| FeeMeter.FeeGasMeter.constructor | internal/antewrapper/fee_gas_meter.go:39-50 | a new meter records the empty history and no base fee |
| FeeMeter.FeeGasMeter.ConsumeFee | internal/antewrapper/fee_gas_meter.go:115-124 | appends one charge to the history, with fees, totals, call counts and recipients still exactly those of the history |
| FeeMeter.FeeGasMeter.FeeConsumed | internal/antewrapper/fee_gas_meter.go:131-137 | the sum of all charges ever made, in every denom |
| FeeMeter.FeeGasMeter.FeeConsumedDistributions | internal/antewrapper/fee_gas_meter.go:140-147 | totals the charges; if no key is ambiguous, each recipient has exactly what was charged for it |
| FeeMeter.FeeGasMeter.FeeConsumedByMsg | internal/antewrapper/fee_gas_meter.go:150-156 | totals the charges, and has under each key exactly what was charged under it |
| FeeMeter.FeeGasMeter.ConsumeBaseFee | internal/antewrapper/fee_gas_meter.go:162-165 | replaces the base fee and leaves the record of charges alone |
| FeeMeter.RecordNext | internal/antewrapper/fee_gas_meter.go:115-124 | one more charge keeps fees, call counts, keys and recipients in step with the history |
| MsgFees.SplitCoinByBips | x/msgfees/types/fee.go:15-35 | fails exactly for more than 10,000 bips or, below 10,000, a negative amount or one beyond 64 bits; otherwise the parts add up and the recipient's is the bips' part rounded down |
| MsgFees.Distribution.Increase | x/msgfees/types/fee.go:49-73 | fails exactly if a positive due cannot be split (the total has then grown already); otherwise adds the due to total, module and recipient |
| MsgFees.CollectedSound | x/msgfees/types/fee.go:49-73 | over any dues, the total is the sum of the positive dues and is shared completely between module and recipients |
| MsgFees.CollectedShares | x/msgfees/types/fee.go:49-73 | a recipient collects, over any dues, exactly the rounded-down shares of the dues that name it |
| MsgFees.DuesMean | x/msgfees/keeper/keeper.go:197-235 | the fees of messages can be calculated if and only if each scheduled fee can be split, and each assessment is in dollars or the conversion denom, has proper bips and can be split |
| MsgFees.CollectedCosts | x/msgfees/keeper/keeper.go:181-235 | what is collected is, in every denom, the sum over the messages of the fee scheduled for the type and the assessed amount, dollar mils times their price; and each recipient has of each its bips' part rounded down |
| MsgFees.Distribution.IncreaseAll | x/msgfees/keeper/keeper.go:202-231 | succeeds exactly if all dues can be split, and has then collected all of them |
| MsgFees.CalculateAdditionalFees | x/msgfees/keeper/keeper.go:197-235 | succeeds if and only if the fees of every message can be calculated; the total and each recipient's part are then what schedule and messages say (`CostOf`, `ShareIn`), and module and recipients share all of it |
| FeeFlow.EnsureSufficientFloorAndMsgFees | internal/antewrapper/msg_fees_decorator.go:92-121 | passes if and only if the fee covers floor price times gas plus the additional fees in every denom |
| FeeFlow.CheckTx | internal/antewrapper/msg_fees_decorator.go:50-78 | passes if and only if simulating, or the fees of all messages can be calculated and floor price times gas plus what the messages cost is within the fee in every denom |
| FeeFlow.CheckTxPredictsRun | internal/antewrapper/msg_fees_decorator.go:59-75 | CheckTx passes if and only if the dues of all messages can be borne in a run and the fee covers the base fee |
| FeeFlow.RunWithoutBaseFee | internal/handlers/msg_service_router.go:264-272 | a transaction without messages and without a fee passes every check of its run and not CheckTx |
| FeeFlow.TxContext.GetFeePayerUsingFeeGrant | internal/antewrapper/provenance_fee.go:159-184 | a granter other than the payer pays, and its grant to the payer is used for exactly the given fee, if grants are enabled and it is accepted; otherwise the payer pays and no grant is used |
| FeeFlow.TxContext.CheckDeductBaseFee | internal/antewrapper/provenance_fee.go:76-157 | succeeds exactly if collector, fees, grant, account and funds are in order; moves exactly the base fee and records it, or changes neither ledger nor meter |
| FeeFlow.AdmissibleMeans | internal/antewrapper/provenance_fee.go:76-157 | from the inputs alone, what the base fee step lets through: collector set, fees calculable, the account that pays exists and has what the messages cost and floor price times gas, and a granter other than the payer accepts |
| FeeFlow.TxContext.PayBaseFee | internal/antewrapper/provenance_fee.go:95-143 | once the fees are known: the exact condition for going on, and the exact change of ledger, meter and grant |
| FeeFlow.TxContext.TakeBaseFee | internal/antewrapper/provenance_fee.go:133-143 | the base fee goes from payer to collector and on the meter, or nothing changes |
| FeeFlow.TxContext.HasFunds | internal/antewrapper/provenance_fee.go:105-128 | true exactly if the payer's balance covers the required funds in every denom |
| FeeFlow.TxContext.ConsumeMsgFees | internal/handlers/msg_service_router.go:239-286 | fails exactly if the fees are unknown or the fee does not cover them on top of the base fee and all charged before, leaving the meter unchanged; otherwise charges exactly the message's dues under its type, and the fee still covers everything |
| FeeFlow.TxContext.ChargeAll | internal/handlers/msg_service_router.go:274-282 | charges exactly the module's and each recipient's fees, in any order, all under the message's type |
| FeeFlow.TxContext.ChargeUnchecked | internal/antewrapper/fee_gas_meter.go:178-191 | charges exactly the fees that are not zero, in order, without any check |
| FeeFlow.TxContext.Route | internal/handlers/msg_service_router.go:158-203 | a message succeeds if and only if it can be charged and does not fail afterwards; it then has charged exactly its dues under its type and the handler's own fees |
| FeeFlow.TxContext.RunMessages | internal/handlers/msg_service_router.go:158-203 | for any handlers and any earlier charges: the run succeeds if and only if every message, when its turn comes, costs nothing or has base fee, dues so far and all unchecked fees so far within the fee, and none fails; it has then charged exactly all dues and all unchecked fees, and for each recipient exactly its shares in the dues and the unchecked fees for it; without unchecked fees, the fee covers everything charged after every step that charged |
| FeeFlow.StepDecides | internal/handlers/msg_service_router.go:259-272 | after any messages before it, a message's own check passes if and only if base fee, earlier charges, dues and unchecked fees are within the fee or it costs nothing |
| FeeFlow.StepPayableMeans | internal/handlers/msg_service_router.go:259-272 | from the inputs alone, when a message can be charged: it costs nothing, or floor price times gas, earlier charges, the cost of the messages up to it and the unchecked fees before it are within the fee |
| FeeFlow.CheckedRun | internal/handlers/msg_service_router.go:239-286 | unless a handler charges on its own, a run goes through if and only if the dues of all its messages can be borne together and no message fails |
| FeeFlow.SweepDecides | internal/handlers/msg_fee_invoker.go:64-94 | the checks at the messages are implied by the final one: what decides is the base fee step, the sum of all dues and unchecked fees, the grant, and that no message fails |
| FeeFlow.DeliverableMeans | internal/handlers/msg_fee_invoker.go:64-94 | from the inputs alone, when a transaction is deliverable: admitted, floor price times gas, earlier charges, cost of all messages and all unchecked fees within the fee, no message failing, and the grant, if one is used, taking the rest |
| FeeFlow.CheckTxDecides | internal/antewrapper/msg_fees_decorator.go:50-78 | unless a handler charges on its own, what decides is the base fee step, CheckTx, the grant, and that no message fails |
| FeeFlow.TxContext.SendCoins | x/msgfees/keeper/keeper.go:147-161 | refused exactly for coins that are not valid or not there; otherwise moves exactly the coins |
| FeeFlow.TxContext.DeductFeesDistributions | x/msgfees/keeper/keeper.go:140-177 | on success the payer gave exactly what remained, each recipient has its distribution, the collector the rest, and nothing was created or lost; never succeeds if the distributions exceed what remains; a funded payer is refused only for that or for a bad distribution |
| FeeFlow.TxContext.SweepRest | x/msgfees/keeper/keeper.go:164-174 | the rest goes to the collector; fails for a funded payer only if more was sent than remained |
| FeeFlow.TxContext.Sweep | internal/handlers/msg_fee_invoker.go:83-94 | distributes exactly the recorded fees; with known recipients and funds, succeeds if and only if they are within the uncharged amount |
| FeeFlow.TxContext.BaseFeeEvent | internal/handlers/msg_fee_invoker.go:99-106 | the base fee reported is the fee less everything charged and at least the base fee taken; the subtraction cannot go negative |
| FeeFlow.TxContext.Invoke | internal/handlers/msg_fee_invoker.go:37-119 | succeeds only if base fee and charges are within the fee, and a payer with the means fails only for that; then base fee and the amount swept make up exactly the fee, and the grant is used for exactly the amount swept |
| FeeFlow.PhasesSettle | internal/handlers/msg_fee_invoker.go:64-101 | base fee, any messages and sweep together: the payer paid exactly the fee, each recipient got exactly its charges, the collector the rest |
| FeeFlow.TxContext.DeliverTx | internal/handlers/msg_fee_invoker.go:37-119 | over whole transactions, whatever the handlers do: on success, with a granter other than the payer the granter has paid exactly the fee and its grant to the payer was used for exactly the fee, and otherwise the payer has paid and no grant was used; every recipient has exactly what was charged for it and the collector the rest; what was charged, in all and for each recipient, is what schedule, messages and unchecked fees say; a transaction succeeds only if it is deliverable (`DeliverableMeans`), and with a funded payer and addresses for recipients it then does succeed |
| HashStrings.AddCommas | app/upgrades.go:875-889 | the loop from the left gives groups of three from the right; short strings and strings with a comma or point are left alone |
| HashStrings.InsertedIsGrouped | app/upgrades.go:881-887 | inserting a comma at every third position from the end is grouping from the right |
| HashStrings.CommasUndone | app/upgrades.go:875-889 | removing commas undoes adding them, for every string |
| HashStrings.CommasIdempotent | app/upgrades.go:875-889 | adding commas twice is adding them once |
| HashStrings.CommasLength | app/upgrades.go:875-889 | n digits become n + (n-1)/3 characters |
| HashStrings.ToHashString | app/upgrades.go:862-871 | the text ends in a point and nine digits; before it, counted from the point, every fourth character is a comma and the others are digits, with no leading zero but a single one |
| HashStrings.CommaPlaces | app/upgrades.go:881-887 | in grouped digits, counted from the end, exactly every fourth character is a comma |
| HashStrings.HashToNhash | app/upgrade_data.go:3859-3868 | panics exactly if more than nine characters follow the first point |
| HashStrings.HashToNhashDenotes | app/upgrade_data.go:3859-3868 | a whole part and up to nine fraction digits convert to exactly that many billionths |
| HashStrings.WholeHashDenotes | app/upgrade_data.go:3861-3863 | a whole number converts to that many billions |
| HashStrings.HashRoundTrip | app/upgrades.go:862-871 | printing any amount, removing the commas and converting back denotes the same amount |
| UnlockedTable.GetPredeterminedUnlocked | app/upgrade_data.go:3823-3854 | panics exactly if an address repeats or an amount is not a positive number; otherwise the table holds exactly 100,000 hash for the addresses of the first list and the given amounts for those of the second, all positive |
| UnlockedTable.AddCustom | app/upgrade_data.go:3835-3851 | the second loop reports no error exactly if neither list has a repeat and every amount is good |
| Vesting.SplitAddsUp | app/upgrades.go:359-383 | for any amount to vest within the total: vest and keep make up the total, delegated vesting and free make up the delegated amount, and what vests undelegated is in the balance |
| Vesting.KeepOrVest | app/upgrades.go:359-371 | giving the amount to keep or the complementary amount to vest reaches the same state |
| Vesting.KeptIsCeiling | app/upgrades.go:421-422 | what is kept of any amount is its forty-eighth, rounded up |
| Vesting.AcctInfo.constructor | app/upgrades.go:343-355 | a new account info has no amounts and is neither converted nor skipped |
| Vesting.AcctInfo.UpdateWithToVest | app/upgrades.go:359-363 | the new amounts are those of the split with that much vesting |
| Vesting.AcctInfo.UpdateWithToKeep | app/upgrades.go:367-371 | the new amounts are those of vesting all but that much |
| Vesting.AcctInfo.SetDelVestFree | app/upgrades.go:375-383 | delegated funds count as vesting first; the other amounts stay |
| Vesting.TestnetAcctFilter | app/upgrades.go:470-510 | keeps, in order, exactly the first entry of each listed address; appends the others, in order, to the old ignore list |
| Vesting.TestnetKeepsOnce | app/upgrades.go:491-501 | only listed addresses are kept, each at most once |
| Vesting.MainnetAcctFilter | app/upgrades.go:514-578 | keeps or ignores each account by its minimum, in order, appending only to the old ignore list, and splits accounts with a minimum again above it |
| Vesting.MainnetStep | app/upgrades.go:539-565 | one account: the new amounts and the decision, the same however often it is filtered |
| Vesting.MainnetKeepsMinimum | app/upgrades.go:548-562 | an account kept with a minimum keeps at least that unlocked, vests at least 5,000,000, and its amounts add up |
| Vesting.PickedPartition | app/upgrades.go:470-578 | the kept and the ignored accounts together are exactly all accounts, each once |
| Vesting.PickedInOrder | app/upgrades.go:470-578 | kept and ignored accounts each come in the order in which they were there |
| VestingConversion.Consider | app/upgrades.go:407-460 | one account of the walk: its amounts (after a failed lookup, the balance and whatever the lookup returned), and whether it is convertible |
| VestingConversion.GetAcctsToConvert | app/upgrades.go:392-467 | each account goes to exactly one list, in order: base accounts with something to vest that are neither IBC nor contract accounts are converted, the others ignored |
| VestingConversion.CandidateAddsUp | app/upgrades.go:414-422 | the amounts of any account whose delegations are known add up, and it keeps a forty-eighth, rounded up |
| VestingConversion.ConvertibleMeans | app/upgrades.go:407-460 | an account is convertible if and only if its delegations are known, it is a base account with at least two nhash in all, and it is neither an IBC account nor a contract |
| VestingConversion.BooksBalance | app/upgrades.go:719-736 | over any lists: balances and delegated amounts are those of all accounts, delegated splits into vesting and free, and delegated vesting is within vesting |
| VestingConversion.AcctConverter.New | app/upgrades.go:690-715 | the new books count the ignored accounts as skipped, and no account as converted or skipped |
| VestingConversion.AcctConverter.RecordIgnored | app/upgrades.go:708-710 | the totals become those of the ignored accounts |
| VestingConversion.AcctConverter.RecordConverted | app/upgrades.go:719-727 | the account joins the converted ones and its amounts the totals |
| VestingConversion.AcctConverter.RecordSkipped | app/upgrades.go:731-736 | the account joins the skipped ones; all it has delegated counts as free |
| VestingConversion.AcctConverter.TryConvert | app/upgrades.go:753-784 | all or nothing: on any failure the store is as it was; otherwise it has the effects of cancelling holds and a vesting account whose original amount is the amount to vest, with the delegated amounts and times given |
| VestingConversion.AcctConverter.Convert | app/upgrades.go:740-784 | the books stay those of the three lists, attempted is converted plus skipped, and a failed account is skipped with the store unchanged |
| VestingConversion.ConvertAll | app/upgrades.go:308-312 | every account is converted or skipped, in order, exactly as its conversion succeeds or fails; totals, stored accounts and exchange state are those of the successes |
| VestingConversion.OthersStoredAsBefore | app/upgrades.go:740-784 | an account that was not converted is stored as before |
| VestingConversion.ConvertedIsStored | app/upgrades.go:762-778 | a converted account is stored as its own vesting account |
| VestingConversion.RunBooksBalance | app/upgrades.go:690-784 | whichever conversions succeed, the final totals are those of all accounts and consistent |
| VestingRun.ApplyFilter | app/upgrades.go:302-304 | a filter keeps exactly what it decides to keep, in order and with the amounts it gives, and appends the rest to the ignored accounts |
| VestingRun.SelectionKeepsAccounts | app/upgrades.go:301-304 | walk and any filters lose no account and count none twice: each address is in exactly one list, and balances and delegations add up to all there are |
| VestingRun.SelectionIsReady | app/upgrades.go:301-304 | every account to be converted has amounts that add up and something to vest |
| VestingRun.MainnetSelection | app/upgrades.go:514-578 | with the mainnet filter, an account is to be converted, with given amounts, if and only if it is convertible and has no minimum or enough beyond it, and the amounts are those of the split above the minimum |
| VestingRun.TestnetSelection | app/upgrades.go:470-510 | with the testnet filter, an account is to be converted if and only if it is convertible and listed |
| VestingRun.SelectAccts | app/upgrades.go:301-304 | walk and filters give exactly the selection: both lists, in order, with their amounts |
| VestingRun.SelectedKeepsMinimum | app/upgrades.go:514-578 | a selected account with a minimum keeps at least that unlocked and vests at least 5,000,000 |
| VestingRun.StoredExactly | app/upgrades.go:740-784 | an account is stored as the vesting account for its amounts if it was selected and its conversion succeeds, and as before otherwise |
| VestingRun.FoundStoredRight | app/upgrades.go:766-778 | for every account found, from the account and the filter alone: it is converted if and only if it is chosen and nothing goes wrong; its original vesting amount is then its total less its minimum less a forty-eighth of that, rounded up; delegated vesting is the smaller of the delegated and the original amount, delegated free the rest; otherwise it is stored as before |
| VestingRun.BooksMatchStore | app/upgrades.go:719-778 | the totals for vesting and for delegated vesting are the sums of what the converted accounts have stored |
| VestingRun.ConvertAcctsToVesting | app/upgrades.go:298-317 | the whole conversion with any filters: ignored, converted and skipped accounts are exactly the selection, sorted by outcome; stored accounts and exchange are exactly those of the successes; with either filter and distinct addresses, every account found is stored as `FoundStoredRight` says and every other as before; totals are those of every account, each counted once, delegated splits exactly, and vesting and delegated vesting are the sums of what is stored |
| Genesis.KeyIsInjective | x/exchange/genesis.go:85 | sources without a space make the joined key tell (source, external id) pairs apart |
| Genesis.CheckMarkets | x/exchange/genesis.go:22-39 | no error exactly if all markets are valid with distinct non-zero ids; the known ids are then all of them |
| Genesis.CheckOrders | x/exchange/genesis.go:41-66 | no error exactly if all orders are valid, in known markets, with distinct non-zero ids; the maximum is then the largest id |
| Genesis.CheckCommitments | x/exchange/genesis.go:75-81 | no error exactly if all commitments are valid and in known markets |
| Genesis.CheckPayments | x/exchange/genesis.go:83-96 | no error exactly if all payments are valid and no (source, external id) pair repeats |
| Genesis.Validate | x/exchange/genesis.go:13-99 | no error if and only if all five sections are good together, the last order id being at least every order's |
| Rounding.QuoRemInt | x/exchange/helpers.go:96-102 | for all signs, a = quo*b + rem with a remainder smaller than b and of the sign of a |
| Rounding.QuoIntRoundUp | x/exchange/helpers.go:106-116 | for all signs, the magnitude is the ceiling of the quotient of the magnitudes and the sign is the quotient's |
| Rounding.CeilingUnique | x/exchange/helpers.go:106-116 | there is only one such ceiling |
| Rounding.Contains | x/exchange/helpers.go:12-19 | true exactly if some element equals the one sought |
| Rounding.Intersection | x/exchange/helpers.go:22-30 | only elements of the first list that the second has, in the order of the first list, no two equal, and, for a reflexive equality, none missing |
| Fulfillment.Pool.constructor | x/exchange/fulfillment.go:192-209 | nothing is filled and all is left |
| Fulfillment.Pool.Distribute | x/exchange/fulfillment.go:307-354 | the amount is recorded on both sides, and filled, left and distributions stay consistent |
| Fulfillment.Pool.Match | x/exchange/fulfillment.go:486-496 | as much as both orders have left goes between them, and one of them has nothing left |
| Fulfillment.Pool.AllocateAssets | x/exchange/fulfillment.go:457-496 | both sides are filled first come, first served, by the same sum; laid end to end, each distribution lies within the ask and within the bid it is between; fails only at an order without a positive amount, otherwise one side is filled completely |
| Fulfillment.SidesAgree | x/exchange/fulfillment.go:307-354 | what the asks get in all, what the bids give in all and what is distributed in all are the same |
| Fulfillment.SharesWithin | x/exchange/fulfillment.go:600-609 | the truncated shares by assets never exceed the leftover |
| Fulfillment.RestIsSmall | x/exchange/fulfillment.go:600-608 | truncation leaves less than one unit per ask to hand out again |
| Fulfillment.TwoPassesDo | x/exchange/fulfillment.go:584-590 | nothing is left once every ask has had its second turn, so the asks are gone through at most twice |
| Fulfillment.LeftoverIsFair | x/exchange/fulfillment.go:572-634 | the parts add up to the whole surplus; each is at least the truncated share and at most that share again, or one unit, more |
| Fulfillment.LeftoverInOrder | x/exchange/fulfillment.go:584-628 | no ask gets anything on top of its share before all asks ahead of it have got all they can |
| Fulfillment.Pool.GiveAskPrices | x/exchange/fulfillment.go:546-563 | never runs out of bids; every ask gets exactly its price, taken from the bids first come, first served |
| Fulfillment.Pool.GivePrice | x/exchange/fulfillment.go:549-561 | one ask gets exactly what it has left to get, from the bids in order, and the bids do not run out |
| Fulfillment.Pool.GiveTo | x/exchange/fulfillment.go:611-633 | one ask gets exactly the amount, from the bids in order |
| Fulfillment.Pool.GiveLeftovers | x/exchange/fulfillment.go:572-634 | the loop ends and does not panic; all that the bids had left is given out, and every ask gets exactly its truncated share plus, in order while anything is left, at most that share again (or one unit if it has none) |
| Fulfillment.Pool.AllocatePrice | x/exchange/fulfillment.go:536-637 | fails if and only if the asks want more than the bids offer; otherwise every bid pays exactly its price, every ask gets exactly its price and its part of the surplus, and all that is paid is received; laid end to end, each distribution lies within the bid it comes from and within the price, the share or the extra of the ask it goes to |

## Left out

- Events, logging, telemetry and gas tracing, the meter's `EventFeeSummary` among them: they do not influence the amounts. The base-fee figure of the final event is modelled.
- The chain-id special cases for tests: the model is of a chain with a real id.
- The rest of the ante handler: the check that the gas is not zero, signatures, the zero-length transaction bytes case of `Invoke`, and the calls of the router without a fee meter (governance), which charge nothing.
- What baseapp does after a failure: it discards the writes of the failed phase; the model says what the phases themselves do.
- Quarantine, blocked addresses, locked and held funds in the bank: the bank is a ledger that refuses what is not valid or not covered.
- Integer widths: amounts are unbounded, as `sdkmath.Int` is up to 256 bits; call counters and ids do not wrap. The 64-bit limit in `SplitCoinByBips` is modelled.
- The fee schedule's administration (`AddMsgFee`, `UpdateMsgFee`, `RemoveMsgFee`, `DetermineBips`, the hashed store keys): these write and validate the entries of the schedule between transactions; the model takes the schedule as an input, so its results hold for every schedule they can produce.
- The internals of `cancelExchangeHolds`: abstracted to an outcome that may fail, or leave any state of the exchange and change nothing else.
- `identifyIBCAccounts`, contract lookups and `addMonths`: their results are inputs. The walk itself does not fail.
- That total balances are at least total vesting: not claimed, because balances do not include delegated funds.
- Negative amounts in `toHashString`: only non-negative amounts have a meaning there.
- The address tables of `app/upgrade_data.go` and the testnet list: constant data, taken as parameters.
- Order settlement around `allocateAssets` and `allocatePrice` (`validateCanSettle`, splitting of partial orders, fees, building of transfers and events). `Fulfillment` keeps orders as positions with amounts, not as objects with owners.
- Fulfillment.Pool.AllocatePrice: is stated for at least one ask and for positive prices and assets, which is what `BuildSettlement` has checked or made so by then.
- `denomSourceMap` keeps pointers to its entries; the model keeps the entries by value, which is the same because no other reference to them exists.
- Other modules, the staking restriction hooks (limits computed in floating point), gRPC and protobuf plumbing, wiring and commands.
