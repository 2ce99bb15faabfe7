# Verification of the repository's contracts

A model in Dafny 4.11 of four programs of the repository, and proofs of what they promise. `dafny verify dfyconfig.toml`
checks everything.

**Lending market** (Morpho Blue). A class with the contract's storage and its external functions, statement by
statement, proved equal to functions on storage (`MorphoSpec`). A call carries the nested calls that its callback makes,
so a run is a finite tree of calls; a transfer that an open callback still owes is a pending *pull*. A revert is an error
value and leaves the storage as it was; every checked addition, subtraction, multiplication, cast and division is one.
The main results hold at every point of every such tree, points inside callbacks included, whether or not the enclosing
call reverts later: solvency in every token, share totals, collateral behind every debt, healthy accounts that stay
healthy, a supply share price that never falls without bad debt, and bad debt that cannot arise from a price drop of
the documented size. Beside them stand the exact answers: when each call is let through, which amounts it converts
to, which position, market and balances it changes and by how much, interest and fee shares included.

**Binary Canonical Serialization** (`LineraTypes.sol`). Every struct, union, option and sequence type is a schema over
one universe of values; one encoder and one decoder at an offset are given for all schemas, the decoder also over bytes
that lie in memory behind the input. The loops of the library (length digits, integers, bytes, sequences) are methods
proved equal to them. Results: round trips at any offset with the exact set of values for which they hold, prefix
freedom, independence of the result from the unchecked loads, and the exact bytes of every request and stream update.

**Fungible token** (Linera application). Per-chain state and contract as classes, and a network of chains with messages
under way in any order. Results over all runs of operations, deliveries and rejections: conservation, authority for
every decrease of a balance, a bound on what spenders take, the undoing of bounced transfers, and where tokens go: what
each operation and message moves, and an account of every credit sent.

**Social streams** (Linera application). Contract as a class, streams as logs, subscribers that read them in any
interleaving and batching. Results over all runs: chains that have read the same parts of the streams hold the same
posts, these tell exactly what the streams say, and the streams say exactly what was done: every post, like and comment
made is announced once, but for those under way or lost. The storage key's byte order is the documented order.

## Assumptions

- Tokens are ERC-20 ledgers like the repository's test token (EIP-20, section "Methods"), and neither tokens, oracles
  nor rate models call back into the lending contract. Its own address is not a caller, and no one sets its test-token
  balance. These are the assumptions that `IMorpho.sol` lists at lines 104-117.
- Block time, oracle price and rate are inputs of each call, and may differ from call to call.
- In Linera, a call that panics is not part of any block; a rejected tracked message comes back once, and a message that
  comes back and is rejected again is gone; the runtime's permission check compares with one authenticated identity,
  which messages forward; a chain is offered each subscribed stream from its first event on, in order and without gaps.
- The social contract's release profile sets no overflow checks, so the word that counts likes wraps around.

## Model

| member | source | states |
|---|---|---|
| MathLib.DownGreatest | test_evm_smart_contracts/morpho_test_code/src/libraries/MathLib.sol:27-29 | The rounded-down quotient is the greatest number whose product with the divisor stays within x*y |
| MathLib.UpLeast | test_evm_smart_contracts/morpho_test_code/src/libraries/MathLib.sol:32-34 | The rounded-up quotient is the least number whose product with the divisor reaches x*y |
| MathLib.TaylorIsTheUncheckedValue | test_evm_smart_contracts/morpho_test_code/src/libraries/MathLib.sol:38-44 | Where no checked operation overflows, the growth factor is the value on unbounded numbers, and it is zero only for a zero rate or time |
| MathLib.TaylorMonotone | test_evm_smart_contracts/morpho_test_code/src/libraries/MathLib.sol:36-44 | A higher rate or longer time never gives a smaller growth factor |
| MathLib.TaylorSuperadditive | test_evm_smart_contracts/morpho_test_code/src/libraries/MathLib.sol:36-44 | Growth over m+n seconds at once is at least the sum of the growths over m and over n seconds |
| MathLib.TaylorUpperBound | test_evm_smart_contracts/morpho_test_code/src/libraries/MathLib.sol:36-44 | The factor never exceeds f + f^2/2W + f^3/6W^2 |
| MathLib.TaylorLowerBound | test_evm_smart_contracts/morpho_test_code/src/libraries/MathLib.sol:36-44 | ... and falls short of it by less than 2 + f/3W |
| SharesMathLib.WorthMonotone | test_evm_smart_contracts/morpho_test_code/src/libraries/SharesMathLib.sol:32-34 | At a share price that is no lower, at least as many shares are worth at least as much |
| SharesMathLib.OwedMonotone | test_evm_smart_contracts/morpho_test_code/src/libraries/SharesMathLib.sol:42-44 | At a share price that is no higher, at most as many shares owe at most as much |
| SharesMathLib.OwedPositive | test_evm_smart_contracts/morpho_test_code/src/libraries/SharesMathLib.sol:42-44 | Rounded up, exactly a debt of zero shares owes nothing |
| SharesMathLib.ShareOfTotal | test_evm_smart_contracts/morpho_test_code/src/libraries/SharesMathLib.sol:32-44 | Shares within the total are worth at most the total assets and owe at most one more |
| SharesMathLib.BurnKeepsOwed | test_evm_smart_contracts/morpho_test_code/src/Morpho.sol:283-288 | When repaying floors the total at zero the debt price may rise, but the rounded-up debt of the shares that remain does not |
| SharesMathLib.MintedRedeemForNearly | test_evm_smart_contracts/morpho_test_code/src/libraries/SharesMathLib.sol:22-34 | Shares minted for an inflow redeem for all of it but less than one asset and what the rounding of the shares took |
| SharesMathLib.BorrowedCostNearly | test_evm_smart_contracts/morpho_test_code/src/libraries/SharesMathLib.sol:37-44 | Debt shares minted for an outflow cost less than one asset more than it and what the rounding of the shares added |
| UtilsLib.ExactlyOneZero | test_evm_smart_contracts/morpho_test_code/src/libraries/UtilsLib.sol:13-17 | The exclusive or of two zero flags is true exactly if one of the inputs is zero |
| UtilsLib.Min | test_evm_smart_contracts/morpho_test_code/src/libraries/UtilsLib.sol:20-24 | The exclusive-or formula yields the smaller word |
| UtilsLib.ZeroFloorSub | test_evm_smart_contracts/morpho_test_code/src/libraries/UtilsLib.sol:33-37 | The product of a comparison and a wrapping subtraction is the difference, or zero where that would be negative |
| Erc20.MoveFacts | test_evm_smart_contracts/morpho_test_code/src/mocks/ERC20Mock.sol:27-36 | A transfer takes exactly the amount from one account to the other and nothing from a third, self-transfers included, and the balances still add up to the total supply |
| Erc20.MoveSucceeds | test_evm_smart_contracts/morpho_test_code/src/mocks/ERC20Mock.sol:27-32 | With balances that add up to the supply, a transfer fails exactly for lack of balance |
| Erc20.TransferFromFacts | test_evm_smart_contracts/morpho_test_code/src/mocks/ERC20Mock.sol:38-51 | Spends exactly the amount of exactly one allowance, and moves balances like a transfer |
| Erc20.SetBalanceFacts | test_evm_smart_contracts/morpho_test_code/src/mocks/ERC20Mock.sol:12-17 | Keeps the supply equal to the sum of balances; fails exactly if the new supply does not fit |
| Erc20.ERC20Mock.Transfer | test_evm_smart_contracts/morpho_test_code/src/mocks/ERC20Mock.sol:27-36 | The statements compute the specified ledger, or revert and change nothing |
| Erc20.ERC20Mock.TransferFrom | test_evm_smart_contracts/morpho_test_code/src/mocks/ERC20Mock.sol:38-51 | The statements compute the specified ledger, or revert and change nothing |
| Erc20.ApproveFacts | test_evm_smart_contracts/morpho_test_code/src/mocks/ERC20Mock.sol:19-25 | An approval replaces exactly one allowance and changes nothing else |
| MarketFacts.HealthCheck | test_evm_smart_contracts/morpho_test_code/src/Morpho.sol:526-537 | The checked comparison decides the health condition on unbounded numbers, debt rounded up and collateral rounded down |
| MarketFacts.HealthyIsCovered | test_evm_smart_contracts/morpho_test_code/src/Morpho.sol:514-537 | A position that passes the check has collateral if it owes shares |
| MarketFacts.AccrueFacts | test_evm_smart_contracts/morpho_test_code/src/Morpho.sol:482-508 | Accrual adds the same interest to both sides, so liquidity and borrow-below-supply stay; what is minted goes to the recipient and the total alike, and fee and time are kept |
| MarketFacts.FeeSubtractionNeverUnderflows | test_evm_smart_contracts/morpho_test_code/src/Morpho.sol:494-498 | With a fee within its limit, the fee never exceeds the grown supply |
| MarketFacts.AccrueKeepsPrice | test_evm_smart_contracts/morpho_test_code/src/Morpho.sol:482-508 | The supply share price does not fall in an accrual, fee-share minting included |
| MarketFacts.AccrueWithinAYear | test_evm_smart_contracts/morpho_test_code/src/mocks/IrmMock.sol:12-20 | With the test rate model, an accrual over at most 365 days adds at most 5/3 of the borrowed assets |
| MarketFacts.SupplyFacts | test_evm_smart_contracts/morpho_test_code/src/Morpho.sol:183-188 | Totals and position move by the same exact amounts: the amount given, and the other one at the totals before, shares rounded down and assets up; the share price does not fall |
| MarketFacts.WithdrawFacts | test_evm_smart_contracts/morpho_test_code/src/Morpho.sol:216-223 | Likewise for withdrawals, shares rounded up and assets down; borrowed assets stay within supplied ones |
| MarketFacts.BorrowFacts | test_evm_smart_contracts/morpho_test_code/src/Morpho.sol:251-259 | Likewise for loans, shares rounded up and assets down; the borrower ends healthy and collateralised, and nobody else's rounded-up debt rises |
| MarketFacts.RepayFacts | test_evm_smart_contracts/morpho_test_code/src/Morpho.sol:283-290 | Likewise for repayments, shares rounded down and assets up; the repaid assets exceed the market's borrowed assets by at most one |
| MarketFacts.WithdrawCollateralFacts | test_evm_smart_contracts/morpho_test_code/src/Morpho.sol:335-337 | Takes exactly the amount and leaves the position healthy and collateralised |
| MarketFacts.IncentiveFactorBounds | test_evm_smart_contracts/morpho_test_code/src/Morpho.sol:365-369 | For every lltv below one, the incentive factor lies in [1, 1.15] and lltv times it stays below one |
| MarketFacts.LiquidationExchangeBound | test_evm_smart_contracts/morpho_test_code/src/Morpho.sol:371-381 | On both input paths and after all roundings, seized * price * WAD <= repaid * LIF * ORACLE_PRICE_SCALE |
| MarketFacts.SeizeFacts | test_evm_smart_contracts/morpho_test_code/src/Morpho.sol:360-387 | What a seizure takes from position and totals; repaid assets exceed borrowed assets by at most one; only unhealthy positions are seized |
| MarketFacts.RealizeBadDebtFacts | test_evm_smart_contracts/morpho_test_code/src/Morpho.sol:391-402 | Where no collateral is left, the bad debt is the smaller of the borrowed assets and the rounded-up debt of the remaining shares; taking it off never underflows, clears the debt, and raises nobody else's |
| MarketFacts.LiquidateFacts | test_evm_smart_contracts/morpho_test_code/src/Morpho.sol:360-404 | The exact totals and position: the repayment, and the bad debt of the shares left on the totals after it, which is at most what they owed before; no debt is left without collateral |
| MarketFacts.LiquidateFailsOnlyInTheSeizure | test_evm_smart_contracts/morpho_test_code/src/Morpho.sol:389-402 | A liquidation goes through exactly if its seizure does |
| MarketFacts.NoBadDebtAfterAllowedDrop | test_evm_smart_contracts/morpho_test_code/src/Morpho.sol:360-402 | A position healthy at price p and liquidated at p' with p' * WAD^2 >= p * LLTV * LIF leaves no bad debt, whichever amount is given |
| MarketFacts.AccrualExactly | test_evm_smart_contracts/morpho_test_code/src/Morpho.sol:482-508 | Interest on both sides is zero without elapsed time or rate model, else exactly the compounded rate on the borrowed assets; the recipient and the total gain exactly the shares that the fee part buys at the price without it, and none without a fee |
| MarketFacts.HealthQuotes | test_evm_smart_contracts/morpho_test_code/src/Morpho.sol:526-537 | The check answers exactly if its quotes fit, and then exactly whether the health condition holds |
| MarketFacts.LiquidationAmountsExactly | test_evm_smart_contracts/morpho_test_code/src/Morpho.sol:371-381 | The amount not given is exactly that of the respective path, and is computed exactly if every product fits |
| MarketAnswers.SupplyAnswer | test_evm_smart_contracts/morpho_test_code/src/Morpho.sol:183-188 | For assets the minted shares are the greatest n with n * (supply assets + 1) <= assets * (supply shares + virtual shares); for shares the assets are the least that reach them |
| MarketAnswers.WithdrawAnswer | test_evm_smart_contracts/morpho_test_code/src/Morpho.sol:216-223 | For assets the burnt shares are the least n with assets * (supply shares + virtual shares) <= n * (supply assets + 1); for shares the assets are the greatest they cover |
| MarketAnswers.BorrowAnswer | test_evm_smart_contracts/morpho_test_code/src/Morpho.sol:251-259 | For assets the debt shares are the least that cover them at the borrow totals; for shares the assets are the greatest they cover |
| MarketAnswers.RepayAnswer | test_evm_smart_contracts/morpho_test_code/src/Morpho.sol:283-290 | For assets the burnt debt shares are the greatest they buy at the borrow totals; for shares the assets are the least that reach them |
| MarketAnswers.SupplySucceeds | test_evm_smart_contracts/morpho_test_code/src/Morpho.sol:183-188 | The update of a supply goes through exactly if conversion, shares and totals fit into their words |
| MarketAnswers.WithdrawSucceeds | test_evm_smart_contracts/morpho_test_code/src/Morpho.sol:216-223 | The update of a withdrawal goes through exactly if the conversion fits, the shares are there, and the assets are not lent out |
| MarketAnswers.RedeemingSucceeds | test_evm_smart_contracts/morpho_test_code/src/Morpho.sol:216-223 | Given in shares: exactly if the user has them and their worth is not lent out |
| MarketAnswers.BorrowSucceeds | test_evm_smart_contracts/morpho_test_code/src/Morpho.sol:251-259 | The update of a loan goes through exactly if the numbers fit, the assets are not lent out, and the health check passes on the new totals |
| MarketAnswers.RepaySucceeds | test_evm_smart_contracts/morpho_test_code/src/Morpho.sol:283-290 | The update of a repayment goes through exactly if the conversion fits and the shares are owed |
| MarketAnswers.SupplyCollateralAnswer | test_evm_smart_contracts/morpho_test_code/src/Morpho.sol:312-312 | Adds exactly the amount to the collateral, and succeeds exactly if the sum fits into 128 bits |
| MarketAnswers.WithdrawCollateralSucceeds | test_evm_smart_contracts/morpho_test_code/src/Morpho.sol:335-337 | Goes through exactly if the collateral is there and what remains passes the health check |
| MarketAnswers.HealthDecided | test_evm_smart_contracts/morpho_test_code/src/Morpho.sol:514-520 | A position passes exactly if it owes nothing, or the oracle answers and the health condition holds of quotes that fit |
| MarketAnswers.IncentiveFactorExactly | test_evm_smart_contracts/morpho_test_code/src/Morpho.sol:365-369 | The incentive factor is the greatest n with n <= 1.15 and n * (1 - 0.3 * (1 - lltv)) <= 1 in fixed point, the inner product rounded down |
| MarketAnswers.SeizedIsTheMost | test_evm_smart_contracts/morpho_test_code/src/Morpho.sol:371-381 | The two input paths fit exactly: the collateral seized for some shares is the greatest amount whose repayment they cover, after all six roundings |
| MarketAnswers.LiquidationSucceeds | test_evm_smart_contracts/morpho_test_code/src/Morpho.sol:360-402 | With any oracle price a liquidation goes through exactly if the position is unhealthy at it and the amounts fit and are within debt and collateral; realizing bad debt never stands in the way |
| MarketAnswers.LiquidationMovesExactly | test_evm_smart_contracts/morpho_test_code/src/Morpho.sol:360-402 | A liquidation takes exactly the seized collateral and the repaid shares; with the last collateral gone also the shares left, and their debt, at most what they owed before, off both sides |
| MarketAnswers.AccrueSucceeds | test_evm_smart_contracts/morpho_test_code/src/Morpho.sol:482-508 | An accrual goes through exactly if time has not run backwards and, where interest is due, the rate model answers and growth, interest and fee shares fit |
| MarketAnswers.FeeSharesAreWorthTheFee | test_evm_smart_contracts/morpho_test_code/src/Morpho.sol:491-501 | The minted fee shares are worth at most the fee, and less than it by less than one asset and one share |
| MarketAnswers.BorrowRateExactly | test_evm_smart_contracts/morpho_test_code/src/mocks/IrmMock.sol:12-20 | The test rate is the greatest n with n * 365 days * supplied <= borrowed * WAD, and zero for an empty market |
| MorphoContract.Deploy | test_evm_smart_contracts/morpho_test_code/src/Morpho.sol:75-82 | A deployment reverts exactly for a zero owner, and otherwise starts from the initial storage |
| MorphoContract.Morpho.Execute | test_evm_smart_contracts/morpho_test_code/src/Morpho.sol:169-463 | Any external call with its nested calls equals the specified function of storage; a revert leaves the storage as it was |
| MorphoContract.Morpho.RunCallback | test_evm_smart_contracts/morpho_test_code/src/Morpho.sol:191-193 | The calls made inside a callback run on the storage that the enclosing call left |
| MorphoContract.Morpho.Supply | test_evm_smart_contracts/morpho_test_code/src/Morpho.sol:169-197 | The statements compute the specified storage and returned amounts or revert with the specified error; tokens are pulled after the callback |
| MorphoContract.Morpho.Withdraw | test_evm_smart_contracts/morpho_test_code/src/Morpho.sol:200-230 | The statements compute the specified storage and returned amounts or revert with the specified error; tokens are pushed last |
| MorphoContract.Morpho.Borrow | test_evm_smart_contracts/morpho_test_code/src/Morpho.sol:235-266 | The statements compute the specified storage and returned amounts or revert with the specified error; health and liquidity are checked before the push |
| MorphoContract.Morpho.Repay | test_evm_smart_contracts/morpho_test_code/src/Morpho.sol:269-298 | The statements compute the specified storage and returned amounts or revert with the specified error; tokens are pulled after the callback |
| MorphoContract.Morpho.Liquidate | test_evm_smart_contracts/morpho_test_code/src/Morpho.sol:347-416 | The statements compute the specified storage and returned amounts or revert with the specified error; collateral leaves before the callback, the repayment is pulled after it |
| MorphoContract.Morpho.FlashLoan | test_evm_smart_contracts/morpho_test_code/src/Morpho.sol:421-431 | The statements compute the specified storage and returned amounts or revert with the specified error; push, callback, pull |
| MorphoContract.Morpho.AccrueInterestInternal | test_evm_smart_contracts/morpho_test_code/src/Morpho.sol:482-508 | The statements compute the specified storage and returned amounts or revert with the specified error; the chain of checked updates is the specified accrual |
| MorphoInvariant.GenesisInv | test_evm_smart_contracts/morpho_test_code/src/Morpho.sol:75-82 | The invariant holds after deployment |
| MorphoInvariant.EnterKeeps | test_evm_smart_contracts/morpho_test_code/src/Morpho.sol:169-463 | Whatever the call, at the start of its callback the invariant holds with its own pull pending |
| MorphoInvariant.SettleKeeps | test_evm_smart_contracts/morpho_test_code/src/Morpho.sol:191-195 | When the pull is made the invariant holds without it |
| MorphoInvariant.TokenKeeps | test_evm_smart_contracts/morpho_test_code/src/mocks/ERC20Mock.sol:12-51 | Token calls by others keep the invariant: the contract has approved no one |
| MorphoInvariant.SharesWithinTotals | test_evm_smart_contracts/morpho_test_code/src/Morpho.sol:186-187 | A user's shares never exceed the market's totals |
| MorphoRuns.RunKeeps | test_evm_smart_contracts/morpho_test_code/src/Morpho.sol:169-431 | Induction over call trees: a property that every admissible step keeps holds at every point, nested ones included, and at the end |
| MorphoRuns.InvariantAtEveryPoint | test_evm_smart_contracts/morpho_test_code/src/Morpho.sol:113-508 | At every point of every run from deployment: user shares sum to the market totals, borrowed <= supplied, fee <= MAX_FEE, created markets have lltv < WAD, debts have collateral, and solvency |
| MorphoRuns.SolvencyAtEveryPoint | test_evm_smart_contracts/morpho_test_code/src/Morpho.sol:169-431 | For every token, at every point of every nested run, the balance plus what open callbacks still owe covers all unborrowed supplies and all collateral |
| MorphoRuns.SolvencyAtTopLevel | test_evm_smart_contracts/morpho_test_code/src/Morpho.sol:169-431 | At top level the balance alone covers them |
| MorphoRuns.CollateralisedAtEveryPoint | test_evm_smart_contracts/morpho_test_code/src/Morpho.sol:254-258 | At every point of every run an account that owes shares has collateral |
| MorphoRuns.HealthyStaysHealthy | test_evm_smart_contracts/morpho_test_code/src/Morpho.sol:514-537 | While price and time stand, no call by anyone, nested or not, makes a healthy account unhealthy at any point |
| MorphoRuns.RunKeepsUntil | test_evm_smart_contracts/morpho_test_code/src/Morpho.sol:169-431 | Likewise up to a point: what admissible steps keep holds at every point, nested ones included, that only admissible calls precede |
| MorphoTheorems.SharePriceNeverFalls | test_evm_smart_contracts/morpho_test_code/src/Morpho.sol:183-404 | At every point of a run without bad debt in a market its supply share price is at least what it was |
| MorphoTheorems.OthersCannotHarm | test_evm_smart_contracts/morpho_test_code/src/Morpho.sol:466-468 | Without acting or having a delegate, a user loses no shares, owes no more shares, and loses collateral to liquidation only |
| MorphoTheorems.PassiveAccountsAreSafe | test_evm_smart_contracts/morpho_test_code/src/Morpho.sol:466-468 | ... at every point of any run of others' calls |
| MorphoTheorems.PassiveHealthyAccountsKeepCollateral | test_evm_smart_contracts/morpho_test_code/src/Morpho.sol:363-363 | ... and a healthy one keeps its collateral while price and time stand |
| MorphoTheorems.DebtsOfOthersNeverRise | test_evm_smart_contracts/morpho_test_code/src/Morpho.sol:283-288 | Within a block the rounded-up debt of an account that does not act never rises, floors at zero and bad debt included |
| MorphoTheorems.PassiveSuppliersKeepTheirValue | test_evm_smart_contracts/morpho_test_code/src/Morpho.sol:216-221 | What an untouched supplier can redeem never drops over a run without bad debt in the market |
| MorphoTheorems.SupplierClaimsFit | test_evm_smart_contracts/morpho_test_code/src/libraries/SharesMathLib.sol:32-34 | The redeemable amounts of all suppliers, each rounded down, sum to at most the supplied assets |
| MorphoTheorems.AllowedDropLeavesNoBadDebt | test_evm_smart_contracts/morpho_test_code/src/interfaces/IMorpho.sol:104-117 | From an account healthy at one price, over any run within the block at that price and one within the documented bound, in any order and with any other calls, the first liquidation of the account at the new price, nested or not, realizes no bad debt and takes nothing from suppliers |
| MorphoTheorems.CallKeepsSharePrice | test_evm_smart_contracts/morpho_test_code/src/Morpho.sol:183-404 | For every call: with the bad debt it realizes in the market added back to the assets, the supply share price is at least what it was |
| MorphoExits.SupplyThenWithdraw | test_evm_smart_contracts/morpho_test_code/src/Morpho.sol:183-216 | Supplying and then withdrawing the minted shares in the same block returns at most what was paid in, and at least that less one asset (given in shares) or less one asset and the price of one share (given in assets) |
| MorphoExits.BorrowThenRepay | test_evm_smart_contracts/morpho_test_code/src/Morpho.sol:251-284 | Borrowing and then repaying those shares in the same block costs at least what was received, and at most that and one asset, or one asset and the price of one share |
| MorphoExits.IdleRateAt | test_evm_smart_contracts/morpho_test_code/src/mocks/IrmMock.sol:12-20 | Without loans the test rate model answers zero |
| MorphoExits.EveryoneCanLeaveAnIdleMarket | test_evm_smart_contracts/morpho_test_code/src/Morpho.sol:200-230 | While nothing is borrowed and the rate is zero, all suppliers' full share balances can be withdrawn in any order, at any times, by any authorized senders and to any receivers, without a revert |
| MorphoAnswers.AccrualAnswer | test_evm_smart_contracts/morpho_test_code/src/Morpho.sol:482-508 | On the storage: both sides gain the interest, the position of feeRecipient gains exactly the fee shares, and every other position, market and token stays as it was |
| MorphoAnswers.CallAnswer | test_evm_smart_contracts/morpho_test_code/src/Morpho.sol:95-508 | For every call: counted from the accrued storage, exactly one position and one market change, by exactly the returned amounts; settings change exactly as asked; everything else stays |
| MorphoAnswers.SuppliersLoseAtMostTheDebtLeft | test_evm_smart_contracts/morpho_test_code/src/Morpho.sol:391-402 | For every liquidation on a state with the invariant: suppliers lose exactly the bad debt, at most any amount that pays for the shares the borrower has left, and nothing while collateral remains |
| MorphoAnswers.EnterPays | test_evm_smart_contracts/morpho_test_code/src/Morpho.sol:195-230 | Before its callback a call sends exactly its payment to its receiver; the pull that it leaves open is exactly its payment from its caller |
| MorphoAnswers.CallPays | test_evm_smart_contracts/morpho_test_code/src/Morpho.sol:169-431 | With any callback in between, a call sends first and takes last exactly these payments |
| MorphoAnswers.PlainCallPays | test_evm_smart_contracts/morpho_test_code/src/Morpho.sol:169-431 | Without a callback, every balance of every token changes by exactly the payments sent and taken |
| MorphoAnswers.PullPays | test_evm_smart_contracts/morpho_test_code/src/libraries/SafeTransferLib.sol:26-34 | A pull moves exactly the amount from the payer to the contract and uses up as much of the allowance |
| MorphoAnswers.SupplyLetThrough | test_evm_smart_contracts/morpho_test_code/src/Morpho.sol:175-188 | A supply is let through exactly if the market exists, one amount is given, the account is not zero, and the numbers fit; for anyone |
| MorphoAnswers.RepayLetThrough | test_evm_smart_contracts/morpho_test_code/src/Morpho.sol:275-290 | Likewise a repayment, exactly up to what is owed; for anyone |
| MorphoAnswers.WithdrawLetThrough | test_evm_smart_contracts/morpho_test_code/src/Morpho.sol:207-227 | At top level a withdrawal is let through exactly if the sender may act for the account, the shares are there, and their worth is not lent out; the contract always has the tokens |
| MorphoAnswers.BorrowLetThrough | test_evm_smart_contracts/morpho_test_code/src/Morpho.sol:242-263 | At top level a loan is let through exactly if the sender may act, the assets are not lent out, and the borrower is healthy after it |
| MorphoAnswers.WithdrawCollateralLetThrough | test_evm_smart_contracts/morpho_test_code/src/Morpho.sol:326-343 | At top level collateral is let out exactly if the sender may act, it is there, and what remains suffices |
| MorphoAnswers.LiquidateLetThrough | test_evm_smart_contracts/morpho_test_code/src/Morpho.sol:354-410 | At top level a liquidation is let through, for anyone, exactly if the oracle answers, the position is unhealthy, and the amounts fit |
| MorphoAnswers.PullSucceeds | test_evm_smart_contracts/morpho_test_code/src/mocks/ERC20Mock.sol:38-51 | A payment can be taken exactly from those who have the tokens and have approved the contract |
| MorphoAnswers.SignatureAnswer | test_evm_smart_contracts/morpho_test_code/src/Morpho.sol:445-463 | A signed authorization is accepted exactly in time, with the signer's next nonce and by the signer; it uses up that nonce and sets exactly the one authorization |
| MorphoAnswers.AuthorizationAnswer | test_evm_smart_contracts/morpho_test_code/src/Morpho.sol:436-442 | Succeeds exactly if it changes something, and then sets exactly the one authorization |
| MorphoAnswers.SignaturesWorkOnce | test_evm_smart_contracts/morpho_test_code/src/Morpho.sol:448-448 | Once used, a signed authorization is refused at every point of every run that follows |
| MorphoAnswers.OnlyTheOwnerConfigures | test_evm_smart_contracts/morpho_test_code/src/Morpho.sol:86-145 | Over any run without calls by the owner, at every point: owner, fee recipient, enabled rate models and limits, and all fees are what they were |
| MorphoAnswers.DepositLetThrough | test_evm_smart_contracts/morpho_test_code/src/Morpho.sol:303-320 | Collateral is taken for anyone exactly if the market exists, the amount and the account are not zero, and the sum fits; a flash loan starts exactly if the tokens are there |
| MorphoAnswers.SettingLetThrough | test_evm_smart_contracts/morpho_test_code/src/Morpho.sol:95-165 | Exactly the owner may set owner, fee recipient, rate models and limits below one, each only to something new; a market is created exactly once, with an enabled rate model and limit |
| MorphoAnswers.FeeLetThrough | test_evm_smart_contracts/morpho_test_code/src/Morpho.sol:123-136 | Exactly the owner may set the fee of an existing market, to another value of at most 25%, if the accrual before it goes through |
| MorphoAnswers.CallbackAnswer | test_evm_smart_contracts/morpho_test_code/src/Morpho.sol:191-193 | The calls of a callback are made in order on the storage the earlier ones left, and it goes through exactly if those that must succeed do |
| BcsLength.LengthRoundTrip | test_evm_smart_contracts/solidity/LineraTypes.sol:6-52 | Every uint256 length is decoded from its digits between arbitrary bytes |
| BcsLength.EncodingOfWordIsShort | test_evm_smart_contracts/solidity/LineraTypes.sol:6-28 | A length has at most 37 digits |
| BcsLength.EncodedDigits | test_evm_smart_contracts/solidity/LineraTypes.sol:6-28 | All digits but the last carry the high bit, and together they stand for the number |
| BcsLength.ReencodingIsIdentityIffMinimal | test_evm_smart_contracts/solidity/LineraTypes.sol:30-52 | Encoding a decoded length gives back the digits exactly if there is one digit or the last is not zero |
| BcsLength.PaddedZeroIsAccepted | test_evm_smart_contracts/solidity/LineraTypes.sol:30-52 | A length in more digits than needed is accepted |
| BcsLength.SerializeLen | test_evm_smart_contracts/solidity/LineraTypes.sol:6-28 | The loop terminates and produces the digits, at most 37 |
| BcsLength.DeserializeOffsetLen | test_evm_smart_contracts/solidity/LineraTypes.sol:30-40 | The search for the last digit terminates; the result is the specified one, reverts included |
| BcsLength.SumDigits | test_evm_smart_contracts/solidity/LineraTypes.sol:40-52 | The checked powers and sums of the loop revert exactly where there are over 37 digits or the number does not fit |
| BcsLoops.SerializeUInt | test_evm_smart_contracts/solidity/LineraTypes.sol:2555-2568 | The shifting loop writes the little-endian bytes of the integer |
| BcsLoops.DeserializeOffsetUInt | test_evm_smart_contracts/solidity/LineraTypes.sol:2570-2581 | The shifting loop reads the integer from its bytes, no shift or sum losing bits, and reverts exactly past the end |
| BcsLoops.DeserializeOffsetBytes | test_evm_smart_contracts/solidity/LineraTypes.sol:2057-2070 | The copying loop yields the slice behind the length, and reverts exactly where it leaves the input |
| BcsLoops.SerializeSeq | test_evm_smart_contracts/solidity/LineraTypes.sol:2469-2480 | The appending loop yields the length and the elements' encodings in order |
| BcsLoops.DeserializeOffsetSeq | test_evm_smart_contracts/solidity/LineraTypes.sol:2482-2498 | The element loop yields what decoding one element after the other does |
| BcsLoops.Serialize | test_evm_smart_contracts/solidity/LineraTypes.sol:762-789 | The encoders of structs, unions and options compute the specified bytes |
| BcsLoops.DeserializeOffset | test_evm_smart_contracts/solidity/LineraTypes.sol:791-829 | The decoders of structs, unions and options, threading the position, compute the specified result |
| BcsLoops.DeserializeAll | test_evm_smart_contracts/solidity/LineraTypes.sol:831-841 | A complete decoder accepts exactly if the position ends at the end of the input |
| BcsCodec.LittleEndianRoundTrip | test_evm_smart_contracts/solidity/LineraTypes.sol:2555-2581 | An integer that fits is recovered from its bytes |
| BcsCodec.RoundTripAnywhere | test_evm_smart_contracts/solidity/LineraTypes.sol:762-829 | At |pre| in pre ++ encode(v) ++ post, decoding succeeds exactly if every encoded choice has a case, ends behind the encoding, and returns v exactly if, besides, everything not chosen is default |
| BcsCodec.WellMadeRoundTrip | test_evm_smart_contracts/solidity/LineraTypes.sol:762-829 | What case constructors build is recovered at any offset between any bytes |
| BcsCodec.RoundTrip | test_evm_smart_contracts/solidity/LineraTypes.sol:831-841 | A complete decoder returns v from encode(v) exactly under that condition |
| BcsCodec.PrefixFree | test_evm_smart_contracts/solidity/LineraTypes.sol:762-841 | No encoding is a prefix of the encoding of another value, so encodings are injective |
| BcsCodec.DecodedIsMade | test_evm_smart_contracts/solidity/LineraTypes.sol:791-829 | Whatever is decoded, from any bytes, is a value that case constructors can build |
| BcsCodec.DecodeMovesForward | test_evm_smart_contracts/solidity/LineraTypes.sol:535-552 | Positions only grow |
| BcsCodec.UncheckedLoadsAreHarmless | test_evm_smart_contracts/solidity/LineraTypes.sol:2092-2122 | Acceptance and result of every complete decoder depend on the bytes of the input only, even if memory behind the input differs from load to load |
| BcsCodec.EndIsIndependent | test_evm_smart_contracts/solidity/LineraTypes.sol:2092-2122 | Whether a partial decoding succeeds and where it ends never depends on what lies behind the input |
| BcsCodec.IndependentIffInside | test_evm_smart_contracts/solidity/LineraTypes.sol:2092-2122 | From inside the input, the result of a partial decoding is independent of what lies behind exactly if it fails or ends inside |
| BcsCodec.LoadIndependentIffInside | test_evm_smart_contracts/solidity/LineraTypes.sol:2092-2122 | For an unchecked load: exactly if the load stays inside the input |
| BcsCodec.PartialDecodingReadsBeyond | test_evm_smart_contracts/solidity/LineraTypes.sol:2092-2102 | A concrete partial decoding that depends on bytes behind the input |
| BcsTypes.CasesAreMade | test_evm_smart_contracts/solidity/LineraTypes.sol:649-661 | Case constructors build values that survive a round trip from payloads that do |
| BcsTypes.RequestRoundTrip | test_evm_smart_contracts/solidity/LineraTypes.sol:1594-1633 | Every RuntimePrecompile built by its case constructors is recovered at any offset between any bytes |
| BcsTypes.RequestsArePrefixFree | test_evm_smart_contracts/solidity/LineraTypes.sol:1594-1645 | No request's encoding begins another's |
| BcsTypes.UpdatesRoundTrip | test_evm_smart_contracts/solidity/LineraTypes.sol:1864-1893 | Every StreamUpdates with well-formed application ids is recovered at any offset between any bytes |
| BcsTypes.UpdatesArePrefixFree | test_evm_smart_contracts/solidity/LineraTypes.sol:1864-1893 | StreamUpdates of which one encoding begins the other are equal |
| BcsLayout.UnionBytes | test_evm_smart_contracts/solidity/LineraTypes.sol:1594-1611 | A union is one byte for the case and the bytes of its payload |
| BcsLayout.RequestBytes | test_evm_smart_contracts/solidity/LineraTypes.sol:256-1110 | Every request of the three families is two tags, in the order of the enumerations, and its fields in order: hashes as they are, strings behind their length, indices in four bytes |
| BcsLayout.RequestsAreRecovered | test_evm_smart_contracts/solidity/LineraTypes.sol:1594-1645 | No request's bytes begin another's, and between any bytes they decode to the request and nothing else |
| BcsLayout.UpdateBytes | test_evm_smart_contracts/solidity/LineraTypes.sol:1813-1858 | An update is chain id, application tag and hash, length and name of the stream, and the two indices in four little-endian bytes |
| BcsLayout.UpdatesBytes | test_evm_smart_contracts/solidity/LineraTypes.sol:1860-1893 | A list of updates is their number and the updates one after the other |
| BcsLayout.OwnershipBytes | test_evm_smart_contracts/solidity/LineraTypes.sol:515-564 | Chain ownership is super owners, weighted owners, rounds in four bytes, a flag, and the timeout configuration with its optional first duration |
| BcsLayout.HoldingsBytes | test_evm_smart_contracts/solidity/LineraTypes.sol:147-184 | Owner balances are their number, and each an owner and 32 bytes |
| BcsLayout.LittleEndianDigits | test_evm_smart_contracts/solidity/LineraTypes.sol:2555-2568 | Four bytes of an index are its digits to base 256, the lowest first |
| BcsLayout.OtherAnswers | test_evm_smart_contracts/solidity/LineraTypes.sol:1296-1551 | Lists of owners are their number and the owners; optional owners, applications, chains and numbers are one byte and, if present, the value |
| BcsLayout.BouncingBytes | test_evm_smart_contracts/solidity/LineraTypes.sol:1261-1294 | Whether a message bounces is one byte for an absent answer, and two for a present one |
| FungibleState.CreditFacts | benchmark_repeated_fungible_operations/smart_contract_code/fungible/src/state.rs:112-121 | A credit adds up to the cap, touches no other account, and keeps the total exactly if it stays below the cap |
| FungibleState.DebitFacts | benchmark_repeated_fungible_operations/smart_contract_code/fungible/src/state.rs:124-141 | A debit succeeds exactly if the balance suffices, takes exactly the amount, and stores no zero |
| FungibleState.DebitForTransferFromFacts | benchmark_repeated_fungible_operations/smart_contract_code/fungible/src/state.rs:63-109 | Succeeds exactly for a zero amount, or a spender other than the owner with balance and allowance; both fall by the amount, all others stay |
| FungibleState.CreditUndoesDebit | benchmark_repeated_fungible_operations/smart_contract_code/fungible/src/state.rs:112-141 | A credit after a debit restores the state, removed accounts included |
| FungibleState.ApproveGrants | benchmark_repeated_fungible_operations/smart_contract_code/fungible/src/state.rs:45-61 | What all spenders of an owner may take together rises by at most the allowance granted |
| FungibleState.TransferFromSpends | benchmark_repeated_fungible_operations/smart_contract_code/fungible/src/state.rs:63-109 | ... and falls by exactly what a spender takes |
| FungibleState.NonZeroTotal | benchmark_repeated_fungible_operations/smart_contract_code/fungible/src/state.rs:21-29 | Leaving out zero entries does not change the total |
| FungibleState.FungibleTokenState.InitializeAccounts | benchmark_repeated_fungible_operations/smart_contract_code/fungible/src/state.rs:21-29 | The statements on the two maps compute the specified state or panic as specified |
| FungibleState.FungibleTokenState.DebitForTransferFrom | benchmark_repeated_fungible_operations/smart_contract_code/fungible/src/state.rs:63-109 | The statements on the two maps compute the specified state or panic as specified |
| FungibleContract.FungibleTokenContract.Instantiate | benchmark_repeated_fungible_operations/smart_contract_code/fungible/src/contract.rs:43-55 | Panics exactly if all amounts are zero; otherwise stores exactly the nonzero ones |
| FungibleContract.FungibleTokenContract.ExecuteOperation | benchmark_repeated_fungible_operations/smart_contract_code/fungible/src/contract.rs:57-124 | The statements compute the specified state, messages and response or panic as specified |
| FungibleContract.FungibleTokenContract.ExecuteMessage | benchmark_repeated_fungible_operations/smart_contract_code/fungible/src/contract.rs:126-153 | Likewise for messages, bouncing ones included |
| FungibleContract.CallOperation | benchmark_repeated_fungible_operations/smart_contract_code/fungible/src/contract.rs:36-157 | Load, execute and store; a panic stores nothing |
| FungibleNetwork.StepConserves | benchmark_repeated_fungible_operations/smart_contract_code/fungible/src/contract.rs:57-199 | A step adds no worth; within 128 bits it takes away exactly what it discards |
| FungibleNetwork.Conservation | benchmark_repeated_fungible_operations/smart_contract_code/fungible/src/contract.rs:57-199 | Over every run, balances on all chains plus undelivered credits stay the same, less credits rejected twice, if they fit into 128 bits, and never grow otherwise |
| FungibleNetwork.SupplyIsConserved | benchmark_repeated_fungible_operations/smart_contract_code/fungible/src/contract.rs:43-199 | From creation on, the supply equals the initial amounts under these conditions, never exceeds them, and no zero balance or allowance is stored |
| FungibleNetwork.QuietSupply | benchmark_repeated_fungible_operations/smart_contract_code/fungible/src/contract.rs:43-199 | Without messages under way the balances alone are the supply |
| FungibleNetwork.NoCreditSaturates | benchmark_repeated_fungible_operations/smart_contract_code/fungible/src/state.rs:112-121 | With a supply of 128 bits no delivery of a credit can saturate in any reachable network |
| FungibleTheorems.SaturationLosesTokens | benchmark_repeated_fungible_operations/smart_contract_code/fungible/src/state.rs:112-121 | With a larger supply a credit to a full account is lost |
| FungibleTheorems.BalanceFallsOnlyWithAuthority | benchmark_repeated_fungible_operations/smart_contract_code/fungible/src/contract.rs:81-153 | A balance falls only by the owner's signed transfer or claim, by a withdrawal the owner signed, or by a spender whose allowance falls by as much |
| FungibleTheorems.DeliveryFailsOnlyForLackOfFunds | benchmark_repeated_fungible_operations/smart_contract_code/fungible/src/contract.rs:126-153 | An arriving message fails exactly if it withdraws more than the balance; never for lack of permission |
| FungibleTheorems.SpendersTakeAtMostTheirAllowance | benchmark_repeated_fungible_operations/smart_contract_code/fungible/src/state.rs:63-109 | Over any run in which an owner moves nothing, spenders take at most the allowances at the start and those granted since |
| FungibleTheorems.BouncedTransferIsUndone | benchmark_repeated_fungible_operations/smart_contract_code/fungible/src/contract.rs:126-139 | A transfer that is rejected and comes back leaves the whole network as it was |
| FungibleTheorems.WithdrawalsComeFromClaims | benchmark_repeated_fungible_operations/smart_contract_code/fungible/src/contract.rs:161-177 | A step puts a withdrawal under way only if it is the claim of the same terms, signed by the owner on another chain |
| FungibleTheorems.WithdrawalsAreClaimed | benchmark_repeated_fungible_operations/smart_contract_code/fungible/src/contract.rs:112-177 | Over every run, withdrawals of given terms under way, executed and thrown away add up exactly to those at the start and the signed claims of those terms |
| FungibleTheorems.NoWithdrawalWithoutClaim | benchmark_repeated_fungible_operations/smart_contract_code/fungible/src/contract.rs:112-177 | From creation on they add up to the signed claims, so none is made up or executed twice |
| FungibleTransfers.TransferAnswer | benchmark_repeated_fungible_operations/smart_contract_code/fungible/src/contract.rs:81-200 | A transfer pays exactly if the owner signs it and has the amount: here the target's balance rises by it, up to the cap; elsewhere exactly the credit to the target is sent; otherwise nothing changes at all |
| FungibleTransfers.TransferFromAnswer | benchmark_repeated_fungible_operations/smart_contract_code/fungible/src/contract.rs:95-200 | Likewise by a spender within balance and allowance; exactly that allowance falls by the amount |
| FungibleTransfers.ClaimAnswer | benchmark_repeated_fungible_operations/smart_contract_code/fungible/src/contract.rs:112-200 | A claim on this chain pays likewise; on another chain it sends exactly the request to withdraw, and changes no balance |
| FungibleTransfers.ApprovalAnswer | benchmark_repeated_fungible_operations/smart_contract_code/fungible/src/contract.rs:69-79 | An approval adds to exactly one allowance, up to the cap, exactly if the owner signs it for somebody else |
| FungibleTransfers.QueryAnswer | benchmark_repeated_fungible_operations/smart_contract_code/fungible/src/contract.rs:59-67 | Queries answer the balance and the symbol and change nothing |
| FungibleTransfers.CreditAnswer | benchmark_repeated_fungible_operations/smart_contract_code/fungible/src/contract.rs:128-139 | A credit that arrives pays its target; one that comes back pays the account it was taken from; no other balance and no allowance changes |
| FungibleTransfers.WithdrawalAnswer | benchmark_repeated_fungible_operations/smart_contract_code/fungible/src/contract.rs:140-200 | A request pays exactly if the owner signed it and has the amount; otherwise it changes nothing |
| FungibleTransfers.RemoteTransferArrives | benchmark_repeated_fungible_operations/smart_contract_code/fungible/src/contract.rs:81-200 | A signed and funded transfer to another chain, delivered, has moved exactly the amount from owner to target; every other balance, all allowances and all else under way are as they were |
| FungibleTransfers.RemoteTransferFromArrives | benchmark_repeated_fungible_operations/smart_contract_code/fungible/src/contract.rs:95-200 | Likewise by a spender, whose allowance alone falls by the amount |
| FungibleTransfers.RemoteClaimArrives | benchmark_repeated_fungible_operations/smart_contract_code/fungible/src/contract.rs:112-200 | Likewise for a claim made on another chain, with the target on the chain of the source or on a third one |
| FungibleTransfers.CreditsAreAccounted | benchmark_repeated_fungible_operations/smart_contract_code/fungible/src/contract.rs:81-200 | Over every run, credits of each payment under way, delivered and rejected add up to those at the start and the payments made; those coming back, to the rejections |
| FungibleTransfers.OthersAnswerOk | benchmark_repeated_fungible_operations/smart_contract_code/fungible/src/contract.rs:69-152 | Whatever is not a query answers nothing but its completion |
| FungibleTransfers.CreationAnswer | benchmark_repeated_fungible_operations/smart_contract_code/fungible/src/contract.rs:43-55 | A token is created exactly if some amount is not zero; then every account has exactly the amount meant for it and there are no allowances |
| SocialKeys.KeyRoundTrip | test_migration_database_schema/smart_contract_code/social/src/lib.rs:102-118 | Every key is recovered from its bytes |
| SocialKeys.BytesRoundTrip | test_migration_database_schema/smart_contract_code/social/src/lib.rs:111-118 | Exactly strings of 44 bytes are keys, and encoding the key gives them back |
| SocialKeys.KeysAreOrdered | test_migration_database_schema/smart_contract_code/social/src/lib.rs:99-109 | Bytes compare lexicographically exactly as: later timestamp, then author, then higher index first |
| SocialKeys.KeysAreDistinct | test_migration_database_schema/smart_contract_code/social/src/lib.rs:101-109 | Different keys have different bytes |
| SocialKeys.BigEndianDecoded | test_migration_database_schema/smart_contract_code/social/src/lib.rs:104-106 | A word that fits is recovered from its big-endian bytes |
| SocialKeys.LexLessIsNumeric | test_migration_database_schema/smart_contract_code/social/src/lib.rs:104-106 | Bytes of equal length compare as the numbers they stand for |
| SocialContract.SocialContract.ExecuteOperation | test_migration_database_schema/smart_contract_code/social/src/contract.rs:49-69 | The statements compute the specified posts, events, messages and subscriptions |
| SocialContract.SocialContract.ProcessStreams | test_migration_database_schema/smart_contract_code/social/src/contract.rs:81-104 | The nested loops compute the specified fold, or panic for a foreign stream, an unreadable index or a missing post |
| SocialContract.SocialContract.ExecuteLikeEvent | test_migration_database_schema/smart_contract_code/social/src/contract.rs:167-182 | One more like, wrapping around; panics exactly for a missing post |
| SocialStreams.EventIsLocal | test_migration_database_schema/smart_contract_code/social/src/contract.rs:146-204 | An event reads and writes posts of its own chain only |
| SocialStreams.StreamsAreIndependent | test_migration_database_schema/smart_contract_code/social/src/contract.rs:81-104 | An interleaving succeeds exactly if each stream alone does, and does to each author's posts what that stream alone does |
| SocialStreams.Confluence | test_migration_database_schema/smart_contract_code/social/src/contract.rs:81-104 | Interleavings that agree on the order within each stream give the same posts or both fail |
| SocialStreams.BatchingIsIrrelevant | test_migration_database_schema/smart_contract_code/social/src/contract.rs:81-104 | So do any two ways of cutting the streams into updates and calls |
| SocialStreams.ForeignLikesBreakConfluence | test_migration_database_schema/smart_contract_code/social/src/contract.rs:167-182 | If a stream could announce a like of another chain's post the order between streams would matter |
| SocialStreams.EventAnswer | test_migration_database_schema/smart_contract_code/social/src/contract.rs:146-204 | A post starts without likes and comments, a like adds one modulo 2^32, a comment is appended with the stream's chain, all else stays; exactly for want of the post it panics |
| SocialStreams.OnlyOurStreamsAreRead | test_migration_database_schema/smart_contract_code/social/src/contract.rs:81-104 | A call that is offered a stream of another name or application, or indices behind its end, panics |
| SocialNetwork.StepKeeps | test_migration_database_schema/smart_contract_code/social/src/contract.rs:49-204 | Every step of the network keeps the invariant that the theorems on reachable networks rest on |
| SocialNetwork.PostingKeepsIndexed | test_migration_database_schema/smart_contract_code/social/src/contract.rs:112-123 | A new post's index is fresh exactly until 2^32 posts exist |
| SocialTheorems.StreamsAnnounceOwnPosts | test_migration_database_schema/smart_contract_code/social/src/contract.rs:71-144 | In every reachable network every like and comment in the stream of chain c has key.author = c |
| SocialTheorems.KeysAreNeverReused | test_migration_database_schema/smart_contract_code/social/src/contract.rs:119-122 | An author with at most 2^32 posts never uses a key twice |
| SocialTheorems.ReadersConverge | test_migration_database_schema/smart_contract_code/social/src/contract.rs:81-104 | In every reachable network, chains that have read the same parts of the streams hold the same posts |
| SocialTheorems.ReceivedPostsTellTheStream | test_migration_database_schema/smart_contract_code/social/src/contract.rs:146-204 | A chain holds exactly the posts announced in what it has read, each with its text, the number of likes modulo 2^32, and the comments in stream order with the stream's chain |
| SocialTheorems.LikesAreCounted | test_migration_database_schema/smart_contract_code/social/src/contract.rs:167-182 | The stored number is the number of likes read exactly as long as there are fewer than 2^32 |
| SocialTheorems.ReadableIffAnnounced | test_migration_database_schema/smart_contract_code/social/src/contract.rs:167-192 | A stream can be read up to an event exactly if every like and comment before it names a post announced earlier in the stream |
| SocialTheorems.NobodyReadsPastUnannounced | test_migration_database_schema/smart_contract_code/social/src/contract.rs:81-104 | In every reachable network no chain has read past a like or comment on a post not announced before it |
| SocialTheorems.UnannouncedLikesAreReachable | test_migration_database_schema/smart_contract_code/social/src/contract.rs:71-79 | Such a like is reachable: it is passed on and announced whether or not its post was |
| SocialReactions.ReactionAnswer | test_migration_database_schema/smart_contract_code/social/src/contract.rs:125-144 | A like or comment on the author's own chain appends exactly that event there; on any other chain it sends exactly that message to the author and appends nothing |
| SocialReactions.DeliveryAnswer | test_migration_database_schema/smart_contract_code/social/src/contract.rs:71-79 | A like or comment that arrives appends exactly that event to the stream of the chain it arrives on |
| SocialReactions.PostAnswer | test_migration_database_schema/smart_contract_code/social/src/contract.rs:112-123 | A post appends exactly one event with its text, image and time, under the number of posts before it, and is stored under that index |
| SocialReactions.SubscriptionAnswer | test_migration_database_schema/smart_contract_code/social/src/contract.rs:51-60 | Subscribing and unsubscribing change exactly who is read |
| SocialReactions.ReactionsArrive | test_migration_database_schema/smart_contract_code/social/src/contract.rs:71-144 | A like or comment made on another chain, delivered, has added exactly itself to the author's stream and changed no other stream or state |
| SocialReactions.ReactionsAreAccounted | test_migration_database_schema/smart_contract_code/social/src/contract.rs:49-144 | Over every run, for each like and each comment text: those in the author's stream, under way and lost add up to those at the start and the operations made |
| SocialReactions.PostsAreAccounted | test_migration_database_schema/smart_contract_code/social/src/contract.rs:112-123 | Over every run, posts of each content are announced exactly as often as they are made |
| SocialReactions.ReadersSeeWhatWasMade | test_migration_database_schema/smart_contract_code/social/src/contract.rs:49-204 | Whoever has read all of an author's stream sees of each post exactly the likes (modulo 2^32) and the comments ever made, less those under way and lost |

## Left out

- Morpho events and `extSloads`: observation only; hash collisions of market ids are not modelled.
- The test token inside the lending proof is a value (`Erc20.Ledger`) in the contract's view of the world; the class `Erc20.ERC20Mock` shows that the token's statements compute that value. Aliasing between tokens is therefore not modelled.
- MorphoContract.Morpho.CreateMarket: does not write `idToMarketParams`, because parameters are their own ids.
- MorphoContract.Morpho.SetAuthorizationWithSig: takes the recovered signatory as an input, because hashing and signature recovery are foreign.
- MorphoContract.Morpho.SafeTransfer: does not model return data and Morpho's own error strings, because the token is a ledger that succeeds or reverts.
- MorphoContract.Morpho.SafeTransferFrom: likewise.
- MorphoContract.Morpho.Execute: the tree of nested calls is given with the call, so a callback's calls do not depend on values it reads; every finite sequence of calls is covered.
- Gas, memory limits and dirty high bits of words in Solidity: encoders and decoders run on unbounded memory, and `bytes20` is its first twenty bytes.
- BcsLoops.DeserializeOffset: one method serves all struct, union and option decoders, each being the instance for its schema in `BcsTypes`.
- Solidity.Linera precompile wrappers: they only call the codec.
- The wire format of Linera messages, blocks and certificates, inbox order, fees and grants: messages are values, delivered in any order.
- FungibleNetwork.Conservation: a Credit that is rejected, comes back and is rejected again counts as discarded; whether the runtime allows it is not part of the repository.
- FungibleContract.FungibleTokenContract.ExecuteOperation: the permission check compares with one authenticated identity, because the runtime's check and its treatment of calling applications are not part of the repository.
- FungibleContract.FungibleTokenContract.ExecuteMessage: likewise for the permission of a withdrawal.
- GraphQL services, native-fungible, fungible-no-graphql and the one-register demo contracts: queries, delegation, or the same logic again.
- SocialNetwork.StepKeeps: a subscription that is removed and made again continues where it stopped; what the runtime does then is not part of the repository.
- The bitwise complement in the key codec is written as subtraction from the largest word.
- Benchmarks, end-to-end drivers, storage migration and monitoring programs: process control and I/O.
