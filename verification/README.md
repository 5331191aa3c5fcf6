# The batch-settlement engine of the solver, in Dafny

The project models the deterministic core of the solver: how quotes become a priced, limit-respecting,
token-conserving batch, and how the code that judges such a batch decides. The chain is an oracle: a
quoter node is any function of a call, together with any rule for when a batch exceeds the gas cap or
fails otherwise, and the answers of the V3, V4 and Curve quoters and of the order-state reads are arbitrary
functions of the call. Methods follow the loops of the Python code; each is proved equal to a function of
its inputs, or of the old state, and the theorems are about those functions.

**Clearing under uniform prices.** `ClearingState` holds the mutable batch (prices, trades, interactions,
filled uids) as a class. `Router` and `JointClearing` drive it. `ClearingLoop` is the theory both loops
share: a run is read off its *final* price map, without any order of steps (`RunIsDeclarative`). From it
follow uniform prices, exact realised rates, single fills, greedy maximality in both directions, and token
conservation: exact for the router, with an exact account of the rounding dust for joint clearing.
`RouterPublished` and `JointPublished` say the same of what is handed to the settlement, by its prices, trades
and interactions alone, and `SwapCalls` what the calls among these say.

**The judges.** `Scoring` is the CIP-14 scorer, `Ebbo` the best-bid-offer check, `OrderValidity` the order
filter, `Orchestrator` the gate chain. The cross-module results are `RouterPassesEbbo` (no router trade
ever lags the external quote), `JointEbbo` (in a joint batch only members of a group can, and exactly when),
`RouterScore` (limit soundness at the final prices, and what a router solution scores), `RouterZeroed` (which
auctions the scorer can zero), `RouterV4Bounds` (which auctions the V4 encoder can sink), `RouterPipeline`
(filter and funding gate around one solve), `JointSolution` and `Submission` (the whole way from ranked orders
to what is submitted). `ScoringExact`, `EbboQuotes` and `OrchestratorExact` state the judges' verdicts without
their functions.

**Markets.** `CandidatesExact`, `RouterPool` and `JointPool` say which quotes a solver works with; `RouterMarket` reads the pool of quotes off the venues' own answers, none of which depends on
whose order asks; `RouterTables` builds a market for any table of answers; `RouterTakers` says who takes a
quote that is told to all. On these rest the exact conditions in `RouterV4Bounds` and `RouterZeroed`.

**AMM arithmetic and search.** `AmmV2` is the fee-adjusted constant product (section 3.2.1 of the Uniswap
v2 Core whitepaper) and its closed-form inverse; `V2Source` walks paths of any length both ways, which `V2Walks`
tells hop by hop;
`MultiHop` compares the greedy two-hop search with exhaustive search.

**Fast forms equal to simple ones.** Gas-cap bisection and chunking against one call at a time
(`Multicall`, `BatchedQuoter`), scatter/gather filtering against one order at a time (`OrderValidity`),
watermark pagination against "slim every aged row once" over whole runs with inserts, failures and
restarts (`Retention`, `RetentionRuns`), path packing against its parse (`V3Path`, `V3Batched`, `Encoder`).

## Where the code and its own comments disagree

The model follows the code. Each disagreement has a lemma that says exactly when the code does meet the
comment; for the V4 bounds and the zeroed solutions, which depend on the market, the classes of markets for
which the condition is exact are named, and a necessary condition holds for all of them.

- The V4 encoder's bounds "are structurally unreachable from the solve path" (src/solver/router.py:603-607). Not so: a
  partially fillable sell of at least 2^128 whose half is below 2^128 (an exposed one) can win selection with
  its half quote and is then executed in full. `RouterV4Bounds.RaisingNeedsExposed`: without such an order
  nothing raises. With one, a quote that would overrun it is also told to every earlier sell of its pair and
  amount, and whoever takes it first sets the prices. `RouterV4Bounds.EncoderBoundsExact` gives the exact
  condition, and `RouterV4Bounds.ShadowedNeverRaises` an exposed order that no market makes raise.
- "Full-amount best quotes" (src/solver/router.py:615-617). Selection mixes the full, three-quarter and half
  quotes of an order. `RouterAmounts.FullFillQuotedExactly`: a full fill executes the amount its path was
  quoted for if and only if a full-amount quote leads the pool, as it does when venues pay no less for more
  (`RouterAmounts.MonotoneExecutesQuoted`).
- "Floor is intentional: pro-rata limits always favour the user" (src/solver/router.py:790-791). Flooring
  the limit lets a fraction fill through one unit short of the scorer's rounded-up limit, which zeroes the
  whole solution. `RouterScore.FractionGuardExact` gives the amounts for which the guard is safe.
  `RouterZeroed.ZeroedNeedsUnsafe`: with safe amounts no market leads there. `RouterZeroed.ZeroableExact`
  gives the exact condition for the markets of one pair, `RouterZeroed.UnsafeFractionScoresZero` an instance,
  and `RouterZeroed.OvertakenNeverZeroed` an unsafe order that no market without errors makes fail.
- "The minimum sell-token funding below which WE provably cannot fill" (src/solver/order_validity.py:141). For a
  fill-or-kill buy the limit is the worst case, not the minimum. `OrderValidity.FundingDropExact`.
- "Rewrite work stays capped at `batch` rows per cycle" (scripts/retention_loop.py:79-83). The page that
  reaches the quota is finished first, so up to `2 * batch - 1` rows are rewritten.
  `Retention.CapExact`: the cap holds if and only if no page overfills the quota.
- `bytes.fromhex` skips blanks, so `pack_v3_path` accepts some 42-character strings that are not addresses
  and packs a path of the wrong length. `V3Path.PackRoundTrip`: the length is right if and only if no token
  hides a blank. `V3Path.BlankTokenPacksShort` is such a token.

## Assumptions

Stated as preconditions where they are used: order uids are unique; signed orders have two different tokens
and positive amounts; venues quote nothing for nothing; basis points are below 10 000; rows of the shadow
table have distinct ids and times. Addresses are in one canonical case. The batch-independence and EBBO
results also ask that a call belonging to a batch that fits also fits alone, and that the quoting in question
meets no error other than the gas cap: for a solver's batch under the EBBO check, the solver's own V3 quoting.
Errors the check itself meets are allowed.

A lemma marked `{:induction false}` is proved without the induction hypothesis Dafny would add by itself.

## Model

| member | source | states |
|---|---|---|
| AmmV2.QuoteReaches | src/routing/amm_v2.py:33-44 | The quote without its division: an output is reached exactly when the input, less fee, pays for it on the product curve |
| AmmV2.QuoteBelowReserve | src/routing/amm_v2.py:33-44 | No swap empties a pool |
| AmmV2.QuoteMonotone | src/routing/amm_v2.py:33-44 | More input never yields less output |
| AmmV2.ProductNeverDecreases | src/routing/amm_v2.py:33-44 | The reserve product never falls |
| AmmV2.SwapBackNeverProfits | src/routing/amm_v2.py:33-44 | Swapping there and back through the moved pool never returns more than was put in |
| AmmV2.GetAmountInViable | src/liquidity/v2.py:318-337 | The inverse is non-zero exactly when the pool holds more than is asked of it |
| AmmV2.GetAmountInExact | src/liquidity/v2.py:318-337 | Exactly the inputs from the least one up buy the output; the inverse is that least input, or one above it when its division is exact |
| AmmV2.GetAmountInBounds | src/liquidity/v2.py:318-337 | The inverse suffices and nothing two or more below it does |
| AmmV2.QuoteIsMost | src/routing/amm_v2.py:33-44 | The quote is the largest output its input, less fee, pays for on the pool's curve, or nothing where it pays for none |
| AmmV2.InputIsLeast | src/liquidity/v2.py:318-337 | The inverse is an input that pays for the output, with none two or more below it that does; or no input would |
| V2Source.ComputePath | src/liquidity/v2.py:250-295 | The two accumulating loops compute the forward walk of a sell and the backward walk of a buy, or report that a hop is not viable. Over one pool, with the reserve of the token sold on the input side: a sell gets the largest output the curve allows, a buy pays an input at most one above the least that suffices, and neither is viable only where nothing would do |
| V2Walks.SellWalkExact | src/liquidity/v2.py:264-279 | A sale along any path, hop by hop over the pools' own fields: each hop gives the most its pool can for what the one before gave, and the walk stops exactly at the first hop that gives nothing |
| V2Walks.BuyWalkExact | src/liquidity/v2.py:280-295 | The same for a purchase from the last hop back: each hop takes at most one above the least that its pool asks for |
| V2Source.SellWalkMonotone | src/liquidity/v2.py:264-279 | Selling more along a path of any length stays viable and never yields less |
| V2Source.BuyWalkSuffices | src/liquidity/v2.py:250-295 | Round trip at any path length: paying what the backward walk asks buys at least what was wanted |
| V2Source.QuoteImpl | src/liquidity/v2.py:151-218 | The winning path is viable, no viable candidate yields more (for a buy: costs less), and it strictly beats all tried earlier; no quote exactly when no candidate is viable |
| V2Source.CandidatesExact | src/liquidity/v2.py:151-218 | The candidates are the pair itself and each way through a third token of the list |
| V2Walks.CandidatesInOrder | src/liquidity/v2.py:151-218 | They are tried in order: the pair itself, then through each usable token of the list in turn |
| V2Source.BuyQuoteDelivers | src/liquidity/v2.py:151-218 | A buy quote, spent as a sell on its own path, delivers its buy amount |
| MultiHop.BestV3Quote | src/routing/amm_v3.py:114-124 | The best quoting fee tier, or none when no tier quotes |
| MultiHop.V2Candidates | src/routing/multihop.py:27-62 | Exactly one honest candidate for each factory that pays anything, the best of them being the best V2 output |
| MultiHop.V2VenueExact | src/routing/multihop.py:27-62 | A V2 venue pays the most its pool can give, with the reserve of the token sold on the input side, and nothing where there is no pool |
| MultiHop.QuoteBestSingleHop | src/routing/multihop.py:27-80 | An honest quote that no venue beats, or none exactly when no venue quotes |
| MultiHop.QuoteBestPath | src/routing/multihop.py:83-110 | A real route of one or two hops that ends at exactly the greedy output |
| MultiHop.BestOutIsMax | src/routing/multihop.py:27-80 | The single-hop output is the maximum over all venues |
| MultiHop.GreedyIsExhaustive | src/routing/multihop.py:83-110 | With a monotone V3 quoter no route over any venues and intermediates ends above the greedy one |
| MultiHop.GreedyNeedsMonotone | src/routing/multihop.py:83-110 | Without monotonicity it can: a market where greedy ends at 1 and a route pays 5 |
| Multicall.BisectionIsOneByOne | src/routing/multicall.py:74-104 | Without other errors bisection returns one result per call in order, dropping exactly the calls that overflow alone |
| Multicall.BisectionIsSound | src/routing/multicall.py:74-104 | On any node results stay aligned, only calls that overflow alone are dropped, and what is re-raised is never the gas cap |
| Multicall.BisectionAgrees | src/routing/multicall.py:74-104 | Whenever bisection returns, whatever errors other batches meet, it returns what sending every call alone would |
| Multicall.RoundTripBound | src/routing/multicall.py:74-104 | At most 2n - 1 round trips for n calls |
| Multicall.RoundTripBoundMet | src/routing/multicall.py:74-104 | The bound is attained when nothing fits |
| Multicall.FewOffenders | src/routing/multicall.py:74-104 | Bisection homes in on what overflows: at most one round trip and two for every offending call and halving of the batch, that is 1 + 2k log2 n, the logarithm rounded up |
| Multicall.HalvingsExact | src/routing/multicall.py:99-104 | Halving ends after the logarithm to the base 2 of the batch size, rounded up |
| BatchedQuoter.BuildCalls | src/routing/v3_batched.py:252-258 | All calls are built up front; one bad path loses the whole batch |
| BatchedQuoter.SendChunks | src/routing/v3_batched.py:258-272 | Chunk by chunk, a chunk that raises contributes failures of its own length |
| BatchedQuoter.BatchedQuote | src/routing/v3_batched.py:237-283 | The quote list as the chunking loop leaves it, and none exactly when a call cannot be built |
| BatchedQuoter.ChunkFailureIsLocal | src/routing/v3_batched.py:237-283 | Output i always carries path i; its amount is 0 when its own chunk raised and its stand-alone quote otherwise, and its chunk does not raise when it meets no error but the gas cap |
| BatchedQuoter.BatchSizeIndependent | src/routing/v4_quoter.py:280-329 | Without other errors every chunk size gives the one-by-one quotes |
| V3Path.PackV3Path | src/encoder/v3_path.py:38-65 | The growing byte array is the packing of tokens and fees, with the same errors in the same order |
| V3Path.PackFails | src/encoder/v3_path.py:38-65 | When packing fails and for what: too few tokens, then a wrong number of fees, then the first thing wrong along the path, a token that does not look like an address, one that is not hex, or a fee out of range |
| V3Path.PackRoundTrip | src/encoder/v3_path.py:38-65 | At any number of hops the packed length is right exactly when no token hides a blank, and then parsing recovers tokens and fees |
| V3Path.BlankTokenPacksShort | src/encoder/v3_path.py:38-65 | A 42-character token with two blanks is packed, and the path is too short |
| V3Path.PackInjective | src/encoder/v3_path.py:38-65 | On real addresses packing succeeds, and equal packings come from equal tokens (up to case) and fees |
| V3Batched.EncodersAgree | src/routing/v3_batched.py:80-96 | The quoter's path encoder and the swap's path packer give the same bytes, and fail together |
| V3Batched.PadExact | src/routing/v3_batched.py:76-96 | A token that is too short is filled up with leading zeros after losing its prefix |
| V3Batched.QuoteIgnoresUid | src/routing/v3_batched.py:190-224 | Neither the call nor its quote depends on the order that asks |
| Encoder.SlippageBrackets | src/encoder/v3.py:124-136 | A minimum is the largest amount at most the slippage below the executed one, a maximum the least that covers it with the slippage on top |
| Encoder.EncodedFlows | src/solver/router.py:1175-1260 | For every venue and kind the declared flows of an encoded fill are exactly the executed amounts |
| Encoder.ApprovalMatchesPull | src/solver/router.py:1175-1260 | The swap comes last, and each approval before it grants exactly what the swap can pull, at least the executed input |
| Encoder.SwapWalksQuotedPath | src/encoder/v3.py:79-110 | For every two-hop path in both directions the swapped bytes are the quoted bytes; a buy parses back to the reversed path |
| SwapCalls.V3CallExact | src/encoder/v3.py:60-125 | Every V3 path on real addresses encodes to an approval of the token sold and a swap: one hop names the pair, fee, direction and executed amounts, two hops parse back to the path (reversed for a buy), the slippage guard brackets the other amount, and the quoter was asked for the same pools in the same direction |
| SwapCalls.V4CallExact | src/solver/router.py:1214-1232 | A V4 swap names the currencies, fee, spacing and direction the V4 quoter was asked about, on the executed amounts |
| SwapCalls.CurveCallExact | src/solver/router.py:1200-1213 | A Curve swap names the pool and the coin positions of the `get_dy` call that quoted it |
| SwapCalls.EncodedIsApproved | src/solver/router.py:1175-1260 | For every venue the token the swap pulls is the one approved, to whoever pulls it, for exactly what it can pull; only the swap declares flows, and they are the executed amounts |
| SwapCalls.EncoderRaisesExact | src/solver/router.py:1175-1260 | Exactly when a V4 or Curve swap cannot be encoded |
| Candidates.BuildPairPaths | src/solver/ebbo.py:89-116 | The candidates of one pair and amount: direct tiers, then same-fee two-hops through each usable intermediate |
| Candidates.BuildV3CandidatePaths | src/solver/router.py:378-441 | The router's V3 candidates: those of every order's pair at every amount quoted for it |
| Candidates.BuildV4CandidatePaths | src/solver/router.py:443-477 | Sells only, standard tiers, amounts below 2^128 |
| Candidates.BuildCurveCandidatePaths | src/solver/router.py:479-499 | Sells only, one path per pool that lists both coins, at their first positions |
| CandidatesExact.PairPathsInOrder | src/solver/ebbo.py:89-116 | The candidates of a pair one by one: four pools, then four tiers through each usable intermediate in turn |
| CandidatesExact.PairPathsExact | src/solver/ebbo.py:89-116 | A path is a candidate of a pair exactly when it is direct at one of the four fees, or goes at one fee through a listed token that is neither of the pair |
| CandidatesExact.V3PathsExact | src/solver/router.py:378-441 | A path is a V3 candidate exactly when it is one for some order's pair and direction at an amount that order is quoted at: the whole, and for a partially fillable sell also three quarters and a half |
| CandidatesExact.V4PathsExact | src/solver/router.py:443-477 | A path is a V4 candidate exactly when it is a standard pool of some sell's pair at a quoted amount below 2^128 |
| CandidatesExact.CurvePathsExact | src/routing/curve_quoter.py:136-164 | A path is a Curve candidate exactly when it leads some sell's quoted amount through a listed pool, between the first positions of both coins |
| Selection.SelectBestQuotePerOrder | src/solver/router.py:502-540 | The one-pass map holds, for every uid, the quote kept by scanning that order's eligible quotes |
| Selection.BestIsOptimal | src/solver/router.py:502-540 | Nothing is kept exactly when nothing is eligible; otherwise the first quote that no eligible quote beats |
| ClearingState.Clearing.constructor | src/solver/router.py:656-668 | The empty batch |
| ClearingState.Clearing.RegisterPrices | src/solver/router.py:1265-1347 | Both rates are recorded, or on a conflict neither, and a refusal changes nothing |
| ClearingState.Clearing.AppendTrades | src/solver/joint_clearing.py:331-337 | One trade and one filled uid per order, in order |
| ClearingState.Clearing.Emit | src/solver/router.py:706-732 | Refused (nothing changes), emitted (all four fields move together), or raised, and exactly when each |
| Ledger.RegisterKeepsUniform | src/solver/router.py:1325-1347 | An agreeing entry of two distinct tokens keeps every earlier price and rate |
| Ledger.RegisterExact | src/solver/router.py:1325-1347 | Earlier prices survive exactly when the entry agrees; its own rate is on record exactly when its tokens differ or its amounts do not |
| Ledger.DustBound | src/solver/joint_clearing.py:244-247 | Payouts of a combined swap, each rounded up, sum to between the output and the output plus one less than the number of orders |
| Ledger.DustFree | src/solver/joint_clearing.py:244-247 | They sum to the output exactly when every payout divides evenly |
| Ledger.EntryPaid | src/solver/router.py:1265-1347 | At its realised rate a swap takes from its users what it swaps in and pays them its output plus its dust |
| Ledger.Conservation | src/solver/router.py:669-899 | For every token and any mix of venues and kinds: pay-ins plus swap outputs plus dust equal pay-outs plus swap inputs |
| ClearingLoop.RunKeepsUniform | src/solver/router.py:669-899 | Every step of a clearing loop keeps one price per token |
| ClearingLoop.RunIsDeclarative | src/solver/router.py:669-899 | A run emits, for each item, the first attempt its final prices accept, and nothing where there is none |
| ClearingLoop.SecondPassAgrees | src/solver/router.py:669-899 | A second pass at the final prices picks the same swaps and changes no price |
| Router.EmitFraction | src/solver/router.py:792-869 | The partial-fraction loop emits the first of the two fractions that clears its floored limit and the price guard |
| Router.EmitOrder | src/solver/router.py:669-899 | One order's branch of the loop: buy, full sell, fractions, or skip |
| Router.EmitOrders | src/solver/router.py:669-899 | The whole emission loop ends in the run of the orders' attempts, or raises exactly when an encoder does |
| Router.GatherQuotes | src/solver/router.py:542-614 | The pool of quotes of all enabled venues, V4 quotes of 2^128 or more removed; a V4 or Curve call that cannot be built loses that venue alone, a V3 call all of them |
| Router.SolveV3Batched | src/solver/router.py:542-956 | Quote, clear, and publish prices, trades and interactions of the final ledger (what these come to is stated by `RouterPublished`) |
| RouterPublished.RouterPublishes | src/solver/router.py:669-956 | Of a published solution, by its prices, trades and interactions alone: every trade fulfils an order, none twice, within its limit at the clearing prices, which are given for exactly the tokens traded; and the interactions are, trade by trade, the approved swap that takes exactly what the trade pays and brings exactly what it is paid |
| RouterPublished.RouterConservesPublished | src/solver/router.py:669-956 | For every token, what the traded orders pay at the published prices plus what the published swaps bring equals what the orders are paid plus what the swaps take |
| RouterPublished.RouterLeavesNothing | src/solver/router.py:669-956 | An order left out, also when nothing is published, has no quote that reaches its limit and fits the published prices; an order traded is traded at the largest amount that fits, at the best quote for it |
| RouterInvariants.AttemptShape | src/solver/router.py:669-899 | Every attempt is a balanced swap for its own order: a full fill within the signed limit or a fraction within the floored one |
| RouterInvariants.RouterUniformPrices | src/solver/router.py:1320-1347 | At the end every emitted fill is still priced at its own realised rate |
| RouterInvariants.FilledExactlyWhenCompatible | src/solver/router.py:669-899 | Greedy maximality both ways: an order is filled exactly when one of its attempts agrees with the final prices, and by the first such |
| RouterInvariants.LargestFillWins | src/solver/router.py:773-789 | The largest feasible fill is emitted: every larger attempt is still refused at the final prices, and a fraction is sold only when no quote reaches the full limit |
| RouterInvariants.RouterFillsOnce | src/solver/router.py:669-899 | No order is filled twice and only given orders are filled |
| RouterInvariants.RouterConserves | src/solver/router.py:669-899 | Exact token conservation of every router solution |
| RouterInvariants.RealisedRateIsExact | src/shadow/scoring.py:45-69 | At the final prices each order pays and gets exactly its swap's amounts, with no rounding error |
| RouterQuotes.GatheredQuotesAnswer | src/solver/router.py:378-499 | Whatever the venues answer, every gathered quote answers for the order it names |
| RouterMarket.PoolIsOwn | src/solver/router.py:578-614 | Without errors the pool is every candidate of every enabled venue at its stand-alone quote, and nothing else but V4 outputs above uint128 is missing |
| RouterPool.PoolExact | src/solver/router.py:378-614 | Without errors a quote is in the pool exactly when it is the own answer of a venue for a candidate, told by its pair, amount, fee and hops, and, for V4, fits 128 bits |
| RouterMarket.SharedQuote | src/routing/v4_quoter.py:153-166 | No venue's call names the order, so any quote of the pool is also told to every other order of its pair and direction that is quoted for its amount |
| RouterAmounts.FullFillQuotedExactly | src/solver/router.py:615-617 | A full fill executes the amount its path was quoted for exactly when a full-amount quote leads the pool; every other fill always does |
| RouterAmounts.MonotoneExecutesQuoted | src/solver/router.py:615-617 | When no venue pays less for more and everything fits uint128, a full-amount quote leads, so every fill of a partially fillable sell executes what its path was quoted for |
| RouterAmounts.FullFillMayCarryFractionQuote | src/solver/router.py:615-617 | On any pair of addresses, a pool paying 8 for 4 and 9 for 3: the order of 4 is sold in full for 9, along the path quoted for 3 |
| RouterV4Bounds.RaisingNeedsExposed | src/solver/router.py:603-607 | In any market, errors included, the strategy raises only if an exposed partially fillable sell is among the orders |
| RouterV4Bounds.EncoderBoundsExact | src/solver/router.py:603-607 | Among the markets where V4 alone answers, for one pair, some makes the strategy raise if and only if an exposed sell is unshadowed: no earlier sell of its pair that is quoted for its fraction sells at its limit |
| RouterV4Bounds.ShadowedNeverRaises | src/solver/router.py:603-607 | An exposed sell behind a fill-or-kill sell of just its half never raises, whatever the venues answer and whatever errors they meet |
| RouterTakers.OneRate | src/solver/router.py:1320-1347 | When quotes are positive for one pair only, every emitted swap has the amounts of the first one, by the first order with anything to try |
| RouterScore.RouterLimitSoundness | src/solver/router.py:682-826 | At the final prices of a whole router batch every full fill keeps the signed rate, cross-multiplied and unrounded; every fraction pays its user at most one unit less than the scorer's rounded-up limit, and reaches it when the amounts are safe or the bought amount divides by 4 (by 2) |
| RouterScore.FractionGuardExact | src/solver/router.py:792-826 | Every output the fraction guard accepts meets the scorer's limit if and only if the signed amounts are safe |
| RouterScore.FractionSafeWhenDivisible | src/solver/router.py:792-826 | On evenly divisible sells safe means that the bought amount divides too, or is one unit |
| RouterScore.RouterScoreExact | src/shadow/scoring.py:111-192 | A router solution survives exactly when its fraction fills reach the rounded limit; then it scores the sum of its real surpluses, otherwise 0 |
| RouterScore.SafeAmountsNeverZeroed | src/shadow/scoring.py:119-150 | With safe amounts no quotes can make the router emit fills that break the scorer's limit |
| RouterZeroed.ZeroedNeedsUnsafe | src/shadow/scoring.py:119-150 | In any market the scorer zeroes a router solution only if some partially fillable sell has a fraction unsafe for its amounts |
| RouterZeroed.ZeroableExact | src/shadow/scoring.py:119-150 | Among the markets that answer for one pair, some makes the router publish a solution that breaks the scorer's limit if and only if some unsafe fraction is unguarded: the first order to take its least accepted output takes no more than the fraction |
| RouterZeroed.AuctionOfOnePair | src/solver/router.py:378-499 | For an auction of one pair these are all markets without errors |
| RouterZeroed.OvertakenNeverZeroed | src/shadow/scoring.py:119-150 | A sell of 4 for 2, unsafe at three quarters, behind a sell of 5 for 1: no market without errors makes the scorer zero the batch |
| RouterZeroed.UnsafeFractionScoresZero | src/shadow/scoring.py:139-148 | On any pair of addresses, a pool paying 1 for 3 makes the router publish one trade of 3 for a sell of 4 for 2, and the scorer gives it 0 |
| Scoring.ComputeSolutionScore | src/shadow/scoring.py:78-192 | The two loops compute 0 for a batch with a broken limit and the sum of the trade scores otherwise |
| Scoring.ScaleInvariant | src/shadow/scoring.py:78-192 | Scaling all clearing prices by any positive factor changes no score |
| Scoring.SignedRateSuffices | src/shadow/scoring.py:139-148 | The cross-multiplied limit passes the rounded check at every executed amount |
| Scoring.SignedRateExact | src/shadow/scoring.py:139-148 | And nothing weaker does: the rounded check passes at every amount exactly when the clearing rate is within the signed rate |
| Scoring.SubBatchScoresLess | src/shadow/scoring.py:151-192 | A valid solution scores at least as much as any part of it |
| Scoring.ScoreSplits | src/shadow/scoring.py:111-192 | Scores of two batches add up when both are valid; one broken limit anywhere sinks the whole |
| ScoringExact.SellScoreExact | src/shadow/scoring.py:32-50 | A sell breaks its limit exactly when its rounded-up proceeds are below its rounded-up limit, and scores their difference at the native price of the bought token in wei |
| ScoringExact.BuyScoreExact | src/shadow/scoring.py:53-75 | A buy breaks its limit exactly when its rounded-down cost is above its rounded-down limit, and scores the difference, turned into the bought token at the signed rate, at that token's native price |
| ScoringExact.UnscorableExact | src/shadow/scoring.py:111-192 | Any other trade breaks nothing and scores nothing |
| Scoring.ByUidKnows | src/shadow/scoring.py:234-252 | The scorer knows exactly the uids of the auction, each as an order of it |
| Ebbo.QuoteBest | src/solver/ebbo.py:69-179 | The largest output (least input) over the candidate paths of a pair, or that there is none, or that quoting raised |
| Ebbo.BestAmountIsBest | src/solver/ebbo.py:117-123 | That amount is quoted and no positive quote beats it |
| EbboQuotes.ExternalIsBest | src/solver/ebbo.py:69-179 | On an answered chain, in both directions: some pool of the pair or same-fee two-hop pays the external quote, none pays better, and there is no route exactly when none pays at all |
| Ebbo.ValidateSolutionEbbo | src/solver/ebbo.py:195-348 | Above 20 trades refused unread, otherwise the tally of the per-trade verdicts, for any executed amounts |
| Ebbo.OursIsSettled | src/solver/ebbo.py:255-300 | What the check compares is what the settlement moves: the payout of a sell, the debit of a buy |
| Ebbo.LagsExact | src/solver/ebbo.py:237-340 | Exactly which trades are waived, and which of the others lag, without divisions: payout more than a unit below the tolerated external quote, or debit above it; and what a violation reports |
| Ebbo.TallyPasses | src/solver/ebbo.py:341-348 | The batch passes exactly when no trade lags; every trade is checked or waived |
| Ebbo.TallyExact | src/solver/ebbo.py:229-348 | The violations are those of the lagging trades in order, and the waived trades are counted as skipped |
| Ebbo.CheckPassesExact | src/solver/ebbo.py:195-348 | A batch passes exactly when it holds at most 20 trades and none of them lags; a larger one has truncation as its only violation |
| RouterPassesEbbo.ExternalNeverBeats | src/solver/ebbo.py:69-179 | The external quote for an emitted fill's amount never beats the fill |
| RouterPassesEbbo.RouterPassesEbboExactly | src/solver/ebbo.py:195-348 | If the router's own V3 quoting meets no error but the gas cap, no router trade is ever a violation, at any tolerance, whatever V4 and Curve quote and whatever errors the check's own quoting meets; so a solution passes exactly when it holds at most 20 trades, and truncation is the only complaint it can meet |
| RouterPassesEbbo.SolveThenCheck | src/solver/ebbo.py:195-348 | Quote, clear and check: the verdict on a solved auction is decided by the number of trades alone |
| JointClearing.FindGroups | src/solver/joint_clearing.py:236-242 | Fill-or-kill sells grouped by pair in order of appearance, groups below the minimum left out |
| JointClearing.BuildGroupPaths | src/solver/joint_clearing.py:120-151 | Per tier the direct path, then its two-hops, all marked as the group's |
| JointClearing.BestJointQuote | src/solver/joint_clearing.py:101-117 | The first largest positive quote marked for the group's pair |
| JointClearing.AllLimitsSatisfied | src/solver/joint_clearing.py:81-98 | Every order's rounded-up share reaches its limit |
| JointClearing.LimitsSatisfiedExact | src/solver/joint_clearing.py:71-98 | The same without division: every sell times the combined buy exceeds one unit less than the limit times the combined sell |
| JointClearing.EmitGroups | src/solver/joint_clearing.py:276-346 | The group loop ends in the run of the groups' attempts, or raises exactly when an encoder does |
| JointClearing.EmitFallback | src/solver/joint_clearing.py:348-384 | The fallback loop continues that run with the sells left over, in full only |
| JointClearing.Solve | src/solver/joint_clearing.py:235-401 | Group, quote once, clear in two phases, and publish prices, trades and interactions of the final ledger (what these come to is stated by `JointPublished`) |
| JointPublished.JointPublishes | src/solver/joint_clearing.py:235-401 | Of a published batch, by its prices, trades and interactions alone: every trade sells the whole of an order, none twice, for at least what was asked at the clearing prices, which are given for exactly the tokens traded; and the interactions are, swap by swap, the approved swap that takes what its trades pay and brings what they are paid but for the rounding of their payouts |
| JointPublished.JointConservesPublished | src/solver/joint_clearing.py:235-401 | For every token the published trades and swaps balance up to dust of at most one unit for each trade that is not the first of its swap |
| JointPublished.GroupsExact | src/solver/joint_clearing.py:236-242 | There is a group for exactly the pairs with enough fill-or-kill sells, holding exactly those, in the order of the auction |
| JointPublished.JointLeavesNoSell | src/solver/joint_clearing.py:348-401 | Of a sell left out the best individual quote misses the limit or contradicts the published prices |
| JointPublished.JointLeavesNoGroup | src/solver/joint_clearing.py:276-401 | Of a group left out the best joint quote leaves someone below the limit or contradicts the published prices |
| JointPool.JointPoolExact | src/solver/joint_clearing.py:244-270 | Without errors the quotes are the own answers of the chain for every order's candidates and for every group's combined sell, and nothing else |
| JointPool.JointNeverRaises | src/solver/joint_clearing.py:235-401 | On real addresses every call is built and every swap encoded, whatever the chain answers |
| JointInvariants.SolverGroupsAreGood | src/solver/joint_clearing.py:236-242 | The solver's groups hold groupable orders of one pair each, and no two share a pair |
| JointInvariants.BestJointIsFirst | src/solver/joint_clearing.py:101-117 | A group's quote is the first largest of the eligible ones |
| JointInvariants.JointUniformPrices | src/solver/joint_clearing.py:276-384 | Across both phases no registered price changes, and every swap is balanced and pays its orders in full at least their limits |
| JointInvariants.JointIsDeclarative | src/solver/joint_clearing.py:276-384 | Each group and each order left over gets its swap exactly when the final prices accept it |
| JointInvariants.JointFillsOnce | src/solver/joint_clearing.py:348-352 | No uid is traded twice across the two phases |
| JointInvariants.JointNeverZeroed | src/shadow/scoring.py:119-150 | No joint-clearing trade trips the scorer's limit check, for any quotes |
| JointInvariants.JointConserves | src/solver/joint_clearing.py:276-384 | Token conservation with an exact account of the dust, at most trades minus swaps units of it |
| JointInvariants.GroupDustExact | src/solver/joint_clearing.py:71-98 | A group's dust is zero exactly when every payout divides evenly |
| JointInvariants.GroupDustExample | src/solver/joint_clearing.py:71-98 | On any pair, two orders paid one unit more than their swap brings |
| JointSolution.JointQuotesAnswer | src/solver/joint_clearing.py:244-270 | The quotes and groups the solver gathers itself satisfy what these guarantees assume |
| JointSolution.SolveThenScore | src/solver/joint_clearing.py:202-401 | Solve and score: a solved batch trades no uid twice, breaks no limit, and scores the sum of its trades |
| JointEbbo.FallbackNeverLags | src/solver/joint_clearing.py:348-384 | No trade of the fallback phase is a violation of the EBBO check, at any tolerance |
| JointEbbo.JointLagsExact | src/solver/ebbo.py:237-340 | A trade of a joint batch lags exactly when the chain would pay its order alone more than its rounded-up share and a unit, by more than the tolerance |
| JointEbbo.JointEbboExact | src/solver/ebbo.py:195-348 | The verdict on a joint batch: it passes exactly when it holds at most 20 trades and no member of a settled group is outbid that way |
| JointEbbo.ClearedGroupRejected | src/solver/joint_clearing.py:276-346 | A market where the solver settles a group within both limits and the check, on the same chain, rejects the batch at tolerance 0 |
| OrderValidity.BuildChecks | src/solver/order_validity.py:97-137 | Calls and tags of all orders, positionally aligned; none exactly when a uid is not hex or an owner whose funding is read is no address (which call stands for which check is stated by `OrderValidity.DecisionExact`) |
| OrderValidity.UidBytesSpell | src/solver/order_validity.py:64-69 | The bytes of a uid spell it back, with or without its prefix |
| OrderValidity.BigEndianLeads | src/solver/order_validity.py:82-86 | A reading leads with its first byte |
| OrderValidity.Scatter | src/solver/order_validity.py:184-200 | For every tag, the reading the last result carrying it leaves |
| OrderValidity.DropOrders | src/solver/order_validity.py:201-228 | Kept orders in order, and for exactly the others the reason |
| OrderValidity.FilterValidOrders | src/solver/order_validity.py:162-228 | A bad uid or owner, or a failed batch, keeps every order; otherwise the decisions of the scattered readings. Whatever the node does, what is kept is exactly what is not dropped, in order, and every drop has evidence on the chain: a filled amount that exhausts the order, a pre-signature of zero, or a balance or allowance of its sell token below its need |
| OrderValidity.ScatteredIsPerOrder | src/solver/order_validity.py:184-228 | On a readable node the scattered decisions are those of each order judged alone |
| OrderValidity.DecisionExact | src/solver/order_validity.py:97-228 | An order judged alone falls for a reason exactly when the chain's own answers to its filled-amount, pre-signature, balance and allowance calls rule it out for that reason and no earlier one |
| OrderValidity.FilterReadable | src/solver/order_validity.py:162-228 | So the batched filter keeps and drops, for the same reasons and in the same order, what judging one order at a time would: each order exactly for what the chain answers about it |
| OrderValidity.FundingDropExact | src/solver/order_validity.py:140-159 | Below the requirement no amount the router would debit can be paid, if and only if the order is a sell, a partially fillable buy, or sells a single unit |
| OrderValidity.FilledDropExact | src/solver/order_validity.py:201-210 | An order is dropped as filled exactly when the settlement would refuse every further execution of it |
| OrderValidity.KeptSellExact | src/solver/order_validity.py:140-159 | A kept sell can be filled by the router at a quoted amount its owner holds and has approved exactly when it is fill-or-kill or its smallest fraction still fits into what is left (for a single unit: when that unit is held and approved) |
| OrderValidity.DroppedSellCannotFill | src/solver/order_validity.py:201-228 | A sell dropped for balance or allowance has less than every amount the router would quote for it |
| RouterPipeline.FundingGate | src/solver/router.py:335-374 | A solved batch is withdrawn exactly when the gate's reads come back and scatter a dead leg; if a call cannot be built or the reads fail it is returned unchanged, and on a readable node it survives exactly when no answer of the chain rules out a traded order |
| RouterPipeline.SelectOrders | src/solver/router.py:284-328 | The order cap over what the filter keeps of the top three times the cap |
| RouterPipeline.SelectedIsCapped | src/solver/router.py:284-328 | Never more orders than the cap, and just the first ones when the filter is off, a call cannot be built or the reads fail |
| RouterPipeline.FilterDropsExact | src/solver/router.py:335-374 | On a readable node the scattered reads find a dead order exactly when the chain's answers rule one out |
| RouterPipeline.SelectedOf | src/solver/router.py:284-328 | On any node the selection is made of ranked orders, each at most once |
| RouterPipeline.SelectedPass | src/solver/router.py:284-328 | No answer of the chain rules out a selected order, at the time of the filter's reads |
| RouterPipeline.SelectedExact | src/solver/router.py:284-328 | The selection takes, of the first three times the cap, the orders no answer of the chain rules out, in their ranking, until the cap is reached |
| RouterPipeline.Solve | src/solver/router.py:256-333 | What leaves the router is the batched outcome of the selected orders, or nothing exactly when the filter is on and the gate's reads come back with a dead leg; failed reads withdraw nothing |
| RouterPipeline.UnmovedChainPassesGate | src/solver/router.py:335-374 | When the chain has not moved between filter and gate, the gate's condition always holds |
| Orchestrator.PassGates | src/solver/orchestrator.py:274-406 | EBBO then feasibility: EBBO fails open on an exception, feasibility never; a rejection leaves its record |
| Orchestrator.RunStrategies | src/solver/orchestrator.py:104-175 | The strategies run, their records in order, and the solutions collected, stopping at the first when asked to |
| Orchestrator.TryComposed | src/solver/orchestrator.py:189-259 | The composer stage, its record, and its gates |
| Orchestrator.TryEach | src/solver/orchestrator.py:261-272 | The first single candidate both gates accept, with the rejections before it |
| Orchestrator.Solve | src/solver/orchestrator.py:73-272 | What is submitted and everything appended to the caller's log |
| Orchestrator.FirstAcceptedIs | src/solver/orchestrator.py:261-272 | The first accepted candidate, every earlier one rejected with one record each; none exactly when all are rejected |
| Orchestrator.SubmittedByStages | src/solver/orchestrator.py:186-272 | Composed solution, head of the chain, rest of the chain: the first of these that both gates accept |
| Orchestrator.SubmissionsAreGated | src/solver/orchestrator.py:73-272 | Whatever is submitted passed both gates and is composed or from a strategy that ran and is not naive |
| OrchestratorExact.SolveExact | src/solver/orchestrator.py:73-272 | A whole solve told from the results of the strategies: which of them ran, what is composed from what, the order in which solutions are tried, the first that both gates accept, and every entry of the log |
| Submission.RouterSolutionIsSubmitted | src/solver/orchestrator.py:73-272 | With the router first, whether or not later strategies still run and are composed with it: submitted is the composed solution if both gates accept it, else what filter, batched pass and funding gate made of the auction, exactly when it has at most 20 trades and the feasibility gate lets it through, else the first accepted of the later strategies |
| Submission.RouterIsLogged | src/solver/orchestrator.py:104-175 | The log opens with how the router ended: solved, without a solution, or raising |
| Retention.ExtractReferencedUids | scripts/retention_loop.py:117-140 | The set built by the loop over solutions and trades |
| Retention.TradeUidExact | scripts/retention_loop.py:134-139 | A trade names the lower-cased text of its first key that is not blank |
| Retention.ReferencedExact | scripts/retention_loop.py:117-140 | A uid is in it exactly when some well-formed trade of some solution names it |
| Retention.KeepReferencedExact | scripts/retention_loop.py:143-161 | Kept orders are exactly the referenced ones, unchanged, at increasing positions |
| Retention.RetainRowExact | scripts/retention_loop.py:143-161 | A slimmed payload is marked, keeps everything but its orders, and of these exactly the ones some solution references |
| Retention.KeepAgain | scripts/retention_loop.py:143-161 | Slimming again with the same or more references changes nothing more |
| Retention.QueryIsSlice | scripts/retention_loop.py:182-194 | On a sorted table the page query is the slice between the watermark and the cutoff |
| Retention.ShadowStore.ProcessRow | scripts/retention_loop.py:196-234 | A row that parses and is not marked is slimmed to exactly the orders that some stored solution of its auction references, unchanged and in order, with everything else kept; any other row, and the rest of the table, stays as it was |
| Retention.ShadowStore.ProcessPage | scripts/retention_loop.py:196-234 | One page is slimmed in order and the watermark follows |
| Retention.ShadowStore.RunPages | scripts/retention_loop.py:180-241 | What a cycle has committed after any number of pages: the rows up to there slimmed to their referenced orders, the pending ones of them rewritten, the watermark moved there |
| Retention.ShadowStore.RunCycle | scripts/retention_loop.py:164-243 | A cycle slims exactly the unmarked rows from the watermark to where it stops, each to its referenced orders, leaves every other row as it was, moves the watermark there, and rewrites exactly the pending ones |
| Retention.CycleReach | scripts/retention_loop.py:180-241 | A cycle never passes the cutoff, and stops short of it only after a full quota of rewrites or a full set of pages |
| Retention.CycleStopReach | scripts/retention_loop.py:79-83 | A whole cycle never passes the cutoff, and stops short of it only after a full batch of rewrites or 50 batches of rows |
| Retention.RewritesBounded | scripts/retention_loop.py:240-241 | At most 2 * batch - 1 rewrites per cycle |
| Retention.CapExact | scripts/retention_loop.py:79-83 | At most `batch` rewrites if and only if no page overfills the quota |
| Retention.CapExceeded | scripts/retention_loop.py:79-83 | Three rewrites with a batch of two |
| RetentionRuns.StepKeepsInv | scripts/retention_loop.py:164-255 | Inserts, cycles, cycles failing after any committed page, and restarts all keep the invariant |
| RetentionRuns.RunKeepsInv | scripts/retention_loop.py:164-255 | Over any run, rows at or below the watermark are malformed or retained, and no row is rewritten twice |
| RetentionRuns.RowAfterRun | scripts/retention_loop.py:164-255 | No row is lost; each ends as it was, or slimmed once by a cycle whose cutoff had passed it, down to exactly the orders that the solutions of that moment reference |
| RetentionRuns.LifetimesJoin | scripts/retention_loop.py:246-255 | A run across a restart is two lifetimes, the second on the table the first left and without a watermark |
| RetentionRuns.StepRewrites | scripts/retention_loop.py:164-243 | No event rewrites two full batches, and earlier writes stay |
| RetentionRuns.CycleProgress | scripts/retention_loop.py:164-243 | A cycle takes a full batch off the backlog or clears it |
| RetentionRuns.CyclesDrain | scripts/retention_loop.py:66-70 | The backlog drains whatever rows arrive meanwhile and whichever cycles raise: once enough cycles have come back, every row older than a cutoff reached at the start is malformed or retained |
| RetentionRuns.Loop | scripts/retention_loop.py:246-255 | The loop of one process lifetime is the run of its turns: a finished cycle hands on its watermark, a cycle that raises after any committed page is caught and leaves the old one |
| RetentionRuns.RunTurn | scripts/retention_loop.py:246-255 | One turn, finished or caught, is one step of the run |

## Left out

- Ranking and the ghost filter of `solve` (src/solver/router.py, src/solver/joint_clearing.py): the ranked list of candidates is an input.
- The V2 fallback and the legacy per-order path of the router, `NaiveSolver` and `price_refiner`.
- The native V4 probe: its quotes are measured, never selected.
- Recipient, deadline and ABI layout of the calldata; integer widths other than V4's uint128 (a uint256 or int128 argument out of range raises in the ABI encoder, which is not part of this model; of its checks the model has the address shape of pool tokens and order owners, the 24-bit fees of a path, and the sign of an amount).
- Quoter return decoding: a decoder is any function from bytes to an amount.
- A sell token that is no address makes the filter's aggregate call raise; the model counts that among the node's failures, which have the same effect.
- Address case: the scorer and joint clearing lower-case addresses and the router does not; one canonical case is assumed throughout.
- Native price parsing, and scoring at external prices (src/shadow/scoring.py:195-217), which is the modelled scorer at another price map.
- Solutions with missing or ill-typed fields in the scorer.
- The composer, the ghost detector and the feasibility simulator are uninterpreted; an exception raised inside the composer is not modelled.
- Timeouts, cancellation, retries and concurrency; logging and metrics.
- The uid suffixes that tell apart the paths of one group, which nothing reads.
- Statistics of the retention cycle other than the rewrite count; ties in `polled_at` (distinct times are assumed); solutions of an auction are read as one list per cycle.
- RouterV4Bounds.EncoderBoundsExact: exact for the markets where V4 alone answers, for one pair. Where other pools answer too, swaps of other pairs can hold a price at which a shadowed order gets through; exposure stays necessary (`RaisingNeedsExposed`).
- RouterZeroed.ZeroableExact: exact for the markets that answer for one pair, without errors. With several pairs or lost chunks a swap of another pair, or a lost quote, can let an overtaken fraction through; unsafe amounts stay necessary (`ZeroedNeedsUnsafe`).
- The order of the two currencies in a V4 pool key, which the ordered pair determines.
- Multicall.RoundTripBoundMet: asks for a node on which every batch overflows, the worst case the bound is about.
- Retention.CapExceeded: one shape of table; the condition for all tables is `CapExact`.
- MultiHop.GreedyIsExhaustive: monotonicity of the V3 quoter is assumed, since pool mathematics is done on chain.
