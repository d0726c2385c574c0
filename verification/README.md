# TON DEX backend core, modelled in Dafny

This project models the decision-making core of a TON decentralised-exchange backend. The backend quotes ston.fi constant-product pools, assembles the transactions a wallet signs, and authenticates wallets with TON Connect. The model covers these parts:

- **Pricing** (`Pricing`, `pricing.dfy`): the forward swap quote with its three fee layers, the reverse quote, price impact, and the platform fee in nanotons.
- **Swap** (`Swap`, `swap.dfy`): the quote assembly of the forward and reverse simulations, including the in-place rescaling of the request's slippage tolerance. Also the two-message swap transaction and its TON-to-proxy-TON routing.
- **Liquidity** (`Liquidity`, `liquidity.dfy`): the provide-liquidity quote and the four-way decision over staged LP-account balances. Also the pool search of `remove_liquidity` and the routing of provide messages.
- **Records** (`Records`, `records.dfy`): the whitelisted in-place `update` of the asset and pool records.
- **TonProof** (`TonProof`, `tonproof.dfy`): the `ton_proof` payload, the byte layout of the proof message and of the signed message, and the public-key extraction from a StateInit cell with a slice cursor. Also the final verdict.
- **Jwt** (`Jwt`, `jwt.dfy`): session tokens, their expiry rule and the sliding refresh.
- **Assets** (`Assets`, `assets.dfy`): the assets and balances endpoints. Each is an in-place stable sort, then a filter and a projection.

`Common` (`common.dfy`) holds the shared values: options, results whose error side names the exception the Python code raises, pool rows and snapshots, and Python's `int()` truncation of a float.

Python floats are modelled as exact reals, and `int()` is truncation toward zero. Library calls are parameters of the operations:

- the pool lookup, the router's `get_pool_data` and `get_expected_tokens`;
- `sha256` and ed25519 verification, BOC decoding, and the code-hash to wallet-version table;
- the JWT codec;
- the clock and the random bytes.

Every state-changing operation is a method proved against a specification function. The properties the backend relies on are proved as lemmas about those functions:

- a quote never exceeds the reserve, and grows with the input;
- the reverse quote buys at least the requested output;
- the proof message decodes back field by field;
- a staged balance is paired at the pool ratio;
- an update never touches the identity columns;
- the sort is sorted, a permutation and stable.

## Model

| member | source | states |
|---|---|---|
| Common.ValidUntil | src/dex/swap.py:41 | A transaction deadline lies in the half-open interval (now + 599, now + 600]. |
| Pricing.CalculateOutAmount | src/dex/utils.py:9-41 | A non-positive input gives (0, 0, 0). The protocol fee part is 0 unless the protocol rate is positive. The referral part is 0 unless there is a referral and its rate is positive. |
| Pricing.RescalingCancels | src/dex/utils.py:21-40 | The source's 1e9-scaled gross output and fee parts, scaled back, equal the exact constant-product output amount_in·(10000−lp)·reserve_out / (10000·reserve_in + amount_in·(10000−lp)) and its fee shares. |
| Pricing.ConstantProductBounds | src/dex/utils.py:22-24 | A positive effective input pays out between 0 and the output reserve, strictly below it when both reserves are positive. |
| Pricing.ConstantProductMonotone | src/dex/utils.py:22-24 | The constant-product payout is non-decreasing in the input, and strictly increasing when both reserves are positive. |
| Pricing.GrossOutBounds | src/dex/utils.py:21-24 | With a fee below 10000, the gross output of a positive input has a positive denominator and lies in [0, reserve_out]. It is strictly below reserve_out when both reserves are positive. |
| Pricing.GrossOutMonotone | src/dex/utils.py:21-24 | The gross output is non-decreasing in the input, and strictly increasing when both reserves are positive. |
| Pricing.FeeSplit | src/dex/utils.py:26-35 | Subtracting the protocol and referral shares from the gross output leaves exactly the remaining share (10000 − p − r)/10000 of it, and no part is negative. |
| Pricing.SplitFeesBounded | src/dex/utils.py:26-41 | The three separately truncated parts are non-negative, sum to at most ⌊gross⌋ and to more than gross − 3. The net part is the truncated remaining share. |
| Pricing.OutAmountPartsBounded | src/dex/utils.py:18-41 | For a positive input, non-negative reserves and valid fees, the quote's three parts are non-negative and together never exceed the gross output. They fall short of it by less than 3 units. |
| Pricing.OutAmountBelowReserve | src/dex/utils.py:18-41 | With positive reserves and valid fees, the net output is non-negative and strictly below reserve_out, for every input. |
| Pricing.OutAmountMonotone | src/dex/utils.py:18-41 | The net output is non-decreasing in the input amount. |
| Pricing.SplitFeesMonotone | src/dex/utils.py:26-41 | The truncated net part is non-decreasing in the gross output. |
| Pricing.InRescalingCancels | src/dex/utils.py:57-66 | The source's scaled numerator over its denominator equals the exact input ratio reserve_in·amount_out·10000 / ((reserve_out − amount_out)·(10000 − lp)). |
| Pricing.CalculateInAmount | src/dex/utils.py:44-72 | A non-positive requested output needs an input of 0. |
| Pricing.InRatioIsExact | src/dex/utils.py:57-66 | For 0 < amount_out < reserve_out, the exact input ratio is positive and pays out exactly amount_out under the constant-product rule, so the reverse formula inverts the forward one. |
| Pricing.InAmountCoversOut | src/dex/utils.py:44-72 | For slippage ≥ 0 the quoted input is positive, its gross output exceeds amount_out, and the forward quote of that input without protocol or referral fee pays at least amount_out. |
| Pricing.CalculatePriceImpact | src/dex/utils.py:75-81 | The impact is 0 for a zero amount and lies in [0, 100) for a positive reserve and a non-negative amount. 100 minus the impact is the reserve's share of reserve + amount. |
| Pricing.PriceImpactMonotone | src/dex/utils.py:79 | With a positive reserve the impact strictly increases with the amount. |
| Pricing.CalculateAssetTonRate | src/dex/utils.py:99-110 | No pool gives PoolNotFound. A rate is TON reserve over offer reserve, with the reserves oriented by whether the offer is token0, and exists only when the offer reserve is non-zero. |
| Pricing.CalculateFeeInNanotons | src/dex/utils.py:84-96 | A TON or proxy-TON offer always gets a fee without a pool. Otherwise the fee exists exactly when the cross rate does, and a missing pool gives PoolNotFound. |
| Pricing.FeeInNanotonsIsPercentOfValue | src/dex/utils.py:84-96 | The fee is the floor of fee_percent / 100 of the offer's value in TON. The value is the amount itself for TON and amount × rate otherwise. |
| Swap.OrientReserves | src/dex/swap.py:108-112 | The reserves are (reserve0, reserve1) when the pool's token0 is the offer, and swapped otherwise. |
| Swap.OrientationReverses | src/dex/swap.py:180-184 | Swapping the offer and the ask of a pool with two distinct tokens swaps the oriented reserves. |
| Swap.MinAskUnits | src/dex/swap.py:131-135 | The floor is 0 for a non-positive ask. For slippage in [0, 1] it lies in [0, ask] and equals ask at slippage 0. |
| Swap.MinAskAntitone | src/dex/swap.py:131-135 | A larger slippage never raises the minimum ask. |
| Swap.SwapRate | src/dex/swap.py:137-139 | The rate is ask/units for positive units, and 0 otherwise. |
| Swap.FeePercent | src/dex/swap.py:141-145 | The fee percent is (protocol + referral)/ask for a positive ask, and 0 otherwise. |
| Swap.ForwardQuoteFigures | src/dex/swap.py:98-169 | A forward quote has ask and fee units from `calculate_out_amount` on the oriented reserves. Its minimum ask lies in [0, ask], and its rate and fee percent follow their guards. It echoes the units, the addresses, the pool and router addresses, and slippage/100 both in the response and in the request. Its price impact is `calculate_price_impact` of the units, and its TON fee is `calculate_fee_in_nanotons` of the units. |
| Swap.ForwardWithoutPool | src/dex/swap.py:101-106 | With no pool found the simulation raises PoolNotFound and leaves the request unchanged. |
| Swap.ReverseFeeUnits | src/dex/swap.py:211-225 | The reverse fee figure is non-negative for a non-negative request, slippage above −100 and a positive rate. |
| Swap.ReverseFeePercent | src/dex/swap.py:227-233 | The reverse fee percent is 0 for a non-positive request. Otherwise, times the request, it equals (protocol + referral) × (100 + slippage). |
| Swap.ReverseRefusesOverdraw | src/dex/swap.py:186-187 | The reverse quote raises NotEnoughLiquidity exactly when the request exceeds the oriented output reserve, and then leaves the request unchanged. |
| Swap.ReverseZeroFeeRateRaises | src/dex/swap.py:194-224 | Once the guard and the quote's divisions pass, a zero protocol fee rate, or a zero referral fee rate on a referred request, raises ZeroDivisionError. The slippage has already been divided by 100 when it does. |
| Swap.ReverseQuoteFigures | src/dex/swap.py:172-257 | A reverse quote reports ask = min ask = the request. The request is within the reserve, the offer is `calculate_in_amount`'s input, and both fee rates it divides by are non-zero. The fee units are the truncated sum of the protocol and referral figures (the protocol figure alone without a referral). The fee percent is `ReverseFeePercent` of those figures, and the rate is the request per offered unit. Price impact and the TON fee are computed on the offer. The addresses are echoed. Slippage/100 is echoed and stored. A positive request's offer, swapped forward, buys at least the request. |
| Swap.ReverseGuardAdmitsWholeReserve | src/dex/swap.py:186-198 | A request equal to the whole output reserve passes the guard and then raises ZeroDivision. |
| Swap.SufficientLiquidityQuotes | src/dex/swap.py:186-198 | Under the strict guard (request < reserve) the reverse formula's denominator is positive. A positive request then gets an input that buys at least the request. |
| Swap.SwapSimulateRequest.SimulateSwap | src/dex/swap.py:98-169 | Returns the forward simulation's response and leaves the request's slippage tolerance divided by 100 when the quote is reached. |
| Swap.SwapSimulateRequest.SimulateSwapReverse | src/dex/swap.py:172-257 | Returns the reverse simulation's response and leaves the request's slippage tolerance divided by 100 when the quote is reached. |
| Swap.BuildSwapTransaction | src/dex/swap.py:41-95 | The transaction exists exactly when the nanoton fee does. It has two messages, the fee message first. The swap goes through proxy TON exactly when TON is offered; otherwise a TON ask is replaced by proxy TON. It is valid for ten minutes. |
| Swap.SwapNeverAsksRawTon | src/dex/swap.py:66-90 | A jetton swap never asks for the raw TON address, and the swap message carries the request's amounts and the query id. |
| Liquidity.Oriented | src/dex/liquidity.py:160-164 | A pair is kept when the pool's token0 is the caller's token0, and swapped otherwise. |
| Liquidity.OrientedInvolution | src/dex/liquidity.py:303-311 | Orienting twice gives back the caller's order, so amounts reach the expected-tokens lookup in the pool's order. |
| Liquidity.PairedAtRatio | src/dex/liquidity.py:166-167 | int(a·(num/den)) is the largest t with t·den ≤ a·num. |
| Liquidity.RatioCompare | src/dex/liquidity.py:244-248 | Comparing two reserve ratios is comparing their cross products, in both directions. |
| Liquidity.RoundHalfEven | src/dex/liquidity.py:168-170 | Python's `round` is within 0.5 of its argument and even on a tie. |
| Liquidity.ShareOfPool | src/dex/liquidity.py:168-170 | The share estimate lies in [0, 100] and within 0.005 of part/(reserve + part)·100. |
| Liquidity.MinExpectedTokens | src/dex/liquidity.py:187 | The LP-out floor lies in [0, expected] for slippage in [0, 100], and equals expected at slippage 0. |
| Liquidity.SimulateProvideLiquidity | src/dex/liquidity.py:145-196 | No pool gives PoolNotFound, and the only other error is ZeroDivision. A quote has action `provide` and no send token or amount. It keeps token0's amount when token0's amount is non-zero, and token1's amount otherwise. |
| Liquidity.ProvideQuoteAtPoolRatio | src/dex/liquidity.py:160-196 | With positive reserves the quote exists and the other side is paired at the floor of the pool ratio. The share lies in [0, 100] and the LP-out floor in [0, expected]. |
| Liquidity.Decide | src/dex/liquidity.py:242-301 | The decision fails only with ZeroDivision, and only when a reserve is zero. |
| Liquidity.DecisionFollowsBalances | src/dex/liquidity.py:242-301 | The action is `provide` iff nothing is staged. It is `provide_second` iff exactly one side is staged. It is `direct_add_provide` iff both are staged at the pool ratio, and `provide_additional_amount` iff both are staged off it. |
| Liquidity.TopUpToken0 | src/dex/liquidity.py:281-289 | When the pool ratio rose, token1 stays at its balance and token0 is paired at the floor of the new ratio. The top-up sends token0, never negative, of exactly the difference. |
| Liquidity.TopUpToken1 | src/dex/liquidity.py:290-295 | When the pool ratio fell, token0 stays at its balance and token1 is paired at the floor. The top-up sends token1, never negative, of exactly the difference. |
| Liquidity.DirectAddKeepsBalances | src/dex/liquidity.py:296-301 | Balances staged at the pool ratio are added as they are, with no send token and no send amount. |
| Liquidity.FreshDepositAtPoolRatio | src/dex/liquidity.py:250-261 | With nothing staged, the decision is `provide`, sent from token0's side with no extra amount. It raises exactly when the reserve of the kept side is zero. Otherwise token0's amount is kept and token1 is the floor of token0·r1/r0, or, when token0's amount is 0, token1's amount is kept and token0 is the floor of token1·r0/r1. Nothing requested pairs to nothing. |
| Liquidity.SecondAfterStagedToken0 | src/dex/liquidity.py:272-279 | With only token0 staged, token0 is its balance and token1 is paired at the floor of the pool ratio. The send token is token1 and there is no send amount. |
| Liquidity.ProvideSecondPairsRequestedAmount | src/dex/liquidity.py:264-271 | With only token1 staged, the decision as written pairs the requested token1 amount, not the staged balance, and then reports the staged balance as token1. |
| Liquidity.CompleteStagedSideAtPoolRatio | src/dex/liquidity.py:263-279 | The corrected completion keeps the staged side at its balance and pairs the other side at the floor of the pool ratio, for either side. It agrees with the source when token0 is the staged side. |
| Liquidity.SimulateCompleteProvideLiquidity | src/dex/liquidity.py:199-328 | Errors are only PoolNotFound or ZeroDivision, and no pool gives PoolNotFound. Without an LP account the result is the plain provide quote. |
| Liquidity.CompleteQuoteCarriesDecision | src/dex/liquidity.py:303-328 | With an LP account and positive reserves, the quote carries the decision's amounts, action, send token and send amount. The expected tokens are looked up in the pool's order, and the share lies in [0, 100]. |
| Liquidity.FirstPoolForPair | src/dex/liquidity.py:341-350 | A found pool is one of the wallet's pools and trades the pair. |
| Liquidity.FirstPoolForPairIsFirst | src/dex/liquidity.py:341-350 | None is found iff no pool trades the pair. Otherwise the found pool is the first that does. |
| Liquidity.FirstPoolForPairSymmetric | src/dex/liquidity.py:343-348 | The search does not depend on the order in which the pair is given. |
| Liquidity.FindPoolForPair | src/dex/liquidity.py:341-350 | The loop with its early exit returns the first pool trading the pair. |
| Liquidity.RemoveLiquidity | src/dex/liquidity.py:331-367 | There is no transaction exactly when no pool trades the pair. Otherwise there is one burn message of the LP amount from that pool's LP wallet, valid for ten minutes. |
| Liquidity.CreateProvideLiquidityMessage | src/dex/liquidity.py:20-51 | A TON deposit goes through proxy TON. The amount and the LP-out floor are carried. A jetton deposit names its token and the user's wallet, and never names raw TON as its partner. |
| Liquidity.ProvideLiquidityPairsDeposits | src/dex/liquidity.py:54-89 | Two messages deposit token0 and token1 with their amounts, and the pool receives each as its pooled token (TON as proxy TON). A jetton message names its partner in pooled form, while a proxy-TON message names the partner address as given. The transaction is valid for ten minutes. |
| Records.AssetWithSetsOneColumn | src/database/models/dex.py:62 | `setattr` on a column changes that column and no other. |
| Records.AssetUpdateAssignsWhitelisted | src/database/models/dex.py:45-62 | After `update`, a whitelisted column named by some kwarg holds the last such kwarg's value, and every other column is unchanged. So empty kwargs change nothing. |
| Records.AssetContractAddressNotWhitelisted | src/database/models/dex.py:46-58 | `contract_address` is not an updatable key. |
| Records.AssetDecimalsNotWhitelisted | src/database/models/dex.py:46-58 | `decimals` is not an updatable key. |
| Records.AssetKindNotWhitelisted | src/database/models/dex.py:46-58 | `kind` is not an updatable key. |
| Records.AssetIdentityColumnsFixed | src/database/models/dex.py:45-62 | An update never changes an asset's contract address, decimals or kind. |
| Records.AssetUpdateIdempotent | src/database/models/dex.py:60-62 | Applying the same kwargs twice leaves every column as applying them once. |
| Records.AssetUnknownKeysIgnored | src/database/models/dex.py:60-62 | Kwargs outside the whitelist have no effect. |
| Records.AssetDao.SetAttr | src/database/models/dex.py:62 | The object's row becomes the old row with that one column set. |
| Records.AssetDao.Update | src/database/models/dex.py:45-62 | The object's row becomes the specified update of the old row. |
| Records.PoolWithSetsOneColumn | src/database/models/dex.py:158 | `setattr` on a pool column changes that column and no other. |
| Records.PoolUpdateAssignsWhitelisted | src/database/models/dex.py:131-158 | After `update`, a whitelisted pool column named by some kwarg holds the last such value, and every other column is unchanged. |
| Records.PoolAddressNotWhitelisted | src/database/models/dex.py:132-154 | `address` is not an updatable pool key. |
| Records.PoolToken0AddressNotWhitelisted | src/database/models/dex.py:132-154 | `token0_address` is not an updatable pool key. |
| Records.PoolToken1AddressNotWhitelisted | src/database/models/dex.py:132-154 | `token1_address` is not an updatable pool key. |
| Records.PoolIdentityColumnsFixed | src/database/models/dex.py:131-158 | An update never changes a pool's address, token0 address or token1 address. |
| Records.PoolUpdateIdempotent | src/database/models/dex.py:156-158 | Applying the same kwargs twice equals applying them once. |
| Records.PoolUnknownKeysIgnored | src/database/models/dex.py:156-158 | Kwargs outside the pool whitelist have no effect. |
| Records.PoolDao.SetAttr | src/database/models/dex.py:158 | The object's row becomes the old row with that one column set. |
| Records.PoolDao.Update | src/database/models/dex.py:131-158 | The object's row becomes the specified update of the old row. |
| TonProof.ToBytes | src/auth/ton_proof.py:37 | `int.to_bytes(length, order)` succeeds exactly for 0 ≤ n < 256^length and raises Overflow otherwise. Its bytes have that length and read back as n in that order. |
| TonProof.BigRoundTrip | src/auth/ton_proof.py:21 | Big-endian bytes read back as the number they encode. |
| TonProof.HexRoundTrip | src/auth/ton_proof.py:23 | `bytes.hex()` has twice as many characters and decodes back to the bytes. |
| TonProof.ByteArray.Extend | src/auth/ton_proof.py:35-50 | `bytearray.extend` appends the bytes to the buffer. |
| TonProof.Payload | src/auth/ton_proof.py:17-23 | A payload exists exactly when the deadline fits in 8 bytes, and is then 32 hex characters. |
| TonProof.PayloadRoundTrip | src/auth/ton_proof.py:17-23 | The payload decodes to the 8 random bytes followed by the deadline in big-endian. |
| TonProof.GeneratePayload | src/auth/ton_proof.py:17-23 | The buffer-built payload is the payload of the random bytes and int(now + ttl). |
| TonProof.PayloadTtlOverstatesDeadline | src/api/v1/auth/auth.py:14 | With the TTL the auth endpoint passes, the deadline lands more than thirteen days ahead. |
| TonProof.PayloadDeadlineTwentyMinutes | src/auth/ton_proof.py:20 | With twenty minutes in seconds, the deadline lies in (now + 1199, now + 1200]. |
| TonProof.PrefixesSpellTheirText | src/auth/ton_proof.py:36-49 | The two byte constants are the character codes of "ton-proof-item-v2/" and "ton-connect". |
| TonProof.ProofMessage | src/auth/ton_proof.py:35-45 | The message exists exactly when the workchain and the domain length fit in 4 unsigned bytes and the timestamp in 8. Otherwise the error is Overflow. |
| TonProof.LayoutOffsets | src/auth/ton_proof.py:35-45 | The concatenated message has its prefix at 0..18, workchain at 18..22, hash at 22..54, length at 54..58, domain next, then 8 timestamp bytes and the payload. |
| TonProof.ProofMessageLayout | src/auth/ton_proof.py:35-45 | Each field of the message reads back from its offset, in little-endian for the numbers. The payload is the server's when given, else the proof's. |
| TonProof.BuildProofMessage | src/auth/ton_proof.py:35-45 | The buffer built by successive extends is the specified proof message. |
| TonProof.SignatureMessage | src/auth/ton_proof.py:47-50 | The signed message is 45 bytes: 0xFF 0xFF, "ton-connect", then sha256 of the proof message. |
| TonProof.BuildSignatureMessage | src/auth/ton_proof.py:47-50 | The buffer built by successive extends is the specified signed message. |
| TonProof.SignedWorkchain | src/auth/ton_proof.py:37 | The intended 4-byte signed big-endian workchain exists for every 32-bit workchain. |
| TonProof.StandardProofMessage | src/auth/ton_proof.py:35-45 | The message with the signed big-endian workchain exists for every 32-bit workchain, given the length and timestamp fit. |
| TonProof.MasterchainProofRaises | src/auth/ton_proof.py:37 | For a masterchain address (workchain −1) the message as written raises Overflow. |
| TonProof.StandardWorkchainRoundTrip | src/auth/ton_proof.py:37 | The signed big-endian encoding reads back as the workchain, and coincides with the source's encoding at workchain 0. |
| TonProof.StandardAgreesOnBasechain | src/auth/ton_proof.py:35-45 | For basechain addresses the corrected message equals the message as written. |
| TonProof.PackUnpack | src/auth/ton_proof.py:140 | Bytes stored bit by bit are read back by packing the bits, whatever follows them. |
| TonProof.Slice.ReadBit | src/auth/ton_proof.py:102-110 | Reading a bit consumes the first bit, and raises on an empty slice leaving it unchanged. |
| TonProof.Slice.ReadRef | src/auth/ton_proof.py:105-109 | Reading a reference returns the next one and advances the offset, and raises past the last. |
| TonProof.Slice.ReadUint | src/auth/ton_proof.py:139-151 | Reading a width consumes min(width, remaining) bits and returns their big-endian value. It raises when none remain. |
| TonProof.Slice.ReadBytes | src/auth/ton_proof.py:140-152 | Reading bytes consumes min(8·count, remaining) bits and returns them packed. |
| TonProof.DataKey | src/auth/ton_proof.py:129-158 | Unknown versions give no key. A known version raises exactly when the data ends inside its 32-bit fields. A key is at most 64 hex characters. |
| TonProof.DataKeyReadsStoredKey | src/auth/ton_proof.py:135-158 | A data cell holding as many 32-bit fields as the code reads, one (v2, highload v2) or two (v3, v4), then a 32-byte key, yields that key in hex. This is how v2, v3 and v4 wallets store their data; for highload v2 it is only the layout the code assumes. |
| TonProof.HighloadKeyMisread | src/auth/ton_proof.py:150-152 | On a highload v2 data cell as the wallet stores it (32-bit subwallet id, 64-bit `last_cleaned`, key), the key returned is 32 bytes beginning with the `last_cleaned` bytes, so it differs from the stored key whenever those differ from the key's first 8 bytes. |
| TonProof.StoredFieldWidths | src/auth/ton_proof.py:135-152 | The stored fields before the key: the widths the code reads for v2, v3 and v4, and 32 + 64 bits for highload v2. The versions with a layout are those the code handles. |
| TonProof.SkipFields | src/auth/ton_proof.py:139-151 | One `read_uint` per width leaves a suffix of the bits, and only an empty slice at a read raises, as Malformed. |
| TonProof.StoredDataKey | src/auth/ton_proof.py:129-158 | The key read after the stored fields: None for versions without a layout, Malformed as the only error, at most 64 hex characters. |
| TonProof.StoredDataKeyReadsStoredKey | src/auth/ton_proof.py:129-158 | Every handled version's data cell, laid out as the wallet stores it, yields the stored key, highload v2 included. |
| TonProof.StoredDataKeyAgreesBesidesHighload | src/auth/ton_proof.py:135-156 | Outside highload v2 the corrected reading returns what the code returns, on every data cell. |
| TonProof.KeyFromData | src/auth/ton_proof.py:129-158 | The slice-cursor extraction returns the specified key. |
| TonProof.KeyAfterOneField | src/auth/ton_proof.py:139-152 | Reading the one 32-bit field the code assumes (`seqno` of a v2 wallet, `subwallet_id` of a highload v2 wallet) and then the rest gives the specified key, or raises when no bits remain. |
| TonProof.KeyAfterTwoFields | src/auth/ton_proof.py:147-149 | Reading the two 32-bit fields of a v3 or v4 wallet and then the rest gives the specified key, or raises when a field finds no bits. |
| TonProof.KeyFromRest | src/auth/ton_proof.py:140 | Reading `len(data_slice)` bytes takes every remaining bit, and the key is their packing cut to 32 bytes, in hex. |
| TonProof.KeyAfterFields | src/auth/ton_proof.py:140 | Once the fields are skipped, the rest of the slice packed, cut to 32 bytes and written in hex is the specified key. |
| TonProof.StateInitKey | src/auth/ton_proof.py:98-126 | A StateInit parse can only fail as Malformed. |
| TonProof.WellFormedStateInitKey | src/auth/ton_proof.py:98-126 | A StateInit laid out as a wallet builds it yields its data cell's key under its code's version, and None for unknown code. |
| TonProof.NoCodeNoKey | src/auth/ton_proof.py:104-107 | Without the code bit there is no key. |
| TonProof.NoDataNoKey | src/auth/ton_proof.py:108-113 | With code but without the data bit there is no key. |
| TonProof.GetPublicKeyFromStateInit | src/auth/ton_proof.py:98-126 | The slice-cursor parse returns the specified StateInit key. |
| TonProof.ResolvedKey | src/auth/ton_proof.py:52-61 | The wallet's own key, when the lookup returns one, is the key checked against. |
| TonProof.AcceptedExactlyWhenSignatureVerifies | src/auth/ton_proof.py:26-77 | A proof is accepted iff all of these hold: the message is built, a key is resolved, any claimed key equals it, and the signature over sha256 of the signed message verifies. |
| TonProof.ClaimedKeyMismatchRejects | src/auth/ton_proof.py:63-64 | A claimed key that differs from the resolved one rejects the proof without a signature check. |
| TonProof.WalletKeyOverridesStateInit | src/auth/ton_proof.py:52-61 | When the wallet's key is known, the verdict does not depend on the StateInit. |
| TonProof.CheckTonProof | src/auth/ton_proof.py:26-77 | The method's outcome is the specified verdict. |
| Jwt.SignedClaims | src/auth/jwt.py:16-20 | The signed claims carry the user's id and address and expire 7200 seconds after now. |
| Jwt.DecodeJwt | src/auth/jwt.py:31-42 | A token is live iff it decodes with expires ≥ now, expired iff it decodes with expires < now, and undecodable iff decoding raises. A live result carries the decoded claims. |
| Jwt.UpdateTokenIfNeeded | src/auth/jwt.py:45-59 | A token that is not live gives None, and only a live token can raise. |
| Jwt.RefreshExactlyNearExpiry | src/auth/jwt.py:53-59 | A live token with at least an hour left is returned unchanged. With less than an hour left it is reissued for the same user id and address. |
| Jwt.ReissuedTokenKeepsUser | src/auth/jwt.py:53-57 | With a round-tripping codec the reissued token decodes to the same user, expiring two hours from now. |
| Jwt.TokenLifecycle | src/auth/jwt.py:12-59 | A token is kept during its first hour, reissued during its second, and refused afterwards. |
| Assets.StrLessTotal | src/api/v1/dex/assets.py:19 | Python string order relates any two different strings. |
| Assets.StrLessTransitive | src/api/v1/dex/assets.py:19 | Python string order is transitive. |
| Assets.SortedBySorts | src/api/v1/dex/assets.py:9 | The specified sort is ordered under a strict weak order. |
| Assets.SortedByPermutes | src/api/v1/dex/assets.py:9 | The specified sort is a permutation of its input. |
| Assets.SortedByStable | src/api/v1/dex/assets.py:19 | Elements that compare level keep their input order. |
| Assets.SortInPlace | src/api/v1/dex/assets.py:19 | The in-place sort leaves the array holding the specified sort of its old contents. |
| Assets.InsertAt | src/api/v1/dex/assets.py:19 | Shifting one element into the sorted prefix gives the specified insertion and leaves the suffix alone. |
| Assets.SymbolOrder | src/api/v1/dex/assets.py:19 | Ordering by symbol is a strict weak order. |
| Assets.FromAssetDao | src/dex/models/asset.py:57-65 | The export of an asset record carries its symbol and contract address, with no balance and no wallet address. |
| Assets.ListedExportsExactly | src/api/v1/dex/assets.py:20-36 | Every export is the projection of a listed asset, and every listed asset is exported. |
| Assets.ConfiguredContractsAlwaysListed | src/api/v1/dex/assets.py:28-35 | An asset with a configured contract address is listed even if blacklisted, community or deprecated. |
| Assets.ListedExportsKeepSymbolOrder | src/api/v1/dex/assets.py:19-36 | Filtering a symbol-sorted list keeps the exports in symbol order. |
| Assets.GetAssetsEndpoint | src/api/v1/dex/assets.py:17-36 | The fetched list is left sorted by symbol in place, and the result is the listed exports of it. |
| Assets.AssetsEndpointOrderedAndComplete | src/api/v1/dex/assets.py:17-36 | The endpoint's result is ordered by symbol, no longer than its input, and holds exactly the projections of the listed assets. |
| Assets.BalanceOrder | src/api/v1/dex/assets.py:9 | Ordering by descending balance is a strict weak order. |
| Assets.FromWalletAsset | src/dex/models/asset.py:44-54 | The export of a wallet asset carries its balance, wallet address, symbol and contract address. |
| Assets.BalanceExportsExactly | src/api/v1/dex/assets.py:10-14 | Every export is the projection of a non-blacklisted asset, and every non-blacklisted asset is exported. |
| Assets.BalanceExportsKeepOrder | src/api/v1/dex/assets.py:9-14 | Filtering a balance-sorted list keeps the exports in descending balance. |
| Assets.GetBalancesEndpoint | src/api/v1/dex/assets.py:7-14 | The fetched list is left sorted by descending balance in place, and the result is its non-blacklisted exports. |
| Assets.BalancesEndpointOrderedAndComplete | src/api/v1/dex/assets.py:7-14 | The endpoint's result is in descending balance, no longer than its input, and holds exactly the projections of the non-blacklisted assets. |

## Left out

- Floating point: quotes, ratios and the ratio comparison in `simulate_complete_provide_liquidity` are exact reals, so float rounding drift is not modelled. `int()` is truncation toward zero.
- Pool and LP-account lookups, `get_pool_data`, `get_lp_account_data` and `get_expected_tokens` are parameters. The SQL behind the lookups and the RPC behind the router are not modelled.
- Router and cell building (`build_swap_*`, `build_provide_liquidity_*`, `build_burn_tx_params`): messages are datatypes naming the addresses and amounts passed to the router. The cell bits are not modelled.
- `swap`'s account lookup and the recording of the transaction with its query id are I/O. The query id is a parameter.
- `complete_provide_liquidity` and `complete_provide_liquidity_activate`: single router calls wrapped in a ten-minute transaction, with no decision of their own.
- Clocks and randomness: `time.time()`, `datetime.now()` and `random(8)` are parameters. The three clock reads of the token refresh are taken as one instant.
- `sha256`, ed25519 verification, base64, `Cell.one_from_boc`, `Address` parsing and `bytes_hash` are parameters. `src/ton/wallets_codes.py` is not part of this model; the code-to-version table is the `versionOf` parameter.
- `get_wallet_public_key` is an RPC; its answer is the `walletKey` parameter, None also when it raised.
- Strings that the source UTF-8-encodes (the domain, the payloads) are taken as their bytes.
- tonsdk's `Slice` is taken as this model's cursor: reads past the end raise, `len` counts the remaining bits, and `read_bytes` packs the bits it takes. A `Cell` object is taken as always truthy, so the source's `if not code_cell` tests only presence.
- Sorting: Python's Timsort is modelled by a stable insertion sort. It is proved sorted, a permutation and stable, which fixes its output to Timsort's.
- Swap.ReverseFeeUnits: a zero protocol or referral rate is a ZeroDivisionError in the source. The model reports it as the ZeroDivision error of the simulation and states the figure's sign only for a positive rate.
- Column types of the records are not checked on assignment, as `setattr` does not check them either: values are untyped `Value`s.
- The pool object holds its columns in one map-valued field rather than one field per column; each `setattr` still changes only its column.
- Web plumbing, middlewares, schemas, configuration loading, the periodic background scheduler and persistence sessions are not part of this model.

## Findings

The operation members (`Swap.SwapSimulateRequest.SimulateSwapReverse`, `Liquidity.SimulateCompleteProvideLiquidity`, `TonProof.CheckTonProof`, `TonProof.GeneratePayload` with the endpoint's TTL, `TonProof.DataKey`) follow the code as written. The corrected definitions stand beside them with their intended property proved.

| source | as written | input that shows it | evidently intended | confidence | as-written member | corrected member |
|---|---|---|---|---|---|---|
| src/dex/swap.py:186-187 | The reverse quote refuses only a request above the output reserve. | units equal to the oriented output reserve: the guard passes and `calculate_in_amount` divides by zero. | Refuse unless the request is strictly below the reserve. | not executed | Swap.ReverseGuardAdmitsWholeReserve | Swap.SufficientLiquidityQuotes |
| src/dex/liquidity.py:264-268 | With only token1 staged, token0 is paired from the requested token1 amount. | Reserves 1000/1000, staged (0, 100), requested token1 5: the decision pairs token0 = 5 with token1 = 100. | Pair token0 with the staged token1 balance at the pool ratio. | not executed | Liquidity.ProvideSecondPairsRequestedAmount | Liquidity.CompleteStagedSideAtPoolRatio |
| src/auth/ton_proof.py:37 | The workchain is written with unsigned little-endian `to_bytes(4, "little")`. | A masterchain address (workchain −1): `to_bytes` raises OverflowError. | TON Connect's layout writes the workchain as a 32-bit signed big-endian integer. | not executed | TonProof.MasterchainProofRaises | TonProof.StandardWorkchainRoundTrip |
| src/api/v1/auth/auth.py:14 | `PAYLOAD_TTL` is twenty minutes in milliseconds, added to a timestamp in seconds. | Any `now`: the payload deadline is 1 200 000 s ahead, over thirteen days. | Twenty minutes in seconds, 1200. | not executed | TonProof.PayloadTtlOverstatesDeadline | TonProof.PayloadDeadlineTwentyMinutes |
| src/auth/ton_proof.py:150-152 | A highload v2 wallet's key is read after one 32-bit field. | A highload v2 data cell (subwallet id, 64-bit `last_cleaned`, key) whose `last_cleaned` is not the key's first 8 bytes: the key returned starts with the `last_cleaned` bytes. | Skip the subwallet id and `last_cleaned` (96 bits) before the key, as the highload wallet v2 contract stores them. | not executed | TonProof.HighloadKeyMisread | TonProof.StoredDataKeyReadsStoredKey |
