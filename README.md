# Transaction normalisation core, modelled in Dafny

This project models the transaction-normalisation core of the wallet
operations repository, `packages/core/src/index.ts`. The core takes raw,
loosely typed provider records (Moralis wallet history) and does four things:

- it classifies each record into an operation type with an ordered list of
  substring rules over its category, falling back on its direction;
- it pulls the hash, the timestamp candidate, the USD value and a
  direction-based token guess out of whichever alternate field name is filled;
- it maps every record, in order, to one canonical `NormalizedTransaction`,
  where explicit token and amount fields take precedence over the guess;
- it filters the canonical records for USDC-to-WBTC swaps, recognising each
  token through a small alias table.

The source is pure: expressions, `||` fallback chains, `.map` and `.filter`.
The model is pure too, with functions over `seq` and `map` and lemmas about them.

Modules:

- `JsText`: the JavaScript string operations the core uses, restricted to
  ASCII. These are `trim`, `toLowerCase`, `toUpperCase` and `includes`.
- `JsArray`: `Array.prototype.filter` and its properties.
- `JsValue` and `Raw`: field values (`Str` or `Num`), `String(v)`,
  truthiness, `||`, and the raw record as a `map<string, Value>`. A missing
  key is `undefined`.
- `Extract`: `normalizeTokenSymbol`, `extractHash`, the timestamp candidate
  and `extractTimestamp`, `guessTokensFromDirection` and `resolveValueUSD`.
- `Classify`: `detectOperationType`, and its equivalence with a priority
  table of rules.
- `Normalize`: `NormalizedTransaction` and `normalizeTransactions`.
- `Swaps`: `TOKEN_NORMALIZATION`, `isTokenMatch` and `extractUsdcToWbtcSwaps`.
- `Fixture`: a four-record history shaped like the one that
  `packages/core/__tests__/normalize.test.ts` normalises. It comes with the
  facts that the test expects, proved about the model.

Modelling choices:

- A JavaScript number is represented by the text `String(n)` renders it as.
  The core only renders numbers, tests their truthiness and passes them on.
- The interface declares `category`, `asset`, `token_symbol`, `token_in`,
  `token_out` and `protocol_name` as strings, and the code casts them
  `as string`. Every operation that reads them therefore requires
  `Conforming(tx)`: each of these fields is a string or absent.
- `Date` parsing followed by `toISOString` is the parameter `toIso`.
  The wall-clock reading taken when record `i` is normalised is the
  parameter `now(i)`.

One edge case is worth stating. `normalizeTokenSymbol` maps a non-empty
all-whitespace string to `""`: such a string is truthy, so it is trimmed
rather than dropped (`packages/core/src/index.ts:50-51`). The model follows
the code (`Extract.BlankSymbolIsEmpty`) and states idempotence for every
other input.

## Model

| member | source | states |
|---|---|---|
| Extract.NormalizeTokenSymbol | packages/core/src/index.ts:49-52 | undefined exactly when the input is undefined or ""; otherwise the trimmed input in upper case: it has no lower-case letter, no whitespace at either end, and lower-cases to the lower-cased trimmed input |
| Extract.NormalizeTokenSymbolIdempotent | packages/core/src/index.ts:49-52 | canonicalising a canonical symbol changes nothing, except for the blank case |
| Extract.BlankSymbolIsEmpty | packages/core/src/index.ts:49-52 | a non-empty all-whitespace symbol canonicalises to "" and not to undefined |
| Extract.NormalizeTokenSymbolCaseInsensitive | packages/core/src/index.ts:49-52 | any two symbols that agree up to letter case canonicalise alike |
| Extract.NormalizeTokenSymbolExamples | packages/core/src/index.ts:49-52 | " usdc ", "Usdc" and "USDC" give "USDC"; "" and undefined give undefined |
| Extract.FirstNonEmptyString | packages/core/src/index.ts:54-61 | the value of the first listed field holding a non-empty string, which earlier fields do not; undefined exactly when no field does |
| Extract.ExtractHash | packages/core/src/index.ts:54-61 | `hash`, else `tx_hash`, else `transaction_hash`, each only as a non-empty string; "" exactly when none qualifies |
| Extract.ExtractHashIsFirstNonEmpty | packages/core/src/index.ts:54-61 | the hash is the shared first-non-empty rule over the three hash fields, "" in place of undefined |
| Extract.TimestampCandidate | packages/core/src/index.ts:64-68 | `block_timestamp`, else `block_time`, else `timestamp`, each only as a non-empty string; undefined exactly when none qualifies |
| Extract.TimestampCandidateIsFirstNonEmpty | packages/core/src/index.ts:64-68 | the timestamp candidate is the shared first-non-empty rule over the three timestamp fields |
| Extract.ExtractTimestamp | packages/core/src/index.ts:63-71 | the date parser is applied to the candidate, or to the current instant when there is none |
| Extract.GuessedAsset | packages/core/src/index.ts:74 | canonical `asset` when it is a non-empty string, else canonical `token_symbol` |
| Extract.GuessedAmount | packages/core/src/index.ts:75 | defined exactly when `amount` is defined, and then `String(amount)`: the string itself or the number's text |
| Extract.DirectionText | packages/core/src/index.ts:79 | `String(direction)` in lower case: it has no upper-case letter and upper-cases to the upper-cased direction, with the same length |
| Extract.IsInbound | packages/core/src/index.ts:83 | the record has a truthy direction whose lower-cased text is "receive" or "in" |
| Extract.GuessTokensFromDirection | packages/core/src/index.ts:73-87 | never fills both sides; a lower-cased direction of "receive" or "in" puts asset and amount on the out side; every other direction, and a missing or empty one, puts them on the in side |
| Extract.DirectionCaseInsensitive | packages/core/src/index.ts:79-85 | two records whose direction strings agree up to case, and which agree on asset, token_symbol and amount, get the same guess |
| Extract.ResolveValueUSD | packages/core/src/index.ts:89-93 | `usd_value` if it is a number, else `value_usd` if it is a number, else undefined; strings are ignored |
| Classify.CategoryText | packages/core/src/index.ts:96 | the category in lower case: it has no upper-case letter and upper-cases to the upper-cased category; "" when the record has no category |
| Classify.OperationType | packages/core/src/index.ts:1-8 | the seven operation types swap, transfer, approve, borrow, repay, liquidity and unknown |
| Classify.DetectOperationType | packages/core/src/index.ts:95-105 | with no category, transfer exactly when the direction is truthy and unknown otherwise; unknown only when the direction is falsy |
| Classify.ClassifyWith | packages/core/src/index.ts:96-104 | classification by an ordered rule list gives the first matching rule's type; when no rule matches, it gives transfer if there is a direction and unknown otherwise |
| Classify.DetectFollowsRuleTable | packages/core/src/index.ts:96-104 | detectOperationType equals classification by the priority list swap/dex, transfer, approve/approval, borrow, repay, liquidity/lp |
| Classify.DetectOperationTypeCases | packages/core/src/index.ts:96-104 | each of the seven results holds exactly when the rules before it fail and its own rule (or the direction fallback) holds, in both directions |
| Classify.SwapInAnyLetterCase | packages/core/src/index.ts:96-97 | "swap" or "dex" in any letter case anywhere in the category makes the record a swap |
| Classify.DetectReadsCategoryAndDirection | packages/core/src/index.ts:95-105 | records that agree on category and direction get the same type, whatever their other fields |
| Classify.RuleMatchesPair | packages/core/src/index.ts:97 | a two-word rule matches exactly when the category contains either word |
| Classify.RuleMatchesSingle | packages/core/src/index.ts:98 | a one-word rule matches exactly when the category contains the word |
| Normalize.NormalizedTransaction | packages/core/src/index.ts:32-42 | the canonical record: timestamp, type (named `opType`, since `type` is a Dafny keyword), optional tokens and amounts on both sides, optional USD value and protocol, and the hash |
| Normalize.NormalizeTransaction | packages/core/src/index.ts:110-132 | the record's type is detectOperationType's, its hash extractHash's, its timestamp extractTimestamp's and its USD value resolveValueUSD's |
| Normalize.NormalizeTransactions | packages/core/src/index.ts:107-133 | the output has the input's length, and element i is the normalisation of input i alone |
| Normalize.NormalizeConcat | packages/core/src/index.ts:110 | the output for a + b is the output for a followed by b's records normalised in their own positions, so order is kept and nothing is dropped or merged |
| Normalize.TokenInPrecedence | packages/core/src/index.ts:113-116 | tokenIn is canonical `token_in`, else canonical `token_symbol`, else the guessed in-side token |
| Normalize.TokenOutPrecedence | packages/core/src/index.ts:117 | tokenOut is canonical `token_out`, else the guessed out-side token |
| Normalize.AmountPrecedence | packages/core/src/index.ts:118-119 | amountIn and amountOut are `String(amount_in)` and `String(amount_out)` whenever those fields are defined, else the guess |
| Normalize.ProtocolIsNonEmptyName | packages/core/src/index.ts:129 | the protocol is defined exactly when `protocol_name` is a non-empty string, and it is then that string |
| Normalize.OutboundGuessFillsInSide | packages/core/src/index.ts:76-86 | without explicit token or amount fields, a record that is not inbound has its asset and amount on the in side only |
| Normalize.InboundGuessFillsOutSide | packages/core/src/index.ts:83-84 | without explicit token or amount fields, an inbound record has its asset and amount on the out side only |
| Normalize.InboundTokenSymbolFillsBothSides | packages/core/src/index.ts:74-116 | an inbound record whose only symbol is `token_symbol` gets it as both tokenIn and tokenOut |
| Normalize.NormalizeIgnoresOtherFields | packages/core/src/index.ts:10-30 | two records that agree on every recognised field normalise identically |
| Swaps.TokenNormalization | packages/core/src/index.ts:44-47 | USDC has the aliases "usdc" and "usd-coin"; WBTC has "wbtc", "wrapped-btc" and "wrapped-bitcoin" |
| Swaps.AliasTableShape | packages/core/src/index.ts:44-47 | each canonical symbol's lower-case form is one of its aliases, and no alias is empty |
| Swaps.IsTokenMatch | packages/core/src/index.ts:135-140 | a token matches exactly when it is defined and its trimmed, lower-cased form is one of the canonical symbol's aliases |
| Swaps.UsdcSpellingsMatch | packages/core/src/index.ts:135-140 | " usdc ", "Usdc" and "USDC" match USDC |
| Swaps.IsUsdcToWbtcSwap | packages/core/src/index.ts:146 | a record is kept exactly when it is a swap, its tokenIn trimmed and lower-cased is an alias of USDC, and its tokenOut is one of WBTC |
| Swaps.ExtractUsdcToWbtcSwaps | packages/core/src/index.ts:142-148 | the output is no longer than the input; what it holds is stated by `Swaps.ExtractUsdcToWbtcSwapsExact` |
| Swaps.ExtractUsdcToWbtcSwapsExact | packages/core/src/index.ts:142-148 | the output holds only USDC-to-WBTC swaps and every one of the input's, each as often as in the input, as a subsequence of the input |
| Swaps.ExtractIdempotent | packages/core/src/index.ts:142-148 | filtering twice equals filtering once |
| Swaps.ExtractConcat | packages/core/src/index.ts:145 | filtering a + b is filtering a, then b, and concatenating |
| Swaps.ExplicitUsdcToWbtcSwapIsKept | packages/core/src/index.ts:113-117 | a swap-category record whose `token_in` and `token_out` are aliases of USDC and WBTC, in any case and padding, normalises to a record the filter keeps |
| Swaps.SwapsOfBatch | packages/core/src/index.ts:107-148 | a record is among the extracted swaps of a normalised batch exactly when it is a USDC-to-WBTC swap normalised from some input record |
| JsArray.FilterExact | packages/core/src/index.ts:145 | `filter` keeps exactly the elements satisfying the predicate, with their multiplicities, in order |
| JsText.TrimShape | packages/core/src/index.ts:51 | the trimmed string is the slice of the input that starts right after its leading whitespace, and every character after that slice is whitespace |
| JsText.TrimIdempotent | packages/core/src/index.ts:51 | trimming a trimmed string changes nothing |
| JsText.TrimUpperCommute | packages/core/src/index.ts:51 | trimming and upper-casing commute |
| Fixture.HistoryOperationTypes | packages/core/__tests__/normalize.test.ts:8-11 | the four records classify as swap, transfer, approve and swap |
| Fixture.FirstRecordNormalized | packages/core/__tests__/normalize.test.ts:13-20 | the first record has its block timestamp, hash "0xswap1", tokens USDC and WBTC, and protocol "Uniswap V3" |
| Fixture.TransferNormalized | packages/core/__tests__/normalize.test.ts:22-27 | the received transfer has type transfer, tokenOut "ETH" and amountOut "0.5" |
| Fixture.HistorySwaps | packages/core/__tests__/normalize.test.ts:29-34 | exactly one swap is extracted, with hash "0xswap1" and amountIn "1500" |

## Left out

- `Date` parsing, `toISOString` and `new Date()` are the parameters `toIso` and `now`. Invalid dates (which make `toISOString` throw) are not modelled.
- Fixture.FirstRecordNormalized: requires that `toIso` gives back `2024-05-14T12:00:00.000Z` unchanged, since the model has no date parser (Fixture.SwapIdentity likewise).
- Number formatting: a number is given by its `String(n)` text, and no arithmetic is done on it. `valueUSD` is passed through as that value.
- JSON booleans, `null`, objects and arrays as field values are not modelled. Every field is a string or a number.
- Letter case and whitespace are ASCII only. Unicode case mapping and the full `trim` whitespace set are not modelled.
- The model does not cover non-string values in `category`, `asset`, `token_symbol`, `token_in`, `token_out` or `protocol_name`. Where the code would throw on such a value, or pass a number on as `protocol`, the model requires `Conforming` instead.
- The fixture file `packages/core/__tests__/fixtures/moralisHistory.json` is not part of this model. `Fixture` builds records that carry the fields the test's expectations read.
- The HTTP handlers, the cache and the web page under `apps/` are not part of this model. They are I/O and UI over this core.
- Determinism and totality of `detectOperationType` hold for every Dafny function and are not stated separately.
- No pairing of tokens with amounts is claimed: an explicit `token_in` without `amount_in` leaves the two sides unpaired, as in the code.
