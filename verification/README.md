# Xguard-Xion wallet resolver, in Dafny

Xguard-Xion looks up a Xion wallet. It checks the address shape, then races
probes against several REST endpoints of the chain. A circuit breaker sits
in front of each endpoint. The first endpoint that answers becomes the
wallet snapshot: liquid, spendable, staked and unbonding amounts in uxion,
a balance table, and the transaction count. The `/validate` page adds a
fallback: when the snapshot looks empty, the balance is read from a
scraped explorer page instead. Around this core sit a risk score, a per-IP
rate limiter and a collector of real-world-asset records that removes
duplicates by id.

The model is pure and functional:

- Decoded JSON is a `Json` datatype.
- A Python expression that may raise gives a `Py<T>` (`Returns(v)` or
  `Raises`).
- HTTP replies are given values. `None` stands for `_get_json`
  answering `None`; a body that decodes to `null` is given as `None`
  too, since `_get_json` then returns `None`.
- The clock is a parameter `now`.
- The order in which the probe tasks complete is a parameter `order`:
  any permutation of the endpoints the breaker lets through.
- Amounts are unbounded integers in minor units (uxion).

Modules, one per concern:

| module | file | models |
|---|---|---|
| `Base` | base.dfy | `Option`, `Py`, integer sums |
| `Text` | text.dfy | `str.strip`, `str.lower`, `split`, `in`, `replace`, `isdigit`, `int(str)` |
| `Json` | json.dfy | truthiness, `dict.get`, iteration, `in`, `int(...)` |
| `Address` | address.dfy | `validate_wallet_address` |
| `Endpoints` | endpoints.dfy | `XION_NETWORK`, `DEFAULT_ENDPOINTS`, the `XION_API_ENDPOINTS` override |
| `Breaker` | breaker.dfy | `_cb_blocked`, `_cb_trip`, the dispatch filter |
| `Shapes` | shapes.dfy | `_fetch_first_ok`, `_parse_balances_shape` |
| `Sums` | sums.dfy | `_sum_coin_list`, `_sum_delegations`, `_sum_unbonding`, `get_all_balances` |
| `TxCount` | txcount.dfy | `_fetch_tx_count` |
| `Probe` | probe.dfy | `_probe_endpoint` |
| `Resolver` | resolver.dfy | `get_wallet_info` and the race |
| `Risk` | risk.dfy | `calculate_risk_score`, and scoring the resolver's answer |
| `Handler` | handler.dfy | `validate_html`: the short-circuit, the explorer fallback, the page fields |
| `RateLimit` | ratelimit.dfy | `rate_limiter`, `rotate_endpoints` |
| `Rwa` | rwa.dfy | `get_rwa_assets`: collection and de-duplication |

The page shows the resolver's `anomaly` unchanged (xion_handler.py:54),
even when the explorer balance replaces the zero: see `Handler.ValidateHtml`
and `Handler.ExplorerBalanceShown`.

`Resolver.Resolve` and `Handler.ValidateHtml` check the address with the
pattern as written, which also lets through a valid address followed by one
newline. `Resolver.ResolveIntended` and `Handler.ValidateHtmlIntended` are
the same operations with the intended check (see "## Findings").

## Model

| member | source | states |
|---|---|---|
| Address.ValidAddressShape | xion_client.py:12-15 | the intended check accepts a text iff it is 25 to 95 characters long, starts with `xion1`, and every later character is a digit or a lower-case ASCII letter |
| Address.AsWrittenAdmitsTrailingNewline | xion_client.py:12-15 | the written pattern accepts exactly the intended addresses, plus each of them followed by one `"\n"` |
| Address.TrailingNewlineCounterexample | xion_client.py:12-15 | `"xion1" + 20×"q" + "\n"` passes the written pattern and fails the intended check |
| Endpoints.DefaultEndpoints | xion_client.py:21-36 | the default list is always one of the two built-in lists |
| Endpoints.BuiltInListsNamed | xion_client.py:24-34 | both built-in lists are non-empty and hold no empty URL |
| Endpoints.KeepNonEmpty | xion_client.py:40 | the filter `if e.strip()` keeps every non-empty item as often as it occurs, and drops every empty one |
| Endpoints.KeepNonEmptyAppend | xion_client.py:40 | the filter keeps the items in their order: filtering a concatenation concatenates the filtered parts |
| Endpoints.StrippedItemOrigin | xion_client.py:40 | every override item is the stripped form of some comma-separated piece |
| Endpoints.StrippedItemsStripped | xion_client.py:40 | override items carry no surrounding whitespace |
| Endpoints.StrippedItemsCommaFree | xion_client.py:39-40 | pieces without commas give items without commas |
| Endpoints.StrippedItemsNonEmpty | xion_client.py:40 | the override list is non-empty iff some piece is more than whitespace |
| Endpoints.OverrideItems | xion_client.py:39-40 | override items are non-empty, comma-free and stripped |
| Endpoints.SelectEndpoints | xion_client.py:38-40 | the endpoint list is never empty and holds no empty URL, whatever the environment says |
| Endpoints.SplitHasVisible | xion_client.py:39-40 | some comma-separated piece is visible iff the text holds a character that is neither a comma nor whitespace |
| Endpoints.StripHasVisible | xion_client.py:39 | stripping the whole override first changes nothing about that |
| Endpoints.OverrideWinsIff | xion_client.py:38-40 | the override replaces the default list iff it holds a character that is neither a comma nor whitespace; otherwise the default list is used |
| Endpoints.OverrideSplitLosesNothing | xion_client.py:39-40 | joining the comma pieces gives back the stripped override |
| Endpoints.UnsetFlagIsMainnet | xion_client.py:21 | an unset `XION_NETWORK` reads as `"mainnet"` |
| Endpoints.UnsetSelectsMainnet | xion_client.py:21-40 | with neither variable set, the mainnet list is used |
| Endpoints.PaddedUpperCaseFlagIsMainnet | xion_client.py:21 | `" MainNet\n"` is normalised to `"mainnet"` |
| Endpoints.EmptyFlagSelectsTestnet | xion_client.py:21-36 | an empty `XION_NETWORK` selects the testnet list: any value other than "mainnet" does |
| Text.StripBounds | xion_client.py:21 | `strip()` returns a slice of its input with only whitespace cut off at both ends |
| Text.StripEmptyIff | xion_client.py:40 | `strip()` is empty iff the text is all whitespace |
| Text.StripIdempotent | xion_client.py:39-40 | stripping twice is stripping once |
| Text.JoinSplit | xion_client.py:39-40 | `split(",")` loses no character: joining the pieces restores the text |
| Text.ParseIntShowInt | xion_client.py:123 | `int(str(n))` is `n` for every integer (CPython's 4300-digit conversion limit is not modelled; see Left out) |
| Json.Iterate | xion_client.py:120 | iteration succeeds exactly on lists, strings and dicts; it is empty iff the value is falsy; a string or dict yields strings |
| Json.GetOr | xion_client.py:121 | `.get` succeeds exactly on dicts |
| Json.In | xion_client.py:179 | `in` succeeds exactly on lists, strings and dicts |
| Json.NonNumericTextRejected | xion_client.py:123 | `int("None")`, `int("True")` and `int("False")` raise, so a missing or boolean amount adds nothing |
| Json.IntOfStrOfInteger | xion_client.py:123 | an amount string printed from an integer reads back as that integer |
| Breaker.Trip | xion_client.py:51-52 | a trip blocks the endpoint until exactly `now + seconds` and leaves every other endpoint's entry as it was |
| Breaker.NeverTrippedIsOpen | xion_client.py:48-49 | an endpoint never tripped is not blocked |
| Breaker.TripIsolated | xion_client.py:46-52 | tripping one endpoint never changes whether another is blocked |
| Breaker.OpenStaysOpen | xion_client.py:48-49 | an endpoint that is not blocked now is not blocked later |
| Breaker.EligibleIndices | xion_client.py:272-273 | the dispatched endpoints are exactly the unblocked ones, in list order |
| Breaker.AllBlockedNoneEligible | xion_client.py:272-273 | when every endpoint is blocked, nothing is dispatched |
| Shapes.FetchFirstOk | xion_client.py:91-96 | the answer is the first non-`None` reply, or `None` iff all replies are `None` |
| Shapes.ParseBalancesShape | xion_client.py:99-112 | a dict whose `"balances"` is a list gives that list; else a dict whose `"balances"` is a dict with a list under `"balances"` gives that inner list; anything accepted sits in one of those two places |
| Shapes.NodeReplyShape | xion_client.py:99-108 | a node reply `{"balances": [...], "pagination": ...}` with any further members gives its list |
| Shapes.ParseBalancesShapeRoundTrip | xion_client.py:99-112 | both accepted shapes decode to the list they carry |
| Shapes.ParseBalancesShapeRejects | xion_client.py:104-112 | a non-dict, or a `"balances"` that is neither a list nor a dict, is rejected |
| Sums.LoopItems | xion_client.py:120 | `for x in (container.get(key) or [])` raises iff the container is not a dict or the member is truthy and not iterable; a missing member visits nothing and a list visits its items |
| Sums.CoinTotal | xion_client.py:118-126 | summing coins raises iff some coin is not a dict |
| Sums.CoinTotalIsSumOfMatching | xion_client.py:118-126 | the total is the sum of the amounts of the coins whose denom matches; unparsable amounts count 0 |
| Sums.CoinTotalAppend | xion_client.py:118-126 | the total over two lists is the sum of their totals |
| Sums.CoinTotalOfRecords | xion_client.py:118-126 | coin records built from amounts of the right denom total the sum of those amounts |
| Sums.SumCoinListOfRecords | xion_client.py:118-126 | the same through `container.get("balances")` |
| Sums.OtherDenomAddsNothing | xion_client.py:121 | appending a coin of another denom leaves the total unchanged |
| Sums.SumDelegations | xion_client.py:128-135 | summing delegations raises iff the reply is not a dict, or its responses are truthy but not iterable |
| Sums.DelegationRecordAmount | xion_client.py:132 | a delegation record yields the amount it was built with |
| Sums.DelegationsOfRecords | xion_client.py:128-135 | delegation records total the sum of their amounts |
| Sums.SumDelegationsValue | xion_client.py:128-135 | for every reply: summing delegations raises iff its loop cannot start, and otherwise equals the sum of the readable amounts of the responses; an unreadable response adds 0 |
| Sums.ResponsesTotal | xion_client.py:139-144 | summing unbonding responses raises iff one response raises |
| Sums.ResponseRecordTotal | xion_client.py:140-144 | one unbonding response totals the sum of its entries' balances |
| Sums.UnbondingOfRecords | xion_client.py:137-145 | several responses total the sum over all their entries |
| Sums.EntriesOf | xion_client.py:139-140 | the inner loops can all start iff no response has entries that cannot be iterated |
| Sums.ResponsesTotalIsSumOfEntries | xion_client.py:139-145 | the nested loop raises iff some inner loop cannot start, and otherwise equals one sum over the readable balances of all entries of all responses |
| Sums.SumUnbondingValue | xion_client.py:137-145 | for every reply: summing unbonding raises iff the outer or some inner loop cannot start, and otherwise equals the sum of the readable balances of all entries |
| Sums.AllBalances | xion_client.py:146-159 | building the balance table raises iff some coin is not a dict; otherwise there is one row per coin, in order, holding that coin's `denom` (None when missing), the symbol "XION" when the denom is "uxion" and the denom itself otherwise, and `int(str(amount))` with a missing amount read as "0" and an unparsable one as 0 (kept in uxion) |
| Sums.ListedNativeRowsMatchLiquid | xion_client.py:148-161 | the uxion rows of the balance table add up to the liquid total |
| TxCount.QueryCount | xion_client.py:178-187 | reading one reply raises iff it is not a dict, or its `"pagination"` is not a container |
| TxCount.TxFold | xion_client.py:172-188 | the fold raises iff some seen reply raises; it records "seen" iff some reply is truthy; its total adds the count of every seen reply |
| TxCount.FetchTxCount | xion_client.py:167-188 | the count is `None` iff no reply is truthy; it raises iff a seen reply raises; otherwise it is the sum of the counts of the seen replies, skipped replies adding nothing |
| TxCount.PaginatedReplyCount | xion_client.py:179-183 | a paginated reply counts its `"total"` |
| TxCount.ListedReplyCount | xion_client.py:184-187 | a reply without pagination counts its listed transactions |
| TxCount.SenderPlusRecipient | xion_client.py:168-188 | the count is the sender total plus the recipient total |
| TxCount.FailedThenListed | xion_client.py:173-188 | a failed query adds nothing and does not make the count `None` |
| TxCount.TextPaginationAddsZero | xion_client.py:178-183 | a string pagination holding "total" adds 0: `.get` on it raises inside the `try` |
| TxCount.NullPaginationRaises | xion_client.py:178-179 | a `null` pagination makes `"total" in pag` raise |
| Probe.OrEmpty | xion_client.py:216-218 | `x or {}` is the reply when it is present and truthy, and `{}` otherwise |
| Probe.BalanceList | xion_client.py:204-214 | there is no balance list iff neither shape parses and no account exists |
| Probe.ProbeEndpoint | xion_client.py:194-248 | a probe answers `circuit_open` iff the endpoint is blocked; any other failure trips it for 180 s; success leaves the breaker alone, names the endpoint, totals liquid + staked + unbonding, reports 0 failed transactions, and is "partial" exactly when no transaction count was obtained; liquid and the balance table come from the balance list, spendable, staked and unbonding are the sums of their replies; the probe fails with an error (and trips) iff the endpoint is open, a balance list exists, and the transaction count or one of the sums raises |
| Probe.ProbeTouchesOnlyItsEndpoint | xion_client.py:194-248 | a probe changes no other endpoint's breaker entry |
| Probe.ParsedBalancesSnapshot | xion_client.py:204-241 | with parsed balances, the liquid figure and the balance table come from that list |
| Probe.AccountOnlySnapshot | xion_client.py:206-211 | an existing account without balances never fails as "empty"; it succeeds with zero liquid and no rows |
| Probe.SpendableNotInTotal | xion_client.py:216-229 | spendable balances never change the total |
| Resolver.UnreachableInfo | xion_client.py:286-291 | the unreachable answer quotes the last failure reason, or "unknown" when there is none |
| Resolver.Resolve | xion_client.py:254-297 | a text the written pattern refuses gets `invalid_address` and never touches the breaker; any text it accepts, a trailing newline included, is raced and never answered `invalid_address`; the answer names the address; `anomaly` holds iff the status is invalid or unreachable, or nothing was found; an endpoint is named iff the status is ok or partial |
| Resolver.ResolveIntended | xion_client.py:254-297 | with the intended check, the answer is `invalid_address` iff the address fails it; a valid address is resolved as by `Resolve` |
| Resolver.ResolveIntendedAgrees | xion_client.py:254-264 | the two resolvers agree on every text that does not end in a newline |
| Resolver.NewlineAddressProbed | xion_client.py:254-297 | `"xion1" + 20×"q" + "\n"` is raced as written and refused with the intended check |
| Resolver.OrderValid | xion_client.py:272-276 | every completed task is an endpoint that was unblocked at dispatch |
| Resolver.RaceShape | xion_client.py:275-297 | the race's answer names the address, is never `invalid_address`, and keeps the anomaly and endpoint rules |
| Resolver.FirstSuccessWins | xion_client.py:275-283 | the first successful task to complete gives the answer, whatever completes after it |
| Resolver.AllFailedIsUnreachable | xion_client.py:284-297 | when every task fails, the answer is unreachable with the reasons in completion order |
| Resolver.NothingEligible | xion_client.py:272-297 | with every endpoint blocked, the answer is unreachable with reason "unknown" and the breaker is untouched |
| Resolver.DispatchedProbeNotCircuitOpen | xion_client.py:195-196 | a dispatched probe never answers `circuit_open` |
| Resolver.RaceTouchesOnlyListed | xion_client.py:275-284 | the race changes no breaker entry of an endpoint outside the list |
| Resolver.AllFailedTripsAll | xion_client.py:275-284 | when every task fails for a reason other than the breaker, every dispatched endpoint ends up blocked for the cooldown |
| Resolver.KeepsTripped | xion_client.py:275-284 | an endpoint already blocked for the cooldown stays blocked after the race |
| Risk.Score | risk_engine.py:14-23 | the score is always within 0..100 |
| Risk.CalculateRiskScore | risk_engine.py:7-23 | the score of any dict is within 0..100 |
| Risk.AnomalyNeverRaises | risk_engine.py:16-17 | an anomaly never raises the score |
| Risk.FailuresCapped | risk_engine.py:18 | five or more failed transactions all cost the same |
| Risk.FailuresNeverHelp | risk_engine.py:18 | more failed transactions never raise the score |
| Risk.ActivityMonotone | risk_engine.py:19 | more transactions never lower the score |
| Risk.NoActivityPenaltyFromTen | risk_engine.py:19 | from ten transactions on there is no activity penalty |
| Risk.ScoreExtremes | risk_engine.py:14-23 | a healthy wallet scores 100; an anomalous, failing, empty and inactive wallet scores 0 |
| Risk.ZeroBalanceCapped | risk_engine.py:20-23 | with a non-negative failed count, a zero balance caps the score at 70; the resolver's answer always has `failed_txs` 0, so the cap holds for it |
| Risk.NegativeFailuresLiftZeroBalance | risk_engine.py:1-23 | `_to_int` keeps a negative `failed_txs`, so `{"failed_txs": -10, "tx_count": 10}` has no balance and still scores 100 |
| Risk.MissingBalanceIsZero | risk_engine.py:9-12 | a dict without "balance" is scored as a zero balance |
| Risk.DefaultsAndRejectedValues | risk_engine.py:1-12 | an empty dict, or one whose balance `int()` rejects, scores 60 |
| Risk.LookupScoredKeys | risk_engine.py:9-11 | the scored keys of the resolver's answer hold its anomaly, failed and transaction counts |
| Risk.InfoFields | xion_client.py:232-244 | the resolver's answer has no "balance" key: the balance is under "uxion" |
| Risk.ScoreWalletInfoAsWritten | app.py:71-72 | scoring the resolver's answer as written never exceeds 70 |
| Risk.ScoreWalletInfo | app.py:71-72 | the corrected scoring, which passes the wallet total as the balance, stays within 0..100 |
| Risk.HealthyWalletCappedAsWritten | app.py:71-72 | as written, a healthy wallet scores 70 |
| Risk.HealthyWalletScoresFull | app.py:71-72 | corrected, a healthy wallet scores 100 |
| Handler.ParseDecimal | xion_handler.py:34 | `float` of digits and dots holding at least one digit fails iff there are two dots or more |
| Handler.RowValue | xion_handler.py:33-36 | a row adds nothing iff it does not count; it raises iff it counts and its amount without commas has two dots or more |
| Handler.XionValues | xion_handler.py:33-37 | the comprehension raises iff some row raises; otherwise it holds exactly one value per counted row, in order, each the value of its row |
| Handler.ValidateHtml | xion_handler.py:4-58 | a text the written pattern refuses gives the fixed invalid page with score 1; otherwise the result is "OK" iff the status is ok or partial, and else the status itself; the debug reason is never empty and prefers the resolver's; endpoint, address, counts, anomaly and balance table are the resolver's; without the fallback the balance is the resolver's uxion figure |
| Handler.ValidateHtmlIntended | xion_handler.py:4-58 | with the intended check, the page is the invalid page iff the address fails it; a valid address is rendered as by `ValidateHtml` |
| Handler.ValidateHtmlIntendedAgrees | xion_handler.py:7-14 | the two pages agree for every text that does not end in a newline |
| Handler.NewlineAddressRendered | xion_handler.py:7-14 | `"xion1" + 20×"q" + "\n"` gets a result page as written and the invalid page with the intended check |
| Handler.AmountFilterIff | xion_handler.py:36 | an amount passes the filter iff it holds a digit and nothing but digits, commas and dots |
| Handler.DigitsOrDotsAfterFilter | xion_handler.py:34-36 | what `float` receives for a counted row is digits and dots, with at least one digit |
| Handler.BalanceReplacedIff | xion_handler.py:27-39 | the explorer sum replaces the balance exactly when the fallback fires, the scrape succeeds, nothing raises and some row counts; otherwise the resolver's figure stays |
| Handler.ValuesNonEmptyIff | xion_handler.py:33-39 | the comprehension keeps a value iff some row counts |
| Handler.FallbackErrorKeepsBalance | xion_handler.py:28-42 | a scraper failure or a `float` failure keeps the balance and drops the scraped rows |
| Handler.FallbackOnlyChangesBalance | xion_handler.py:44-57 | the scrape influences only the balance and the scraped rows |
| Handler.RowRaisesOnDots | xion_handler.py:34 | a counted amount with two dots makes `float` raise |
| Handler.TwoDotsRaise | xion_handler.py:33-36 | an amount of digits with two dots passes the filter and then raises |
| Handler.OneDotTwoDotThree | xion_handler.py:33-36 | "1.2.3" in a XION row passes the filter and raises |
| Handler.PlainDigitsRow | xion_handler.py:33-37 | a plain digit amount in a XION row counts with its integer value |
| Handler.SeparatedDigitsRow | xion_handler.py:33-37 | "x,y" counts as the digits of x followed by those of y |
| Handler.DecimalValue | xion_handler.py:34 | `float("ip.fp")` is ip plus fp scaled by its number of digits |
| Handler.SeparatedDecimalRow | xion_handler.py:33-37 | "x,y.z" in a XION row counts as the number `xy.z` |
| Handler.NoLeadingLetter | xion_handler.py:36 | a symbol without an "X" never counts |
| Handler.DocumentedExplorerRows | xion_handler.py:33-37 | the rows ("XION", "12,500.00") and ("OTHER", "3") give the values [12500.0] |
| Handler.ExplorerBalanceShown | xion_handler.py:27-56 | for an empty wallet those rows show balance 12500.0 and both rows, with the anomaly flag unchanged |
| RateLimit.Recent | utils.py:13 | every timestamp younger than the 60 s window is kept as often as it was stored, and every older one is dropped |
| RateLimit.RecentAppend | utils.py:13 | pruning keeps the stored order: pruning a concatenation concatenates the pruned parts |
| RateLimit.Admit | utils.py:8-17 | a call is admitted iff fewer than 15 recent calls remain; old timestamps are dropped even on refusal; only an admitted call records `now`; other IPs are untouched |
| RateLimit.RateLimiter | utils.py:8-17 | the loop computes the same as the functional definition |
| RateLimit.AdmitKeepsBound | utils.py:13-17 | no IP ever stores more than 15 timestamps |
| RateLimit.StoredAfterCall | utils.py:12-16 | every stored timestamp was already there and recent, or is the admitted `now` |
| RateLimit.FirstCallAdmitted | utils.py:10-17 | the first call from an IP is admitted and records `[now]` |
| RateLimit.FullWindowRefuses | utils.py:13-15 | with 15 recent calls, the call is refused and so is an immediate retry |
| RateLimit.RecentIdempotent | utils.py:13 | filtering twice at the same time is filtering once |
| RateLimit.RotateEndpoints | utils.py:19-20 | the rotation returns the same endpoints in the same order |
| Rwa.EndpointAssets | rwa_handler.py:11-18 | an endpoint contributes assets only when it answered 200 with a dict body; such a body contributes its whole `"assets"` list, or nothing when the key is missing |
| Rwa.AssetsFirstReply | rwa_handler.py:14-16 | a 200 reply with an `"assets"` list followed by any other members contributes exactly that list |
| Rwa.CollectAssets | rwa_handler.py:9-18 | an asset is collected iff some endpoint contributed it |
| Rwa.CollectAppend | rwa_handler.py:9-18 | endpoints contribute in order, one after another |
| Rwa.FailedEndpointAddsNothing | rwa_handler.py:17-18 | a failed request is skipped without affecting the others |
| Rwa.AssetListReply | rwa_handler.py:14-16 | a 200 reply contributes its `"assets"` list; any other status contributes nothing |
| Rwa.IdKey | rwa_handler.py:23-25 | reading an id raises iff the asset is not a dict or its id is unhashable |
| Rwa.SharedKeys | rwa_handler.py:23-25 | a missing id and a null id are the same key, and so are 1, 1.0 and true |
| Rwa.KeysOf | rwa_handler.py:22-25 | the keys are read iff every asset's key is readable, one per asset |
| Rwa.Firsts | rwa_handler.py:20-25 | the kept positions are exactly the first occurrences of each key, in order |
| Rwa.Dedup | rwa_handler.py:19-26 | de-duplication raises iff some asset is not a dict (`asset.get` fails) or has an unhashable id |
| Rwa.GetRwaAssets | rwa_handler.py:8-26 | the call raises iff some collected asset is not a dict or has an unhashable id; otherwise the result holds only collected assets, each the first collected asset with its id, no two sharing an id, and every collected id occurs in it |
| Rwa.DedupFacts | rwa_handler.py:19-26 | a de-duplication that returns keeps only input assets, each the first with its id, no two sharing an id, and every input id |
| Rwa.DedupKeepsElements | rwa_handler.py:20-26 | de-duplication only drops assets |
| Rwa.DedupDistinct | rwa_handler.py:20-26 | no two kept assets share an id |
| Rwa.DedupSubsequence | rwa_handler.py:20-26 | the kept assets are a subsequence of the input in order, and an asset is kept iff no earlier asset has its id |
| Rwa.DedupCovers | rwa_handler.py:20-26 | every id in the input is kept by some asset |
| Rwa.DedupIdempotent | rwa_handler.py:20-26 | de-duplicating again changes nothing |
| Rwa.DedupOfKeys | rwa_handler.py:20-26 | with readable keys, the result is the assets at the first occurrences |
| Rwa.DedupRaisesAt | rwa_handler.py:23 | one unhashable id makes the whole call raise |
| Rwa.DedupLoop | rwa_handler.py:20-26 | the loop with its `seen` set computes the functional definition |

## Left out

- HTTP and JSON decoding: replies are given `Json` values. `_get_json` turning a non-200 reply, an empty body or broken JSON into `None` is an input choice, as are the request URLs and paths.
- asyncio: the completion order is an input. Every dispatched probe reads the breaker as it stood at dispatch (`Resolver.Outcomes`): this is a modelling choice, resting on each task running its check before any request it makes can complete, not a proved fact. Probes still running when the winner returns may go on to trip breakers in Python. The model applies only the trips of the tasks consumed before the winner.
- Time: one clock reading serves a whole resolution. The `duration` field and its rounding are not modelled.
- Floating point: amounts stay integers in uxion, or exact reals in the handler. `round(v / 1_000_000, 6)`, the `'{uxion_val} XION'` text and float overflow are not modelled. `anomaly` is computed on the integer total, which is zero exactly when its rounded display value is `0.0`.
- Unicode: digits and case are ASCII only (whitespace follows Python's `str.isspace`). Python's `lower`, `isdigit` and `int` also handle other Unicode letters and digits.
- Probe.ProbeEndpoint: the text of the caught exception after "error: " is not modelled.
- The explorer scraper (xion_explorer_scraper.py) is not part of this model. Its outcome is an input: it either raises or returns rows.
- Environment and routing: `os.environ` writes (xion_handler.py:17 has no effect, since `ENDPOINTS` was fixed at import), templates, metrics, iso_export.py and the app routes are not part of this model.
- Handler.ValidateHtml: `risk_score(info)` (xion_handler.py:59) is not modelled, because that function is not part of this model.
- Rwa.IdKey: a NaN id is not modelled. Python keeps a NaN as its own key only when it is the same object.
- RateLimit.RotateEndpoints: Python returns a fresh list. The model cannot tell a copy from the original.
- Text.ParseInt: CPython (3.11 on, and the 2022 security releases of 3.7–3.10) refuses to convert more than 4300 digits between `str` and `int` and raises `ValueError`. The model reads a digit run of any length, so an amount, `pagination.total` or `_to_int` argument given as a string of more than 4300 digits reads as its full value where Python reads 0 or the default. A JSON integer that long never reaches these reads, because `json.loads` raises on it and `_get_json` answers `None`.
- Json.Lookup: a dict with a repeated key yields its first member, where `json.loads` keeps the last. Node replies do not repeat keys.
- The `print` calls are left out.

## Findings

| source | as written | input that shows it | evidently intended | confidence | as-written member | corrected member |
|---|---|---|---|---|---|---|
| xion_client.py:12-15 | `re.match` with a pattern ending in `$` also accepts the address followed by one newline | `"xion1qqqqqqqqqqqqqqqqqqqq\n"` | the whole text is `xion1` followed by 20 to 90 characters from `[0-9a-z]` (`fullmatch` or `\Z`) | not executed | Address.TrailingNewlineCounterexample | Address.ValidAddressShape |
| app.py:71-72 | scores the resolver's answer, which has no "balance" key, so the zero-balance penalty always applies | a wallet with no anomaly, no failed transactions, 20 transactions and 1 XION scores 70 | the wallet total is passed as the balance, so that wallet scores 100 | not executed | Risk.HealthyWalletCappedAsWritten | Risk.HealthyWalletScoresFull |
