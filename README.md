# Copilot premium-request usage plugin — a Dafny model

This project models the core of `src/index.ts`, an OpenCode plugin. After each
conversation the plugin shows how many GitHub Copilot premium requests have been
used this month. The plugin subscribes to two host events:

- `message.updated` records the provider of the latest assistant reply;
- `session.idle` shows a notification ("toast"), but only after a reply from a
  `github-copilot…` provider. The toast is a one-time "missing credentials"
  warning, a "failed to fetch quota" warning, or a two-line usage summary with a
  progress bar.

The model has six modules:

| file | module | what it holds |
|---|---|---|
| `wrappers.dfy` | `Wrappers` | `Option`, for JavaScript's `null`/`undefined` |
| `numbers.dfy` | `Numbers` | `Math.round`, `parseInt(s, 10)`, `String(n)` for non-negative integers, `toFixed(1)`, and the integer-or-one-decimal display |
| `quota.dfy` | `Quota` | `getQuota` (`COPILOT_QUOTA`, default 300) |
| `usage.dfy` | `Usage` | the billing `UsageItem`; the Copilot / "Premium Request" filter; the `grossQuantity` sum; the outcome of `fetchCopilotUsage` |
| `presentation.dfy` | `Presentation`, `PresentationExamples` | `createProgressBar`, severity thresholds, `remaining`, the message text |
| `plugin.dfy` | `Plugin` | the event handler |

The handler exists in two forms:

- `Step` is a pure transition function on the two captured variables (`lastProviderID`, `credentialsWarningShown`).
- The class `CopilotUsagePlugin` holds those variables as fields. Its method `OnEvent` is proved to do exactly what `Step` does.

`StateAfter` and `Toasts` run `Step` over a sequence of events. The lemmas about
whole event sequences are stated over them.

Environment variables, the HTTP outcome and the toast are values passed in or
returned. JavaScript doubles are modelled as exact `real`s; quotas and parsed
integers are `int`s.

Two points about the code shape the model:

- `createProgressBar` divides by `total`. The model requires `total > 0`, which holds at the only call site because `getQuota` is proved positive. With `total == 0` the code does not fail: for `used > 0` the ratio is `Infinity`, the percentage is capped at 100 and the bar is full; only `0 / 0` gives `NaN`, and then both `repeat` calls give empty strings.
- `Math.round` rounds halves toward +infinity. On the non-negative values rounded here, that equals rounding halves away from zero.

## Model

| member | source | states |
|---|---|---|
| `Numbers.JsRound` | src/index.ts:68-69 | `Math.round(x)` is the integer within half a unit of `x`, halves going up |
| `Numbers.JsRoundMonotone` | src/index.ts:68-69 | `Math.round` never decreases as its argument grows |
| `Numbers.TrimStartAfterWhiteSpace` | src/index.ts:59 | `parseInt` skips exactly a white-space prefix and stops at the first other character |
| `Numbers.LeadingDigitsOfRun` | src/index.ts:59 | a digit run followed by a non-digit is read in full and no further |
| `Numbers.TrimStart` | src/index.ts:59 | `parseInt` drops a prefix made only of ECMAScript white space and line terminators, up to the first other character |
| `Numbers.LeadingDigits` | src/index.ts:59 | the digits `parseInt` reads are the longest run of decimal digits at the front |
| `Numbers.DecimalString` | src/index.ts:182-186 | `String(n)` is non-empty, all digits, and has no leading zero unless `n == 0` |
| `Numbers.DecimalStringValue` | src/index.ts:182-186 | the digits of `String(n)` denote `n` |
| `Numbers.ParseDigits` | src/index.ts:59 | a number is read exactly when the text starts with a digit, and it is never negative |
| `Numbers.ParseSigned` | src/index.ts:59 | after trimming, a number needs a digit first or a sign directly followed by a digit; only a minus sign makes it negative |
| `Numbers.ParseInt` | src/index.ts:59-60 | blank text is NaN; a negative result comes only from text whose first non-blank character is `-` |
| `Numbers.ParseIntOfNumeral` | src/index.ts:59 | `parseInt(lead + sign + String(n) + tail, 10)`, with white-space `lead` and a non-digit (or empty) `tail`, is `n`, or `-n` for a minus sign |
| `Numbers.ParseSignedOfSign` | src/index.ts:59 | after trimming, a `+` or no sign leaves the digit value unchanged and `-` negates it |
| `Numbers.ParseDigitsOfRun` | src/index.ts:59 | a digit run followed by a non-digit parses as the run's value |
| `Numbers.ParseIntOfDecimal` | src/index.ts:59 | `parseInt(String(n), 10) == n`: the parser inverts the printer |
| `Numbers.ParseIntNaN` | src/index.ts:59-60 | when no digit follows the white space and sign, `parseInt` is NaN |
| `Numbers.ToFixed1` | src/index.ts:182-184 | `toFixed(1)` of a non-negative value is digits, a point, then one digit, with no leading zero in the integer part, and those digits read as the integer nearest to ten times the value |
| `Numbers.Display` | src/index.ts:182-184 | a displayed number is digits with at most one point, just before the last digit, and no leading zero; it is all digits exactly when the number is an integer, and then reads back as the number; otherwise its digits read as the integer nearest to ten times the number |
| `Numbers.DisplayOfIntegerRoundTrip` | src/index.ts:182-186 | an integral value displays as `String(n)`, and that reads back as `n` |
| `Quota.GetQuota` | src/index.ts:53-65 | the quota is always positive; it is either the default 300 or the value `parseInt` read from the variable; a set, non-empty variable that parses to a positive integer gives exactly that integer |
| `Quota.GetQuotaFallsBack` | src/index.ts:58-64 | an absent or empty value, NaN, or a value of zero or less gives 300 |
| `Quota.GetQuotaOfNumeral` | src/index.ts:58-62 | a numeral with leading white space, an optional `+` and trailing text configures its own value when positive; zero gives 300 |
| `Quota.GetQuotaOfNegative` | src/index.ts:60-64 | a negative numeral never configures the quota |
| `Quota.GetQuotaSurjective` | src/index.ts:56-62 | every positive quota is reachable by writing it in decimal |
| `Quota.GetQuotaExamplePositive` | src/index.ts:56-62 | `"42"` gives 42 |
| `Quota.GetQuotaExampleTrailingText` | src/index.ts:56-62 | `" 120 requests"` gives 120 |
| `Quota.GetQuotaExampleZero` | src/index.ts:60-64 | `"0"` gives 300 |
| `Quota.GetQuotaExampleNegative` | src/index.ts:60-64 | `"-5"` gives 300 |
| `Quota.GetQuotaExampleNaN` | src/index.ts:59-64 | `"many"` gives 300 |
| `Usage.IncludesIff` | src/index.ts:109 | `sku.includes(p)` holds exactly when `p` occurs at some position of `sku` |
| `Usage.IsPremiumRequest` | src/index.ts:107-110 | an item is premium exactly when its product is `"Copilot"` and `"Premium Request"` occurs somewhere in its sku |
| `Usage.PremiumItems` | src/index.ts:106-110 | the filter keeps exactly the items with product `"Copilot"` whose sku includes `"Premium Request"` |
| `Usage.TotalGross` | src/index.ts:111 | the `reduce` over `grossQuantity` is non-negative when every quantity is |
| `Usage.PremiumUsed` | src/index.ts:106-111 | the filtered sum is non-negative when every quantity is, and 0 when no item is premium |
| `Usage.PremiumSum` | src/index.ts:106-111 | the reference sum over premium items is non-negative when every quantity is, and 0 when no item is premium |
| `Usage.TotalGrossAppend` | src/index.ts:111 | the `reduce` over a concatenation is the sum of the two reductions |
| `Usage.PremiumItemsAppend` | src/index.ts:107-110 | filtering a concatenation concatenates the filtered halves, in order |
| `Usage.PremiumUsedIsPremiumSum` | src/index.ts:106-111 | filter-then-reduce equals the sum of `grossQuantity` over exactly the premium items |
| `Usage.PremiumUsedAppend` | src/index.ts:106-111 | the count over a concatenation is the sum of the counts |
| `Usage.NonPremiumIrrelevant` | src/index.ts:107-110 | inserting or removing a non-premium item anywhere leaves the count unchanged |
| `Usage.PremiumItemCounts` | src/index.ts:106-111 | a premium item adds exactly its `grossQuantity`, wherever it stands |
| `Usage.FetchOutcome` | src/index.ts:97-117 | a failed exchange gives no usage; a successful one gives the premium sum against `getQuota`'s positive quota, and a sane usage when quantities are non-negative |
| `Presentation.Repeat` | src/index.ts:75 | `c.repeat(n)` has length `n` and every character is `c` |
| `Presentation.BarPercentage` | src/index.ts:68 | the bar's percentage is in 0..100; it is 100 exactly when the ratio is at least 99.5 %; below 100 it is the nearest integer |
| `Presentation.FilledCells` | src/index.ts:69 | the filled count is the whole number within half a cell of the percentage's share of the width; it is between 0 and the width, the full width at 100 % and 0 at 0 % |
| `Presentation.ProgressBar` | src/index.ts:67-76 | the bar has exactly `width` cells, filled cells first, and the fill comes from the rounded percentage |
| `Presentation.FullBarAtQuota` | src/index.ts:68-75 | usage at or over the total fills every cell |
| `Presentation.EmptyBarWithoutUsage` | src/index.ts:67-75 | zero usage fills no cell |
| `Presentation.FilledCellsMonotone` | src/index.ts:68-69 | more usage never shows fewer filled cells |
| `Presentation.BarPercentageMonotone` | src/index.ts:68 | more usage never shows a lower bar percentage |
| `Presentation.FilledCellsMonotoneInPercentage` | src/index.ts:69 | a higher percentage never fills fewer cells |
| `Presentation.UsagePercent` | src/index.ts:174 | the percentage times the quota is a hundred times the usage, and it is non-negative for non-negative usage |
| `Presentation.Severity` | src/index.ts:178-180 | the usage toast is never styled `success` |
| `Presentation.SeverityMonotone` | src/index.ts:174-180 | more usage never lowers the severity |
| `Presentation.SeverityOfCounts` | src/index.ts:174-180 | error iff `10*used >= 9*quota`; warning iff `4*used >= 3*quota` but not error; info iff `4*used < 3*quota` |
| `Presentation.Remaining` | src/index.ts:175 | remaining is non-negative, at least `quota - used`, and equal to it or to 0 |
| `Presentation.UsedPlusRemaining` | src/index.ts:175 | used plus remaining covers the quota, and equals it while within the quota |
| `Presentation.SummaryLine` | src/index.ts:184-186 | line one is the bar, a space, the displayed percentage and a `%` sign, with no line break |
| `Presentation.CountLine` | src/index.ts:182-186 | line two is `used/quota`, then ` • `, the displayed remainder and ` left`, with no line break |
| `Presentation.UsageMessage` | src/index.ts:186 | the message is line one, one line break, then line two |
| `PresentationExamples.NearlyExhausted` | src/index.ts:67-76 | 285 of 300 shows 95 %, 19 filled cells and 1 empty cell, and is an error |
| `PresentationExamples.NearlyExhaustedSummary` | src/index.ts:184-186 | 285 of 300 reads "<bar> 95%" on line one |
| `PresentationExamples.NearlyExhaustedCounts` | src/index.ts:182-186 | 285 of 300 reads "285/300 • 15 left" on line two |
| `PresentationExamples.NothingUsed` | src/index.ts:67-76 | nothing used shows an empty bar and is informational |
| `Plugin.SummaryToast` | src/index.ts:173-195 | the usage toast differs from both warning toasts |
| `Plugin.IsSet` | src/index.ts:144 | a credential counts as set unless it is absent or empty, as JavaScript's truthiness has it |
| `Plugin.Credentials.Complete` | src/index.ts:144 | credentials are complete exactly when neither is absent or empty |
| `Plugin.IsCopilotProvider` | src/index.ts:140 | a provider qualifies exactly when it is present and is `"github-copilot"` followed by anything |
| `Plugin.Step` | src/index.ts:129-196 | only an assistant message moves the provider; the warning flag is only raised, by a Copilot idle without credentials; every toast answers a Copilot idle; the missing-credentials, fetch-failed and summary toasts each appear exactly in their case; a summary toast is the one built from the fetched usage; no other toast exists |
| `Plugin.CopilotUsagePlugin.constructor` | src/index.ts:122-127 | the credentials are captured once; no provider is seen yet and the warning is not yet shown |
| `Plugin.CopilotUsagePlugin.OnEvent` | src/index.ts:129-196 | the handler's new fields and returned toast are exactly those of `Step` |
| `Plugin.StateAfter` | src/index.ts:125-157 | over any event sequence the warning flag is never lowered, and with complete credentials it never changes |
| `Plugin.Toasts` | src/index.ts:129-196 | there is one toast slot per event, and only idle events get a toast |
| `Plugin.LatestProvider` | src/index.ts:130-134 | the result is the provider of the assistant message that has no assistant message after it, or the initial one when the sequence holds no assistant message |
| `Plugin.ToastAt` | src/index.ts:129-196 | the toast for event `i` is `Step` applied in the state reached after the events before it |
| `Plugin.ProviderTracking` | src/index.ts:125-136 | the tracked provider is always that of the latest assistant message |
| `Plugin.IdlesKeepProvider` | src/index.ts:138-142 | idle events never change the latest provider |
| `Plugin.MissingCredentialsAtMostOnce` | src/index.ts:144-157 | the warnings shown, plus one if the flag was already up, are at most one if the flag ends up, and zero otherwise |
| `Plugin.WarningShownAtMostOnce` | src/index.ts:126-157 | from the plugin's initial state, the credentials warning appears at most once over any event sequence |
| `Plugin.SummaryIff` | src/index.ts:138-195 | a usage toast answers event `i` iff it is an idle, the latest assistant provider starts with `github-copilot`, both credentials are set, and the fetch succeeded |
| `Plugin.FetchFailureIff` | src/index.ts:159-171 | the fetch-failed warning answers event `i` iff it is a qualifying idle with credentials and a failed fetch, on every occurrence |
| `Plugin.RepeatedIdlesEachNotify` | src/index.ts:138-142 | after a Copilot reply, with credentials set, every idle with a successful fetch gets its own usage toast |

## Left out

- The HTTP request to the billing endpoint is not modelled: its URL, the year and month from `new Date()`, the headers, `response.json()` and the `try`/`catch` (src/index.ts:82-102, 114-117). Its outcome enters `FetchOutcome` as `Option<seq<UsageItem>>`. `None` stands for a non-ok status, a network error or a body without `usageItems`.
- `client.tui.showToast` and `console.error` are not called. The handler returns the toast body instead, and logging is dropped.
- `process.env` is not read. `COPILOT_QUOTA`, `GITHUB_USERNAME` and `GITHUB_PAT` are parameters.
- async/await is not modelled. The host delivers one event at a time, so each call of `OnEvent` runs to completion.
- IEEE doubles are not modelled. `/`, `*` and the `reduce` sum are exact on reals, so the model has no rounding error in `used / quota * 100` or in the percentage-to-cells step. This shows in the text: for 21 of 300, JavaScript computes the percentage as 7.000000000000001, which is not an integer, so the toast reads "7.0%" where the model shows "7%".
- `Numbers.ParseDigits`: a digit run longer than a double can represent keeps its exact value, and so does `Numbers.ParseInt`. JavaScript rounds it to the nearest double, or gives `Infinity`. This reaches `Quota.GetQuota`: for `COPILOT_QUOTA=99999999999999999999` JavaScript uses 1e20 and the model the exact value.
- `Numbers.ParseIntOfNumeral`: states the exact value for every digit run, so it inherits the gap of `Numbers.ParseDigits` above.
- `Numbers.Display` does not switch to exponent notation at or above 1e21, as `String` and `toFixed` do.
- `Numbers.ParseSigned`: `parseInt("-0")` is JavaScript's `-0`. The model gives `0`, which nothing here can tell apart, because both fail `parsed > 0`.
- `Presentation.ProgressBar` requires `used >= 0`. So do `UsageMessage`, `Step` and `OnEvent`, through `Usage.Sane`. The billing API reports non-negative quantities. With a negative sum, the source's `String.prototype.repeat` throws a `RangeError` once the fill count drops below zero. That exception is not modelled.
- Event payloads are taken as the TypeScript types declare them. A `message.updated` without `info` is not modelled. `sessionID` and `modelID` are carried but never read, as in the source.
- The stored-credential variant, which reads a local refresh token and queries the `copilot_internal/user` endpoint, is not part of this model. Only the environment-credential plugin in `src/index.ts` is.
