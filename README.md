# Fund tracker core, modelled in Dafny

The fund tracker is a single-page app for recording personal fund holdings. Each holding is a fund held on one platform (an "account"). The app shows a portfolio summary, filters holdings by account, and shows a fund's detail page with a history table built from a growth series. It also provides a form for adding and editing holdings, a manager for accounts, a two-language dictionary, and a light/dark theme preference.

This project models the logic behind those screens:

- the storage service: the summary, the two tables with their keys, and the seeding of the default accounts;
- the formatting helpers;
- the dictionary lookup `t`;
- the dashboard's filtering, row metrics, labels and UI state;
- the detail page's history table, quote parsing, date arithmetic and header fallbacks;
- the add/edit form;
- the account manager;
- the theme provider.

It then proves what that code promises.

Files, one module each:

| file | module | models |
|---|---|---|
| types.dfy | Types | the records of types.ts, `Option`, and the truthiness of a key |
| text.dfy | Text | the JavaScript string built-ins the core uses: `split`, `join`, `includes`, `replace`, `trim`, decimal rendering |
| calendar.dfy | Calendar | proleptic Gregorian dates, day numbers and weekdays, `setUTCMonth`/`setUTCFullYear` overflow, `toISOString`, strict `YYYY-MM-DD` parsing |
| finance_utils.dfy | FinanceUtils | services/financeUtils.ts |
| db.dfy | Db | services/db.ts: `calculateSummary`, `initDB`, and the funds and accounts tables as a `Database` class |
| i18n.dfy | I18n | services/i18n.tsx: the two dictionaries and `t` |
| dashboard.dfy | Dashboard | components/Dashboard.tsx |
| fund_detail.dfy | FundDetail | components/FundDetail.tsx |
| add_fund_modal.dfy | AddFundModal | components/AddFundModal.tsx |
| account_manager_modal.dfy | AccountManagerModal | components/AccountManagerModal.tsx |
| theme_context.dfy | ThemeContext | services/ThemeContext.tsx |

Parts that change state are classes:

- `Db.Database` holds the two tables and their auto-increment counters.
- `I18n.LanguageProvider`, `Dashboard.DashboardState`, `AddFundModal.AddFundForm`, `AccountManagerModal.AccountManager` and `ThemeContext.ThemeProvider` hold the React state of their component.

Loops in the source are methods with loop invariants, proved against a specification function:

- `CalculateSummary`
- `HistoryData`
- `ParseQuotes`
- `GetLastWeekday`
- `LanguageProvider.T`

Inputs the app reads from its environment are parameters of the model:

- `parseFloat` is a function `string -> Option<real>`, where `None` stands for NaN;
- `toFixed` is a rendering function;
- `Math.random` draws, the clock's date and the `confirm` answer are values;
- `localStorage`, the `dark` class and the system colour preference are fields of `ThemeProvider`.

## Model

| member | source | states |
|---|---|---|
| Db.CalculateSummary | services/db.ts:40-71 | The one-pass loop returns exactly `Summary(funds)`: total assets is the sum of shares × NAV, the day gain is the sum of the stored `dayChangeVal`, and the holding gain is assets minus the sum of shares × cost. Both percentages are guarded by their divisors. |
| Db.EmptySummary | services/db.ts:40-71 | With no holdings every summary field is 0. |
| Db.TotalAppend | services/db.ts:45-58 | Each accumulated total is additive over concatenation of holding lists. |
| Db.TotalPermutation | services/db.ts:45-58 | Each total is the same for any reordering (multiset-equal list) of the holdings. |
| Db.SummaryOrderIndependent | services/db.ts:40-71 | The whole summary does not depend on the order of the holdings. |
| Db.SummaryIgnoresDayChangePct | services/db.ts:53 | Lists that differ only in `dayChangePct` have equal summaries: the day gain is the stored value, never recomputed from the percentage. |
| Db.HoldingGainPctSign | services/db.ts:60-61 | With positive total cost, the holding-gain percentage is positive (negative) exactly when the holding gain is. |
| Db.Seed | services/db.ts:25-38 | Seeding leaves a non-empty accounts table alone. An empty one gets the five default accounts, in order, all `isDefault`, with consecutive keys. |
| Db.SeedingIdempotent | services/db.ts:31 | Seeding twice gives the same tables as seeding once. |
| Db.Database.InitDB | services/db.ts:25-38 | The accounts table and its counter become `Seed` of the old ones; funds are untouched; the key invariant is kept. |
| Db.Database.AddAccount | services/db.ts:16-17 | The new account is appended under the next key, which then advances; funds are untouched. |
| Db.Database.AddFund | services/db.ts:16 | The new fund is appended under the next key, which then advances; accounts are untouched. |
| Db.Database.DeleteAccount | components/AccountManagerModal.tsx:38 | The table becomes `WithoutAccount` of the old one; keys stay unique and ascending. |
| Db.Database.DeleteFund | components/Dashboard.tsx:94 | The table becomes `WithoutFund` of the old one; keys stay unique and ascending. |
| Db.Database.UpdateFund | components/AddFundModal.tsx:126-130 | Only the record with that key changes, and only its shares, cost and platform. |
| Db.Database.RenameAccount | components/AccountManagerModal.tsx:68-72 | In one step the account's name becomes the new name and every fund on the old platform moves to it. |
| Db.UpdateHolding | components/AddFundModal.tsx:126-130 | Per index: the keyed record gets the three new fields; every other record is unchanged. |
| Db.RenameAccountRecord | components/AccountManagerModal.tsx:69 | Per index: the keyed account gets the new name; every other account is unchanged. |
| Db.RenamePlatformEffect | components/AccountManagerModal.tsx:71 | The cascade rewrites exactly the funds whose platform was the old name, and no other field of any fund. |
| Db.RenamePlatformBack | components/AccountManagerModal.tsx:64-72 | When no fund used the new name, renaming back restores the funds table exactly. |
| Db.RenameOntoExistingMerges | components/AccountManagerModal.tsx:55-72 | Renaming onto a name already used by other funds merges the two groups, since no uniqueness check is made. |
| Db.WithoutFund | components/Dashboard.tsx:94 | A fund survives the delete exactly when its key differs; no record is added. |
| Db.WithoutAccount | components/AccountManagerModal.tsx:38 | An account survives the delete exactly when its key differs; no record is added. |
| Db.WithoutFundKeyed | components/Dashboard.tsx:94 | Deleting keeps the funds' keys present, below the counter, and strictly ascending. |
| Db.WithoutAccountKeyed | components/AccountManagerModal.tsx:38 | Deleting keeps the accounts' keys present, below the counter, and strictly ascending. |
| Db.DefaultAccounts | services/db.ts:30-36 | The seeded records are Default, Alipay, Tencent, Bank and Others, in that order, all default, with consecutive keys. |
| FinanceUtils.SignColor | services/financeUtils.ts:12-16 | Red exactly for positive values, green exactly for negative ones, grey exactly for zero. |
| FinanceUtils.BgColor | services/financeUtils.ts:18-22 | The same three-way classification for backgrounds. |
| FinanceUtils.SameSignClassification | services/financeUtils.ts:12-22 | Text and background colours always agree on the sign. |
| FinanceUtils.FormatPct | services/financeUtils.ts:24-27 | The text is the rendered digits followed by `%`, with a `+` in front exactly when the value is positive. |
| FinanceUtils.FormatSignedCurrency | services/financeUtils.ts:29-32 | `+` and the digits for positive values, the digits alone otherwise. |
| FinanceUtils.CurrencyFractionDigits | services/financeUtils.ts:1-10 | The maximum fraction digits is at least 2 and never below the minimum, so the inverted-range error cannot occur; a minimum outside the range the formatter allows is not excluded. |
| I18n.Step | services/i18n.tsx:168-172 | One step of the walk succeeds exactly when the current value is an object with a truthy property of that name, and yields that property. |
| I18n.Translate | services/i18n.tsx:164-189 | A path that does not resolve gives the path itself. A resolved object is returned as it is. |
| I18n.LanguageProvider.T | services/i18n.tsx:164-189 | The walk loop and the substitution loop together compute `Translate` for the current language. |
| I18n.ResolvedIsTruthy | services/i18n.tsx:184-186 | Every value the walk reaches is truthy, so the "last segment" fallback for an undefined value is unreachable. |
| I18n.ResolveSameShape | services/i18n.tsx:164-173 | Two dictionaries of the same shape resolve exactly the same paths. |
| I18n.DictionariesSameShape | services/i18n.tsx:5-150 | The English and Chinese dictionaries have the same keys in each section, and every value is a non-empty string. |
| I18n.LanguageIndependentResolution | services/i18n.tsx:164-173 | A path resolves in one language exactly when it resolves in the other. |
| I18n.SubstituteOne | services/i18n.tsx:175-181 | One parameter replaces the first occurrence of `{key}` and nothing else. |
| I18n.FilterResolution | services/i18n.tsx:69-76 | Under `filters` only a single key that the section has resolves, and it resolves to that section's text. |
| I18n.AppTitleMissing | App.tsx:42 | Neither dictionary has `common.appTitle`, so `t` returns the path and the built-in title after `\|\|` is never shown. |
| Dashboard.FilterFundsSpec | components/Dashboard.tsx:51-53 | `All` keeps the list as it is. Any other filter keeps exactly the holdings on that platform. |
| Dashboard.OnPlatformAppend | components/Dashboard.tsx:53 | Filtering distributes over concatenation, so the filtered list keeps the original order. |
| Dashboard.ShownSummary | components/Dashboard.tsx:51-55 | The summary shown is the summary of the filtered holdings. |
| Dashboard.FilterList | components/Dashboard.tsx:56 | With more than one account the list is `All` followed by the account names, otherwise just the names. |
| Dashboard.FilterListReachesEveryFund | components/Dashboard.tsx:51-56 | Every holding on an existing account is shown under some filter in the list. |
| Dashboard.Row | components/Dashboard.tsx:227-230 | Return = value − cost. The percentage is 0 exactly when cost or return is 0; otherwise percentage × cost = return × 100. |
| Dashboard.RowAgreesWithSummary | components/Dashboard.tsx:227-230 | A row's value and return equal the summary of that single holding, and so does its percentage when cost is positive. |
| Dashboard.RowAndSummaryGuardsDiffer | components/Dashboard.tsx:230 | For a negative cost the row divides (`!== 0`) while the summary does not (`> 0`); a concrete fund shows −200% against 0%. |
| Dashboard.FilterTranslation | components/Dashboard.tsx:139 | `t('filters.' + key)` is the built-in text for a built-in key and the path otherwise. |
| Dashboard.BuiltInLabel | components/Dashboard.tsx:139 | The label of a built-in filter is its text in the current language. The same expression is used at Dashboard.tsx:231 and AccountManagerModal.tsx:109. |
| Dashboard.CustomLabel | components/Dashboard.tsx:139 | Any other account name is its own label. |
| Dashboard.FindById | components/Dashboard.tsx:118-121 | The menu finds a holding with the key when there is one, and nothing exactly when none has it. |
| Dashboard.DashboardState.HandleContextMenu | components/Dashboard.tsx:60-64 | The menu opens at the pointer for that holding, only when the holding has a truthy key (line 237). |
| Dashboard.DashboardState.HandleEdit | components/Dashboard.tsx:86-90 | The holding is being edited, the form is open, and the menu is closed. |
| Dashboard.DashboardState.MenuEdit | components/Dashboard.tsx:118-121 | The menu's edit looks the holding up by key; with no match nothing changes. |
| Dashboard.DashboardState.HandleDelete | components/Dashboard.tsx:92-97 | A confirmed delete removes the holding. The menu closes either way. |
| Dashboard.DashboardState.HandleRowClick | components/Dashboard.tsx:99-103 | A click opens the detail view only while no menu is open. |
| Dashboard.DashboardState.CloseContextMenu | components/Dashboard.tsx:38-41 | A click anywhere closes the menu. |
| Dashboard.DashboardState.OpenAddFund | components/Dashboard.tsx:322-327 | The add button opens the form with nothing being edited. |
| Dashboard.DashboardState.CloseAddFund | components/Dashboard.tsx:346 | Closing the form leaves the edited holding as it was. |
| Dashboard.DashboardState.OpenAccountManager | components/Dashboard.tsx:155 | The account manager opens. |
| Dashboard.DashboardState.CloseAccountManager | components/Dashboard.tsx:342 | The account manager closes. |
| Dashboard.DashboardState.SetActiveFilter | components/Dashboard.tsx:143 | The chosen filter becomes active. |
| Dashboard.DashboardState.BackFromDetail | components/Dashboard.tsx:48 | Leaving the detail view clears the selected holding. |
| FundDetail.HistoryData | components/FundDetail.tsx:365-397 | The backward loop lists one row per date, newest first. Row k is the row for date `len−1−k`: MM-DD, the implied NAV, and the daily change. |
| FundDetail.NewestRowIsCurrentNav | components/FundDetail.tsx:379 | The newest row's implied NAV is the current NAV. |
| FundDetail.ImpliedNavPositive | components/FundDetail.tsx:379 | With a positive NAV and growth factors above −100%, every implied NAV is positive. |
| FundDetail.ImpliedNavMonotone | components/FundDetail.tsx:379 | A higher cumulative return gives a higher implied NAV. |
| FundDetail.ChangeMatchesNav | components/FundDetail.tsx:382-387 | A row's daily change is exactly the step between the implied NAVs of consecutive dates. |
| FundDetail.DisplayedHistory | components/FundDetail.tsx:402 | All rows when expanded, otherwise the first ten (or fewer), always a prefix. |
| FundDetail.QuoteCode | components/FundDetail.tsx:208-218 | A 5-character ticker gets `hk`. A 6-character one starting with `6` gets `sh`; one starting with `0` or `3` gets `sz`; one starting with `83`, `87` or `43` gets `bj`; any other gets nothing. A missing ticker or one of another length gets nothing, and every code ends in the ticker. |
| FundDetail.QuoteCodesMembership | components/FundDetail.tsx:208-218 | A code is in the list exactly when some holding's ticker maps to it. |
| FundDetail.QuoteOfLine | components/FundDetail.tsx:226-235 | Only a line containing `=` can give an entry. |
| FundDetail.QuoteOfLineFields | components/FundDetail.tsx:226-235 | For every line `head="f0~f1~…"` whose head and fields hold no `=`, `"` or `~`: more than five fields give the entry keyed by field 2, with field 3 as the price text and field 5 parsed as the percentage; five or fewer give nothing. |
| Text.SplitOfJoin | components/FundDetail.tsx:229-230 | Splitting fields joined by a separator none of them holds gives back the same fields. |
| FundDetail.ParseQuotes | components/FundDetail.tsx:224-237 | The loop over the `;`-separated pieces builds exactly `QuoteMap` of the split text. |
| FundDetail.QuoteMapKeys | components/FundDetail.tsx:224-237 | A ticker has a quote exactly when some piece yields an entry for it. |
| FundDetail.QuoteMapLastWins | components/FundDetail.tsx:233 | For a ticker given by several pieces, the last one wins. |
| FundDetail.RangeStartEarlier | components/FundDetail.tsx:35-42 | Every range moves the date strictly back, with `setUTCMonth`'s day overflow. |
| FundDetail.GetStartDate | components/FundDetail.tsx:30-46 | An end date that does not parse gives no start date. Otherwise the start is the ISO date part of the range start. |
| FundDetail.StartDateParses | components/FundDetail.tsx:45 | For four-digit years, the start-date text parses back to the start date, which is earlier than the end. |
| FundDetail.WeekdayOnOrBefore | components/FundDetail.tsx:19-21 | The skip loop stops on the nearest weekday at or before the date. |
| FundDetail.LastWeekdaySpec | components/FundDetail.tsx:17-27 | The last weekday is 1 to 3 days before today and not a Saturday or Sunday. Every day skipped is a weekend day. |
| FundDetail.GetLastWeekday | components/FundDetail.tsx:17-27 | The loop's result is the local `YYYY-MM-DD` text of `LastWeekday(today)`. |
| FundDetail.HeaderFigure | components/FundDetail.tsx:250-251 | Both header figures (NAV and day change): the common-data value, else the performance value, else the stored value; a present 0 is kept. |
| FundDetail.DisplayDateIgnoresLastUpdate | components/FundDetail.tsx:252 | As written, with no service date and no trading day yet, the header date is empty whatever the stored date is. |
| FundDetail.DisplayDate | components/FundDetail.tsx:252 | Service date, else the trading day once known, else the stored date. |
| FundDetail.DisplayDateCorrection | components/FundDetail.tsx:252 | The corrected and written chains differ exactly when neither a service date nor a trading day is known and the stored date is not empty. |
| AddFundModal.DisplayInfo | components/AddFundModal.tsx:180-186 | No selection shows empty name and code. A stored record shows its own name and code. A search hit shows its symbol and its `fundNameArr`, or its `fundName` when that is empty. |
| AddFundModal.DeriveHolding | components/AddFundModal.tsx:115-121 | For a positive amount: shares > 0, shares × NAV = amount, and shares × cost = amount − gain. The 0 fallback is then unreachable. |
| AddFundModal.SaveThenReopen | components/AddFundModal.tsx:40-41 | Saving an amount and gain and reopening the record in edit mode shows the same amount and gain, before rounding. |
| AddFundModal.ReopenThenSave | components/AddFundModal.tsx:115-121 | Reopening a holding and saving the shown amounts unchanged writes back the same shares and cost. |
| AddFundModal.EditAmounts | components/AddFundModal.tsx:40-41 | The shown amount is shares × NAV, and the shown amount minus the shown gain is the total cost. |
| AddFundModal.NewRecord | components/AddFundModal.tsx:131-149 | The added record has no key, the code and name the form displays, the chosen platform, the derived shares and cost, the drawn NAV and day change, a day-change value of NAV × pct / 100, and today as its date. |
| AddFundModal.SavedRecordMatchesDisplay | components/AddFundModal.tsx:136-137 | The code and name the add path stores are the ones the form displayed. |
| AddFundModal.AddedDayGainIgnoresAmount | components/AddFundModal.tsx:148 | The day gain an added holding contributes to the summary is NAV × pct / 100, whatever amount was entered. |
| AddFundModal.GainColor | components/AddFundModal.tsx:166-174 | Red exactly for a parsed positive number. Green exactly for `-` or a parsed negative number. Neutral for empty text, unparsable text or zero. |
| AddFundModal.GainColorAgreesWithSign | components/AddFundModal.tsx:166-174 | For non-zero numbers the input colour is the app's sign colour; at zero it is the input's own dark grey. |
| AddFundModal.Check | components/AddFundModal.tsx:97-109 | A save passes the checks exactly with a selection, a positive NAV and a positive parsed amount. |
| AddFundModal.AddFundForm.Open | components/AddFundModal.tsx:33-58 | Editing fills the form from the record. Adding resets every field and the account to `Default`. The error is cleared either way. |
| AddFundModal.AddFundForm.HandleSelect | components/AddFundModal.tsx:88-94 | The hit becomes the selection with the drawn NAV. |
| AddFundModal.AddFundForm.HandleClose | components/AddFundModal.tsx:155-164 | Every field except the account choice is cleared. |
| AddFundModal.AddFundForm.HandleSave | components/AddFundModal.tsx:96-153 | A rejected save names its reason and writes nothing. Otherwise a keyed edited record is updated (shares, cost, platform only), or a new record dated today is added. Then the form is cleared. |
| AccountManagerModal.AccountManager.HandleAddAccount | components/AccountManagerModal.tsx:27-33 | A name is ignored exactly when it is all whitespace. Otherwise a non-default account with the trimmed name is appended and the add row is reset. |
| AccountManagerModal.AccountManager.HandleDeleteAccount | components/AccountManagerModal.tsx:35-41 | Only a truthy key with confirmation deletes. Funds are never touched. |
| AccountManagerModal.AccountManager.HandleStartEdit | components/AccountManagerModal.tsx:43-48 | An account with a key opens its rename row with its current name. |
| AccountManagerModal.AccountManager.HandleCancelEdit | components/AccountManagerModal.tsx:50-53 | No row is being edited and the edit text is empty. |
| AccountManagerModal.AccountManager.HandleSaveEdit | components/AccountManagerModal.tsx:55-75 | Blank name or no key: nothing changes. Same name: only the edit state closes. Otherwise the rename and the platform cascade happen together and the edit state closes. |
| AccountManagerModal.SeededAccountsKept | components/AccountManagerModal.tsx:121 | None of the seeded default accounts is offered for deletion. |
| ThemeContext.ParseStored | services/ThemeContext.tsx:39-42 | A fixed mode results exactly from a stored `light` or `dark`, and it writes back as the same text. |
| ThemeContext.StoredRoundTrip | services/ThemeContext.tsx:39-57 | Storing any mode and reading it back gives the same mode. |
| ThemeContext.Resolve | services/ThemeContext.tsx:25-26 | A fixed mode is its own theme. `system` is dark exactly when the system prefers dark. |
| ThemeContext.ThemeProvider.SetMode | services/ThemeContext.tsx:51-57 | The mode is set, stored and resolved, and the invariant (theme = resolved mode, `dark` class iff dark theme, storage gives the mode back) is kept. |
| ThemeContext.ThemeProvider.OnSystemChange | services/ThemeContext.tsx:60-71 | A system change moves the theme only in `system` mode, and keeps the invariant. |
| ThemeContext.ThemeProvider.ApplyTheme | services/ThemeContext.tsx:29-36 | The `dark` class is present exactly for the dark theme. |
| Text.SplitJoin | services/i18n.tsx:165 | Joining the parts of a split gives the string back. |
| Text.SplitIncludes | components/FundDetail.tsx:227-228 | A string splits into two or more parts exactly when it contains the separator. |
| Text.TrimEmptyIffAllSpace | components/AccountManagerModal.tsx:28 | Trimming gives the empty string exactly for all-whitespace input. |
| Text.ReplaceFirst | services/i18n.tsx:179 | Only the first occurrence of the pattern is replaced; without one the text is unchanged. |
| Calendar.IsoStringDatePart | components/FundDetail.tsx:45 | `toISOString().split('T')[0]` is the `YYYY-MM-DD` part. |
| Calendar.IsoDateRoundTrip | components/FundDetail.tsx:31 | For four-digit years, a formatted date parses back to itself. |

## Left out

- Network fetches and JSON decoding: the fund-data, chart, holdings, quotes and search requests, and services/api.ts. Their results are inputs: the chart series, the quote text, the ticker list and the search hits.
- Rendering: JSX, ECharts, `toFixed`, `Intl.NumberFormat` and `toLocaleString`. Rendering functions are parameters or digit strings passed in. The heading choice of the form is not modelled.
- Timers: the long-press menu (Dashboard.tsx:66-84) and `navigator.vibrate`.
- `Math.random`: the mock NAV (AddFundModal.tsx:92) and the mock day change (AddFundModal.tsx:133) are parameters.
- Dexie's asynchronous execution: every table operation is one atomic step. `initDB` is modelled as a single-threaded count-then-add.
- `confirm`, `alert` and the browser: the confirmation is a `bool` parameter, and an alert is the reason carried by a rejected save. `localStorage`, `matchMedia` and the `dark` class are fields.
- I18n.Translate: the walk uses JavaScript property access. It does not model prototype properties (`constructor`, `toString`), indexing into a string (`"abc"[0]`), or `Object.keys` ordering of integer-like keys; a step into a string is a failed lookup. The substitution uses the parameter list's order, and `$` patterns in the replacement text are not interpreted.
- Calendar.ParseIsoDate: only the strict `YYYY-MM-DD` form is accepted, with years 0 to 9999; `new Date` accepts more. The end date handed to `getStartDate` comes from the quote service (FundDetail.tsx:99, 115) or from `getLastWeekday`; service dates are taken to be in that form, and the other forms `new Date` accepts (a time part, other layouts) are outside the model.
- FundDetail.HistoryData: requires a return for every date and no return of exactly −100%, where JavaScript would produce NaN or Infinity. Missing series values (`undefined`) are not modelled.
- Number semantics: reals stand for IEEE doubles. Rounding, NaN (other than as `parseFloat`'s `None`) and Infinity are not modelled.
- The detail page's header toggle, the ticker component and the unused `avg`/`bmk` series are outside this model, as is the URL built for the quote request.
- AddFundModal.AddFundForm.HandleSave: the date is the UTC calendar date of the clock, passed as a `CalDate`. The search (`handleSearch`) is left out with the network.

## Findings

| source | as written | input that shows it | evidently intended | confidence | as-written member | corrected member |
|---|---|---|---|---|---|---|
| components/FundDetail.tsx:252 | `commonData?.navDate ?? lastTradingDay ?? fund.lastUpdate`. `lastTradingDay` is a string state initialised to `''` (line 60) and never null, so `?? fund.lastUpdate` can never apply. | No common data yet and no trading day computed: `navDate` missing, `lastTradingDay = ''`, `lastUpdate = '2024-05-10'`. The header date is `''`. | Fall back to the stored `lastUpdate` while the trading day is unknown, following the stated priority (service data, then the local record). | medium, not executed | FundDetail.DisplayDateIgnoresLastUpdate | FundDetail.DisplayDate |
