# Storage payment panel and dataset marketplace — a Dafny model

This project models the two pieces of decision logic in the front end of a
decentralized-storage dataset marketplace:

- **The storage manager's action section** (`components/StorageManager.tsx`).
  From a balance snapshot (wallet FIL and USDFC balances, the current lockup
  allowance, the rate, deposit and lockup amounts still needed, and three
  sufficiency flags) it decides whether a payment button is shown and which
  `{lockupAllowance, epochRateAllowance, depositAmount}` triple it submits. The
  guards are checked in order: loading or no snapshot; `isSufficient`; a zero
  token balance; then the 2×2 matrix of rate and lockup sufficiency, where the
  lockup-only and rate-only components add zero-value guards of their own. Each
  button's handler awaits the payment and only then awaits the balance refetch,
  and every button is disabled while a payment is processing. The same file's
  usage bar (percentage, "Critical"/"Low"/"Plenty" level) and payment status
  badge colour are modelled too.
- **The marketplace page's dataset list** (`app/marketplace/page.tsx`): a
  case-insensitive search over name, description and tags plus a type filter
  (`'all'` accepts everything), then a sort by one of four comparators; and the
  card helpers: type icon and colour, tag chips, author label and initials.

Modules: `Wrappers` (Option), `Text` (JavaScript `includes`, `slice`, ASCII case
mapping), `StorageManager` (snapshot, decision table, usage bar, badge),
`PaymentHandlers` (the click handlers as a class over an event trace) and
`Marketplace`.

The snapshot amounts are 18-decimal scaled integers, modelled as `nat`; the
needed amounts and the three flags are produced by a balances hook that is not
part of this model, so they are inputs with no relation assumed between them.
The payment hook and the refetch are outside the model: a click appends
`Submitted(triple)` to a trace, and the payment's outcome is a parameter of
`Settle`, which appends `Confirmed, Refetched` or `Rejected`.

Observations about the code that the model makes explicit:

- The submitted deposit is not zero exactly when the lockup is sufficient. Only
  one direction holds: with both allowances short the combined button (lines
  399-404) has no zero guard, so a zero `depositNeeded` is submitted while the
  lockup is short (`ZeroDepositWhileLockupShort`).
- When the rate is sufficient, the lockup is short and nothing is left to
  deposit, no button is shown: the lockup-only component renders nothing when
  `depositNeeded` is zero (line 435), so such a snapshot gets no action at all
  (`NoOfferIff`).
- The balances are refetched only after a payment that resolves; a rejected
  payment ends the handler before the refetch line (lines 399-406;
  `PaymentHandlers.ActionButtons.Settle`).
- `isSufficient` is read as given (line 340); the code never checks it against
  the two flags or the balances, so the model assumes no relation between them.

## Model

| member | source | states |
|---|---|---|
| `StorageManager.ActionSection` | components/StorageManager.tsx:331-422 | at most one payment button is ever mounted; warnings name exactly the zero balances; any offered button implies not loading, a snapshot present, not sufficient, both balances nonzero, and not both allowances sufficient |
| `StorageManager.NothingOfferedUnlessInsufficient` | components/StorageManager.tsx:338-347 | loading or no snapshot renders nothing; a sufficient snapshot renders only the "Sufficient" badge; no payment button in either case |
| `StorageManager.ZeroBalanceShowsWarnings` | components/StorageManager.tsx:353-368 | with a zero FIL or USDFC balance (and not sufficient) only warnings are shown: the FIL one iff FIL is zero, the USDFC one iff USDFC is zero; no button |
| `StorageManager.LockupOnlyBranch` | components/StorageManager.tsx:427-468 | rate sufficient, lockup short: a button is offered iff total lockup, deposit and rate needed are all nonzero, and it submits exactly `{totalLockupNeeded, rateNeeded, depositNeeded}` |
| `StorageManager.RateOnlyBranch` | components/StorageManager.tsx:473-507 | rate short, lockup sufficient: a button is offered iff the current lockup allowance and the rate needed are nonzero; it submits the current lockup allowance unchanged, the rate needed and a zero deposit |
| `StorageManager.BothShortBranch` | components/StorageManager.tsx:391-419 | both short: the combined button is always offered and submits `{totalLockupNeeded, rateNeeded, depositNeeded}`, with no zero guard |
| `StorageManager.BothSufficientOffersNothing` | components/StorageManager.tsx:370-421 | both flags true but not sufficient, both balances nonzero: an empty action list |
| `StorageManager.ActionSectionFollowsPlan` | components/StorageManager.tsx:370-421 | the three independent conditionals of the action list equal a single match over the four-cell sufficiency matrix, for every funded insufficient snapshot |
| `StorageManager.NoOfferIff` | components/StorageManager.tsx:370-480 | a funded insufficient snapshot gets no button exactly when both flags are true, or one branch's zero guard fails |
| `StorageManager.DepositOnlyWhenLockupShort` | components/StorageManager.tsx:372-404 | for every input, an offered positive deposit implies the lockup is short; the rate increase never deposits; the lockup increase always deposits something |
| `StorageManager.ZeroDepositWhileLockupShort` | components/StorageManager.tsx:399-404 | a concrete snapshot with both allowances short and nothing to deposit is offered the combined action with a zero deposit |
| `StorageManager.AvailablePercentage` | components/StorageManager.tsx:183-184 | the percentage is at most 100, nonnegative for a nonnegative current value, 0 when max ≤ 0, 100 when current ≥ max > 0, and otherwise the ratio current/max scaled to 100 |
| `StorageManager.CriticalIsLow` | components/StorageManager.tsx:185-186 | a "critical" percentage (≤ 5) is also "low" (≤ 20) |
| `StorageManager.AvailabilityThresholds` | components/StorageManager.tsx:185-255 | the level is Critical iff the percentage ≤ 5, Low iff 5 < p ≤ 20, Plenty iff p > 20, and the label reads "Critical" iff p ≤ 5; no positive maximum means Critical |
| `StorageManager.AvailabilityMonotone` | components/StorageManager.tsx:183-186 | with the maximum fixed, a larger current value never gives a smaller percentage or a lower level |
| `StorageManager.StatusBadgeMeaning` | components/StorageManager.tsx:132-143 | no badge iff the status is empty; red iff the status contains the cross mark; green iff it has no cross and contains the check mark; blue otherwise |
| `PaymentHandlers.ActionButtons.Click` | components/StorageManager.tsx:398-407 | a click on an enabled button submits exactly the offered triple and marks the payment as processing; while processing, the button is disabled and nothing happens (the same handler shape is at 446-455 and 487-496) |
| `PaymentHandlers.ActionButtons.Settle` | components/StorageManager.tsx:488-495 | after the awaited payment resolves the handler refetches (`Confirmed, Refetched`); if it rejects, the refetch is never reached (`Rejected`); the trace stays a sequence of such rounds |
| `PaymentHandlers.RefetchFollowsConfirmedPayment` | components/StorageManager.tsx:447-454 | in any trace of finished clicks, every refetch comes right after a confirmed payment, which comes right after its submission |
| `PaymentHandlers.PaymentsNeverOverlap` | components/StorageManager.tsx:446-456 | in any trace of finished clicks, each submission is immediately followed by its own outcome, and a rejection is followed by nothing or by a new submission, never by a refetch |
| `Text.IncludesIff` | app/marketplace/page.tsx:19-21 | `includes` holds exactly when the needle occurs at some position of the text |
| `Text.Lower` | app/marketplace/page.tsx:19-21 | lower-casing keeps the length, maps each character, and leaves no upper-case ASCII letter |
| `Marketplace.Filter` | app/marketplace/page.tsx:18-23 | every kept dataset matches both predicates, and the result is no longer than the input |
| `Marketplace.FilterMultiset` | app/marketplace/page.tsx:18-23 | each dataset occurs in the filtered list as often as in the input if it matches both predicates, and not at all otherwise |
| `Marketplace.FilterAppend` | app/marketplace/page.tsx:18-23 | the filter keeps the input order: filtering a concatenation is the concatenation of the filtered parts |
| `Marketplace.Insert` | app/marketplace/page.tsx:24-31 | one insertion step of the sort holds the old elements plus the new one, as a multiset, and is one longer |
| `Marketplace.InsertAtLeast` | app/marketplace/page.tsx:24-31 | inserting an element whose key is at least a bound into a list whose keys are at least that bound keeps every key at least the bound |
| `Marketplace.InsertSorted` | app/marketplace/page.tsx:24-31 | inserting into a list sorted by the comparator's key gives a list still sorted by that key |
| `Marketplace.Sort` | app/marketplace/page.tsx:24-31 | the sorted list is ordered by the comparator's key and is a permutation of the input |
| `Marketplace.CompareIsKeyDifference` | app/marketplace/page.tsx:25-30 | each of the four comparators is the difference of one key of its two arguments |
| `Marketplace.ResultMatches` | app/marketplace/page.tsx:18-23 | every rendered dataset's name, description or some tag contains the term ignoring case, and its type passes the filter |
| `Marketplace.ResultIsPermutationOfMatches` | app/marketplace/page.tsx:18-31 | the rendered list is a permutation of exactly the matching datasets: no match is dropped, and its length is the number of matches |
| `Marketplace.FilterCount` | app/marketplace/page.tsx:115 | the filtered list's length, shown as the count of datasets found, is the number of matching datasets |
| `Marketplace.EmptyTermAllTypesMatches` | app/marketplace/page.tsx:19-22 | the filter `'all'` accepts every type, and the empty term with `'all'` matches every dataset |
| `Marketplace.EmptySearchShowsEverything` | app/marketplace/page.tsx:18-22 | an empty search with `'all'` keeps the whole list and renders a permutation of it |
| `Marketplace.FilterKeepsAll` | app/marketplace/page.tsx:18-23 | when every dataset matches, the filter returns the list unchanged, in order |
| `Marketplace.ResultOrder` | app/marketplace/page.tsx:24-31 | the result is ordered by the page's comparator: price nondecreasing for `'price-low'` (missing price as 0), nonincreasing for `'price-high'`, size nonincreasing for `'size'`, creation time nonincreasing for `'newest'` and every other key |
| `Marketplace.InsertStable` | app/marketplace/page.tsx:24 | among the elements of any one key, insertion puts the new element (if it has that key) first and keeps the others in their old order |
| `Marketplace.SortStable` | app/marketplace/page.tsx:24 | sorting keeps the input order of the datasets that compare equal, as the stable `Array.prototype.sort` does |
| `Marketplace.FilterWithKey` | app/marketplace/page.tsx:18-23 | taking the datasets of one sort key and filtering commute |
| `Marketplace.ResultKeepsInputOrder` | app/marketplace/page.tsx:18-31 | on the rendered list, the matching datasets that compare equal under the selected sort appear exactly in the order of the input list |
| `Marketplace.ClearAllFilters` | app/marketplace/page.tsx:219 | "Clear All Filters" leaves the sort key and view mode alone and resets search and type so that every dataset matches |
| `Marketplace.ClearAllFiltersShowsEverything` | app/marketplace/page.tsx:219 | after "Clear All Filters" the search and type are those the page mounts with, the filter keeps every dataset, and the list rendered is a permutation of all datasets |
| `Marketplace.TypeIconTotal` | app/marketplace/page.tsx:33-41 | the icon is the fallback exactly for a type outside the four known ones, and distinct known types get distinct icons |
| `Marketplace.TypeColorTotal` | app/marketplace/page.tsx:43-51 | the colour is the fallback exactly for unknown types and for `images`, which shares it |
| `Marketplace.TagChips` | app/marketplace/page.tsx:173-184 | at most the first three tags are shown as chips; a "+n" chip appears iff there are more than three tags, with n = count − 3; with three or fewer, all tags are shown |
| `Marketplace.AuthorLabel` | app/marketplace/page.tsx:194-196 | the label is the first six characters of the author (all of a shorter one), "...", then its last four (all of a shorter one); for an author of ten or more characters it has exactly 13 characters |
| `Marketplace.AuthorInitials` | app/marketplace/page.tsx:190-192 | the initials are characters 2 and 3 of the author, upper-cased (fewer for a shorter author) |

## Left out

- How `rateNeeded`, `depositNeeded`, `totalLockupNeeded`, the sufficiency flags and the persistence days are computed: that is the balances hook, which is not part of this model; they are inputs.
- The payment submission and the balance refetch themselves: they are events in a trace; their effect on the ledger is not visible from these files.
- `PaymentHandlers.ActionButtons.Click`: the disabled state is modelled as taking effect at once; a second click landing before React re-renders the disabled button is not modelled.
- Display formatting: `formatUnits(..., 18)`, `toFixed`, `toLocaleString`, the "Sufficient for N GB / d days" text, the deposit amount shown in the warnings, and the CSS class strings of the bar and badge (the bar's colour follows the same level as its label).
- `StorageManager.AvailablePercentage`: the bar's inputs are modelled as exact reals; floating-point rounding, `NaN` and infinities are not modelled.
- Chain-ID checks, the faucet buttons and the wallet connection guard: browser and wallet plumbing.
- `Text.Lower`: only ASCII letters are case-mapped; JavaScript's full Unicode `toLowerCase` is not modelled.
- `Marketplace.AuthorInitials`: only ASCII letters are upper-cased; JavaScript's `toUpperCase` maps other characters too and may change the length ("ß" becomes "SS"), so the stated length of two holds only for ASCII-cased input. Its `slice` also counts UTF-16 code units, while a Dafny string is a sequence of characters, so the two cut differently for characters outside the Basic Multilingual Plane (emoji, for example).
- `Marketplace.AuthorLabel`: JavaScript's `slice` counts UTF-16 code units, while a Dafny string is a sequence of characters; for an author holding characters outside the Basic Multilingual Plane the label is cut at different places than in the browser.
- `Marketplace.Dataset`: `createdAt` is the timestamp after date parsing; `new Date(...)` parsing, and the comparator's `NaN` for an invalid date, are not modelled.
- `Marketplace.Sort`: `Array.prototype.sort` is modelled by a stable insertion sort; the engine's own algorithm is not.
- `Marketplace.TagChips`: the "+n" chip's text formatting and React's `key` on duplicate tags are not modelled.
- The grid/list view toggle and the links to dataset pages: presentation only.
