# Fleet dashboard: customer and vehicle filters

This project models the logic of the two management views of a fleet
management admin dashboard (a Next.js application), and proves properties
of that model.

- **Customer management** (`components/customer-management.tsx`). The table
  shows the customers whose name, contact person, email or id contains the
  search term, ignoring case, and whose status passes the status filter. The
  filter value `"all"` passes every status. The view also has:
  - a status badge colour;
  - an "Active Customers" card and a "Vehicles Assigned" card;
  - avatar initials built from the company name.
- **Vehicle management** (`components/vehicle-management.tsx`). The table
  has the same filter shape. It searches id, make, model, licence plate and
  driver, but not location. The view also has:
  - a status badge colour;
  - a three-band fuel-level colour;
  - "Active Vehicles" and "In Maintenance" cards;
  - an "Avg Fuel Level" card that rounds the mean with `Math.round`.

Both files are pure: filters, folds, a `switch` and an `if` chain, with no
loops and no in-place updates. So the model is written with datatypes,
functions and lemmas. The modules:

| module | file | contents |
|---|---|---|
| `Text` | `text.dfy` | ASCII `toLowerCase`, `includes` and substring existence, `split(" ")`, first characters, `slice(0, n)` |
| `Sequences` | `sequences.dfy` | `Array.prototype.filter`, its kept positions, and the summing `reduce` |
| `Search` | `search.dfy` | the shared rule: search over a field list AND status match, with the `"all"` sentinel |
| `Rounding` | `rounding.dfy` | `Math.round` of an integer quotient |
| `Badges` | `badges.dfy` | the Tailwind class strings |
| `CustomerManagement` | `customer_management.dfy` | customer record, filter, badge, cards, initials |
| `CustomerData` | `customer_data.dfy` | the mock customer list and results on it |
| `VehicleManagement` | `vehicle_management.dfy` | vehicle record, filter, badge, fuel colour, cards, average |
| `VehicleData` | `vehicle_data.dfy` | the mock fleet and results on it |

Each filter is stated three ways:
- as the source computes it: a left-to-right `||` chain of `includes` calls, passed to `filter`;
- as an independent definition: substring existence (`Contains`) for each named field, and membership plus order preservation for the result;
- on the source's own mock data, as concrete results.

## Model

| member | source | states |
|---|---|---|
| Text.LowerChar | components/customer-management.tsx:114-117 | lower-casing one character maps `A`–`Z` to `a`–`z` and leaves every other character unchanged |
| Text.Lower | components/customer-management.tsx:114-117 | `toLowerCase` lower-cases each character in place: same length, character `i` is `LowerChar` of character `i` of the input, and no upper-case letter is left |
| Text.LowerIdempotent | components/customer-management.tsx:114-117 | lower-casing twice is lower-casing once |
| Text.LowerOfLowerCase | components/customer-management.tsx:114-117 | a string with no upper-case letter is its own lower-cased form |
| Text.LowerLacks | components/customer-management.tsx:114-117 | a letter missing from a string in both cases is missing from its lower-cased form |
| Text.Includes | components/customer-management.tsx:114-117 | `includes`: the empty needle is always found; a found needle is no longer than the haystack |
| Text.IncludesIffContains | components/customer-management.tsx:114-117 | `includes` is true exactly when the needle occurs at some position of the haystack |
| Text.OccurrenceCharAt | components/customer-management.tsx:114-117 | inside an occurrence, the haystack spells out the needle character by character |
| Text.MissingCharExcludes | components/customer-management.tsx:114-117 | a needle with a character the haystack lacks does not occur in it |
| Text.FieldLacksLetter | components/customer-management.tsx:114-117 | a field lacking one of the term's letters in both cases does not contain the term once lower-cased |
| Text.SeparatorSplits | components/customer-management.tsx:114-117 | an occurrence of a needle lies wholly on one side of a separator character the needle lacks |
| Text.Split | components/customer-management.tsx:249 | `split(" ")` gives at least one piece, and no piece contains a space |
| Text.JoinSplit | components/customer-management.tsx:249 | joining the pieces of a split with spaces gives the original string back |
| Text.SplitJoin | components/customer-management.tsx:249 | splitting a space-join of space-free pieces gives the pieces back |
| Text.SplitSpaceFree | components/customer-management.tsx:249 | a string without spaces splits into itself |
| Text.WordStarts | components/customer-management.tsx:248-252 | the word-initial characters are characters of the string, none is a space, and there are no more of them than characters |
| Text.FirstCharsOfSplit | components/customer-management.tsx:249-251 | the first characters of the split pieces are exactly the non-space characters at the start or right after a space; empty pieces contribute nothing |
| Text.Take | components/customer-management.tsx:252 | `slice(0, n)` is a prefix of at most `n` characters: exactly `n` when the string is long enough, and the whole string when it is not longer than `n` |
| Text.FirstChars | components/customer-management.tsx:250-251 | `map(n => n[0]).join("")`: the first character of each piece, nothing for an empty piece; `Text.FirstCharsOfSplit` pins it, over a split, to the word starts |
| Sequences.Filter | components/customer-management.tsx:112 | `filter` returns no more elements than it is given, each one from the input and accepted |
| Sequences.FilterMembership | components/customer-management.tsx:112 | an element is in the result exactly when it is in the input and accepted |
| Sequences.FilterKeepsAll | components/customer-management.tsx:112 | the result is the whole input, or has its length, exactly when every element is accepted |
| Sequences.FilterKeepsNone | components/customer-management.tsx:112 | the result is empty exactly when no element is accepted |
| Sequences.FilterIdempotent | components/customer-management.tsx:112 | filtering the result again with the same test changes nothing |
| Sequences.FilterCongruent | components/customer-management.tsx:112 | two tests that agree on every element give the same result |
| Sequences.FilterConjunction | components/customer-management.tsx:119-121 | filtering by a conjunction is filtering by one conjunct and then the other |
| Sequences.FilterDisjointLength | components/vehicle-management.tsx:156-169 | two tests that never both accept an element keep, between them, at most the whole input |
| Sequences.FilterIsOrderedSubsequence | components/customer-management.tsx:112 | the result is the input at strictly increasing positions, and those positions are exactly the accepted ones |
| Sequences.KeptIndicesPick | components/customer-management.tsx:112 | each result element is the input element at the matching kept position |
| Sequences.KeptIndicesIncreasing | components/customer-management.tsx:112 | the kept positions are strictly increasing |
| Sequences.KeptIndicesExact | components/customer-management.tsx:112 | a position is kept exactly when its element is accepted |
| Sequences.SumFrom | components/customer-management.tsx:171 | the left-fold `reduce((acc, x) => acc + value(x), acc)` equals `acc` plus the reference sum `Total` of the values |
| Sequences.SumFromIsTotal | components/customer-management.tsx:171 | the left-fold `reduce` from `acc` equals `acc` plus the sum of the values |
| Sequences.TotalAtLeastEach | components/customer-management.tsx:171 | with no negative values, the sum is at least each value |
| Sequences.TotalNonNegative | components/customer-management.tsx:171 | with no negative values, the sum is not negative |
| Sequences.TotalBounds | components/vehicle-management.tsx:182 | values all within `[lo, hi]` sum to within `[n*lo, n*hi]` |
| Search.SearchMatches | components/customer-management.tsx:113-117 | the `includes` calls over the field list, tried in order and joined by or; `Search.SearchMatchesIff` pins it to substring existence in some field |
| Search.StatusMatches | components/customer-management.tsx:119 | the status rule: the filter is `"all"` or equals the status; `Search.StatusRule` states both cases |
| Search.SearchMatchesIff | components/customer-management.tsx:113-117 | the chain of `includes` calls joined by or holds exactly when some field contains the term, both lower-cased |
| Search.EmptyTermMatches | components/customer-management.tsx:113-117 | the empty term matches every record |
| Search.SearchCaseInsensitive | components/customer-management.tsx:113-117 | lower-casing the term first does not change the search rule |
| Search.StatusRule | components/customer-management.tsx:119 | `"all"` passes every status; any other filter is an exact, case-sensitive equality |
| Rounding.RoundedQuotient | components/vehicle-management.tsx:182 | `Math.round(num / den)` is the integer `r` with `r - 1/2 <= num/den < r + 1/2`, so halves round up |
| Rounding.RoundedQuotientUnique | components/vehicle-management.tsx:182 | only one integer satisfies those bounds |
| Rounding.RoundedQuotientWithin | components/vehicle-management.tsx:182 | a quotient within `[lo, hi]` rounds to an integer within `[lo, hi]` |
| CustomerManagement.Admits | components/customer-management.tsx:113-121 | the predicate handed to `filter`: the search rule over name, contact person, email and id AND the status rule; `CustomerManagement.AdmitsIff` pins it to substring existence |
| CustomerManagement.FilteredCustomers | components/customer-management.tsx:112-122 | the table shows at most all customers, and each shown customer passes both rules |
| CustomerManagement.AdmitsIff | components/customer-management.tsx:112-122 | a customer is shown exactly when its lower-cased name, contact person, email or id contains the lower-cased term, AND the filter is `"all"` or equals its status |
| CustomerManagement.FilteredCustomersMembership | components/customer-management.tsx:112-122 | a customer is in the table exactly when it is in the list and passes both rules |
| CustomerManagement.AdmitsIgnoresOtherFields | components/customer-management.tsx:112-122 | phone, address, counts, revenue and dates never affect the result |
| CustomerManagement.FilteredCustomersOrdered | components/customer-management.tsx:112 | the table is an order-preserving subsequence of the list, picked at exactly the admitted positions |
| CustomerManagement.FilteredCustomersIdempotent | components/customer-management.tsx:112-122 | filtering the table again with the same criteria gives the same table |
| CustomerManagement.FilteredCustomersConjunction | components/customer-management.tsx:119-121 | the two rules are combined with AND |
| CustomerManagement.EmptySearchFiltersByStatus | components/customer-management.tsx:113-119 | with an empty search, only the status rule is left |
| CustomerManagement.AllStatusesFiltersBySearch | components/customer-management.tsx:113-119 | with the filter at `"all"`, only the search rule is left |
| CustomerManagement.InitialCriteriaShowAll | components/customer-management.tsx:109-110 | the initial state (empty search, `"all"`) shows every customer |
| CustomerManagement.FilteredCustomersCaseInsensitive | components/customer-management.tsx:114-117 | a term and its lower-cased form show the same table |
| CustomerManagement.StatusColor | components/customer-management.tsx:95-106 | `getStatusColor`: green exactly for "active", yellow exactly for "pending", gray exactly for every other status |
| CustomerManagement.StatusColorCases | components/customer-management.tsx:95-106 | active is green and pending is yellow; every other status gets the gray badge of `"inactive"` |
| CustomerManagement.ActiveCount | components/customer-management.tsx:158 | the active-customer count is at most the number of customers |
| CustomerManagement.ActiveCountProperties | components/customer-management.tsx:158 | the count equals the number of customers exactly when all are active, is 0 exactly when none is, and equals the table size for an empty search with filter `"active"` |
| CustomerManagement.VehiclesAssigned | components/customer-management.tsx:171 | the "Vehicles Assigned" card is the sum of the per-customer counts |
| CustomerManagement.VehiclesAssignedIsSum | components/customer-management.tsx:171 | the card is the sum of the per-customer counts; with no negative count, it is at least each one |
| CustomerManagement.Initials | components/customer-management.tsx:248-252 | the avatar initials have at most two characters, each a non-space character of the name; `CustomerManagement.InitialsAreWordStarts` pins which ones |
| CustomerManagement.InitialsAreWordStarts | components/customer-management.tsx:248-252 | the initials are the first at most two word-initial characters of the name, in order; none is a space |
| CustomerData.PendingShowsMetroDelivery | components/customer-management.tsx:27-93 | on the mock list, an empty search with `"pending"` shows exactly CUST-003 |
| CustomerData.AcmeShowsOnlyAcmeCorporation | components/customer-management.tsx:27-93 | on the mock list, searching `"acme"` with `"all"` shows exactly CUST-001 |
| CustomerData.AcmeSearchShowsAcmeCorporation | components/customer-management.tsx:27-93 | searching `"ACME"` shows CUST-001, because the match ignores case |
| CustomerData.JohnSearchShowsAcmeCorporation | components/customer-management.tsx:27-40 | searching `"john"` shows CUST-001, through its contact person |
| CustomerData.JohnSearchShowsGlobalLogistics | components/customer-management.tsx:41-53 | searching `"john"` shows CUST-002, through the middle of its email |
| CustomerData.StatusFilterHidesMatch | components/customer-management.tsx:27-40 | a matching search does not override a status filter that the customer fails |
| CustomerData.MockActiveCount | components/customer-management.tsx:158 | the mock list has 3 active customers |
| CustomerData.MockVehiclesAssigned | components/customer-management.tsx:171 | the mock list has 28 vehicles assigned |
| CustomerData.NoFieldContainsRejects | components/customer-management.tsx:112-122 | a customer with no searchable field containing the term is not shown, whatever its status |
| CustomerData.OnlyFirstShown | components/customer-management.tsx:27-93 | criteria that admit CUST-001 and reject the other four customers show CUST-001 alone |
| CustomerData.AcmeRejects | components/customer-management.tsx:41-93 | CUST-002 to CUST-005 do not match `"acme"` |
| VehicleManagement.Admits | components/vehicle-management.tsx:110-119 | the predicate handed to `filter`: the search rule over id, make, model, licence plate and driver AND the status rule; `VehicleManagement.AdmitsIff` pins it to substring existence |
| VehicleManagement.FilteredVehicles | components/vehicle-management.tsx:109-120 | the table shows at most all vehicles, and each shown vehicle passes both rules |
| VehicleManagement.AdmitsIff | components/vehicle-management.tsx:109-120 | a vehicle is shown exactly when its lower-cased id, make, model, licence plate or driver contains the lower-cased term, AND the filter is `"all"` or equals its status |
| VehicleManagement.FilteredVehiclesMembership | components/vehicle-management.tsx:109-120 | a vehicle is in the table exactly when it is in the fleet and passes both rules |
| VehicleManagement.AdmitsIgnoresOtherFields | components/vehicle-management.tsx:109-120 | location, year, fuel level, mileage and service dates never affect the result |
| VehicleManagement.FilteredVehiclesOrdered | components/vehicle-management.tsx:109 | the table is an order-preserving subsequence of the fleet, picked at exactly the admitted positions |
| VehicleManagement.FilteredVehiclesIdempotent | components/vehicle-management.tsx:109-120 | filtering the table again with the same criteria gives the same table |
| VehicleManagement.FilteredVehiclesConjunction | components/vehicle-management.tsx:117-119 | the two rules are combined with AND |
| VehicleManagement.EmptySearchFiltersByStatus | components/vehicle-management.tsx:110-117 | with an empty search, only the status rule is left |
| VehicleManagement.AllStatusesFiltersBySearch | components/vehicle-management.tsx:110-117 | with the filter at `"all"`, only the search rule is left |
| VehicleManagement.InitialCriteriaShowAll | components/vehicle-management.tsx:106-107 | the initial state (empty search, `"all"`) shows every vehicle |
| VehicleManagement.FilteredVehiclesCaseInsensitive | components/vehicle-management.tsx:111-115 | a term and its lower-cased form show the same table |
| VehicleManagement.StatusColor | components/vehicle-management.tsx:86-97 | `getStatusColor`: green exactly for "active", yellow exactly for "maintenance", gray exactly for every other status |
| VehicleManagement.StatusColorCases | components/vehicle-management.tsx:86-97 | active is green and maintenance is yellow; every other status gets the gray badge of `"inactive"` |
| VehicleManagement.FuelLevelColor | components/vehicle-management.tsx:99-103 | `getFuelLevelColor` always gives one of the three text colours; `VehicleManagement.FuelLevelColorBands` pins which one for each level |
| VehicleManagement.FuelLevelColorBands | components/vehicle-management.tsx:99-103 | green exactly when the level is above 70, yellow exactly when it is in (30, 70], red exactly when it is at most 30 |
| VehicleManagement.FuelLevelColorMonotone | components/vehicle-management.tsx:99-103 | more fuel never gives a worse colour (red < yellow < green) |
| VehicleManagement.StatusCount | components/vehicle-management.tsx:156-169 | the "Active Vehicles" and "In Maintenance" counts are at most the fleet size |
| VehicleManagement.StatusCountsProperties | components/vehicle-management.tsx:144-169 | each count equals the table size for an empty search with that status filter; active plus maintenance is at most the fleet size |
| VehicleManagement.AverageFuel | components/vehicle-management.tsx:182 | the average has a value exactly when the fleet is not empty |
| VehicleManagement.AverageFuelIsRoundedMean | components/vehicle-management.tsx:182 | the average is the integer nearest to the sum of levels divided by the fleet size, halves rounded up |
| VehicleManagement.AverageFuelWithin | components/vehicle-management.tsx:182 | if every level lies in `[lo, hi]` (for instance the minimum and maximum level), so does the average |
| VehicleManagement.AverageFuelIsPercentage | components/vehicle-management.tsx:182 | levels within [0, 100] give an average within [0, 100] |
| VehicleData.MaintenanceShowsMercedesSprinter | components/vehicle-management.tsx:13-84 | on the mock fleet, an empty search with `"maintenance"` shows exactly VH-2024-002 |
| VehicleData.JohnSearchShowsTwoDrivers | components/vehicle-management.tsx:13-41 | searching `"john"` shows VH-2024-001 (John Smith) and VH-2024-002 (Sarah Johnson) |
| VehicleData.DepotSearchHidesFordTransit | components/vehicle-management.tsx:13-27 | searching `"depot"` does not show VH-2024-001, although its location is "Downtown Depot" |
| VehicleData.MockStatusCounts | components/vehicle-management.tsx:156-169 | the mock fleet has 3 active vehicles and 1 in maintenance |
| VehicleData.MockAverageFuel | components/vehicle-management.tsx:182 | the mock fleet's average fuel level is 63 (315 / 5) |
| VehicleData.MockFuelColors | components/vehicle-management.tsx:99-103 | fuel 85 is green, 45 is yellow and 15 is red |

## Left out

- JSX rendering, the card, table, badge, avatar and drop-down components, and the icons: presentation only. The drop-down buttons and the search box only set the two criteria, so the model takes the criteria as plain inputs instead of `useState`.
- `toLowerCase` is modelled as ASCII case folding. Full Unicode case mapping (for example accented letters, or `ß` and `İ`) is not modelled.
- Numbers are modelled as unbounded integers, which the data are. Floating-point arithmetic is not modelled, beyond the exact rounding of an integer quotient.
- VehicleManagement.AverageFuel: for an empty fleet, JavaScript divides by zero and shows `NaN%`. The model returns `None` instead of modelling NaN.
- The "Total Customers" and "Total Vehicles" cards (components/customer-management.tsx:146, components/vehicle-management.tsx:144) are list lengths, so they are not modelled separately.
- The "Total Revenue" card (components/customer-management.tsx:184) uses `toFixed`, and the revenue column uses `toLocaleString`. Both are locale- and floating-point formatting.
- `customer.id.toLowerCase()` in the avatar image path is presentation only.
- Text.FirstChars: `n[0]` on an empty piece is `undefined`, which `join("")` renders as nothing. The model yields the empty string for it. `n[0]` takes a UTF-16 code unit, and the model takes one character.
- CustomerData and VehicleData do not state an exact result list for every search term. They prove the listed concrete results only.
- The files components/monitoring-dashboard.tsx, components/settings-page.tsx, components/dashboard-layout.tsx, components/dashboard-overview.tsx, components/reports-page.tsx, app/vehicles/page.tsx and app/reports/page.tsx are not part of this model. They hold timers, charts, trigonometric map markers, form toggles and static literals.
