# Rent-Manager, modelled in Dafny

Rent-Manager is a bookkeeping app for landlords. Owners keep properties and
tenants. When a tenant is assigned to a property, the server fills in one
rent entry per calendar month from the tenant's move-in month up to "now".
Payments are recorded on entries, and totals are shown on the server and
in the browser.

This project models the logic under those screens as pure functions:

- the three schemas (rent entry, property, tenant): their enums, defaults
  and bounds, and `updateStatus`;
- the store, as three sequences of documents. A lookup returns the first
  match, as `findOne` does; `findById` is the same lookup without an
  owner;
- the rent-entry generator, which exists in three near-copies. One
  function with two explicit parameters covers all three: where the month
  walk stops, and which date `new Date(year, m, 5)` yields as the due date;
- the backend rent controller: generation on assignment, regeneration,
  `markAsPaid` and `getStatistics`;
- the tenant controller: per-tenant statistics, `assignProperty` with its
  inline generator, and the `deleteTenant` guard;
- the property controller: its own generator copy, `assignTenant`, and the
  unguarded `deleteProperty`;
- the rent-entries page: the headline totals, the per-tenant totals, and
  the payment dialog's default amount and validation.

Model choices:

- Money is integer cents.
- Dates are (year, month, day, milliseconds) with a one-based month.
- JavaScript's zero-based `getMonth()` is written out explicitly, and so is
  the month overflow of `new Date(y, m, d)`.
- The clock is a parameter `now`.
- Each sum is computed twice: once literally, as filter-then-reduce, and
  once by an independent recursive reference definition. Lemmas connect
  the two.

Modules: `Common`, `Calendar`, `Text`, `RentEntrySchema`, `PropertySchema`,
`TenantSchema`, `Store`, `Ledger`, `Generation`, `Assignment`,
`RentController`, `TenantController`, `PropertyController`,
`RentEntriesPage` and `GeneratorCopies`. The last one states where the
generator copies agree and where they differ.

Two behaviours of the code are easy to misread; the model follows the code as written:

- `markAsPaid` with an amount of 0 records the full rent and marks the entry
  paid (`paidAmount || rentAmount`). It does not leave the status unchanged.
- The backend generator looks the tenant and the property up by id alone,
  whoever owns them. It does not reject documents that belong to another
  owner.

## Model

| member | source | states |
|---|---|---|
| RentEntrySchema.CreateEntry | app/models/RentEntry.js:3-60 | an entry saves iff owner, property, tenant, year, due date are present, month is in 1..12 and rent is at least 0; a saved entry keeps the submitted owner, property, tenant, month, year, rent, due date and notes, and gets paidAmount 0, status pending and method other unless given |
| RentEntrySchema.UpdateStatus | app/models/RentEntry.js:63-68 | the returned status is the entry's new status; the status changes exactly when it was pending and now is strictly after the due date, and then becomes overdue; nothing else changes |
| RentEntrySchema.UpdateStatusIdempotent | app/models/RentEntry.js:63-68 | applying updateStatus twice at the same moment equals applying it once |
| RentEntrySchema.UpdateStatusMonotone | app/models/RentEntry.js:63-68 | an entry overdue at one moment is overdue at every later moment |
| PropertySchema.CreateProperty | app/models/Property.js:3-64 | a property saves iff owner and non-negative rent are present and address, city, state and zip are present and not blank; address, city, state and zip are stored as the trimmed input; owner, rent, square feet, description and current tenant are kept as given; type apartment, status available and one bedroom and bathroom by default |
| TenantSchema.CreateTenant | app/api/models/Tenant.js:3-37 | a tenant saves iff owner, and non-blank name and phone, are present; name and phone are stored trimmed; owner, emergency contact, notes and move-in date are kept as given, the date staying optional; status defaults to active |
| Text.Trim | app/models/Property.js:9-28 | the result neither starts nor ends with white space, is empty exactly when the input is all white space, and is the input with white space removed from both ends only |
| Text.TrimIdempotent | app/models/Property.js:9-28 | trimming a trimmed string changes nothing |
| Calendar.NextMonth | backend/controllers/rentController.js:52-56 | the next month stays in 1..12, is exactly one month later, and carries into the next year only after December |
| Store.FindTenant | app/api/controllers/tenantController.js:135-138 | returns the first tenant with the id (and the owner, when given); none exactly when no tenant matches |
| Store.InsertEntries | backend/controllers/rentController.js:60-62 | existing entries stay in place, unmodified; new ones are only appended |
| Generation.ContinuesIff | backend/controllers/rentController.js:22-23 | the loop guard holds exactly for months up to the last billed month: the month before the current one for the exclusive bound, the current one for the inclusive bound |
| Generation.DueDate | app/api/controllers/propertyController.js:34 | the due date is on the 5th; in the billing month for `new Date(year, month - 1, 5)`, in the following month for `new Date(year, month, 5)` |
| Generation.NewEntry | backend/controllers/rentController.js:34-46 | a new entry snapshots the rent, belongs to the caller, is overdue exactly when its due date has passed and pending otherwise, carries the schema defaults (paid amount 0, method `other`, no paid date, no notes), and is what the schema would save |
| Generation.Walk | backend/controllers/rentController.js:19-57 | every created entry lies between the start and the last month, is a fresh NewEntry, was missing before the run, and entries come in strictly increasing month order |
| Generation.WalkCoversAll | backend/controllers/rentController.js:22-57 | after the run every month from the start through the last month has an entry for the pair |
| Generation.WalkBillsExactlyMissing | backend/controllers/rentController.js:26-49 | a month gets a new entry iff it lies in the walked span and had no entry |
| Generation.WalkIdempotent | backend/controllers/rentController.js:26-33 | a second run with the same clock over the extended store creates nothing |
| Generation.WalkCountUnbilled | app/api/controllers/tenantController.js:164-201 | on a store with no entry for the pair, the run creates (last - first) + 1 entries, or none when the start lies beyond the bound |
| Generation.GenerateForTenant | backend/controllers/rentController.js:6-65 | fails, creating nothing, iff the tenant or property is missing by id or the move-in date is unset; otherwise walks from the move-in month |
| RentController.GenerateForTenant | backend/controllers/rentController.js:6-65 | afterwards every month from the move-in month up to the month BEFORE the current one is billed for the pair, and no later month; new entries are due on the 5th of their own month, overdue iff that date has passed, charge the property's rent, start unpaid with the schema defaults (paid amount 0, method `other`, no paid date, no notes), skip months already billed and come in increasing month order |
| RentController.CreateRentEntryAssign | backend/controllers/rentController.js:96-115 | the property is marked occupied even when the generator then fails; on success the new entries are appended, every month from move-in up to the month before the current one is billed, and the response is exactly the pair's entries: the earlier ones in store order, then the new ones |
| RentController.CreateRentEntryAssignIdempotent | backend/controllers/rentController.js:96-115 | sending the same assigning request again with the same clock inserts no entry |
| RentController.GenerateAgainIsEmpty | backend/controllers/rentController.js:20-58 | the backend generator run over a store already holding its output, with tenant and rent unchanged, creates nothing |
| RentController.Regenerate | backend/controllers/rentController.js:132-146 | properties and tenants are untouched; on failure nothing changes; on success the response is exactly the pair's entries: the earlier ones in store order, then the new ones |
| RentController.RegenerateIdempotent | backend/controllers/rentController.js:132-146 | regenerating twice with the same clock leaves the store as the first run left it |
| RentController.MarkAsPaid | backend/controllers/rentController.js:175-186 | a non-zero amount overwrites paidAmount, an absent or zero one records the full rent; paid when the amount covers the rent, partial when positive but short, else unchanged; method defaults to other; month, year, rent and due date are untouched |
| RentController.MarkAsPaidOverwrites | backend/controllers/rentController.js:175-177 | the earlier paid amount has no influence on the result, for every amount sent including zero and none (which record the full rent) |
| RentController.SecondPaymentReplacesFirst | backend/controllers/rentController.js:175-177 | after two payments only the second amount is recorded, or the full rent when the second is zero |
| RentController.MarkAsPaidAt | backend/controllers/rentController.js:166-188 | fails iff the entry is missing or not the caller's; otherwise only that entry changes |
| RentController.StatisticsOf | backend/controllers/rentController.js:213-243 | each total equals its reference sum; the four status counts partition the entries; billed less collected equals due plus the balance of paid entries; the rate is zero exactly when the billed total is not positive, and otherwise collected over billed |
| RentController.GetStatistics | backend/controllers/rentController.js:211-243 | the statistics, every total, count and rate included, are those of exactly the caller's entries; the billed total is never negative on a valid store |
| RentController.StatisticsExample | backend/controllers/rentController.js:215-243 | entries of 100 with 100, 50 and 0 paid give 300 billed, 150 paid, 150 due and rate 150/300 |
| Ledger.FilterReduce | backend/controllers/rentController.js:215-217 | a filter followed by a left-fold reduction equals the reference sum over the entries the filter admits |
| Ledger.SplitStatuses | backend/controllers/rentController.js:228-231 | sums and counts over disjoint status sets add up |
| Ledger.BalanceIsRentLessPaid | app/api/controllers/tenantController.js:15-21 | summed balances equal summed rent less summed payments |
| TenantController.TenantRentStats | app/api/controllers/tenantController.js:12-45 | remaining equals the tenant's summed balance; pending and overdue amounts and all counts equal their reference sums; the counts partition the tenant's entries; pending, overdue and partial balances add up to the amount the delete guard reports |
| TenantController.GetTenants | app/api/controllers/tenantController.js:6-56 | lists exactly the caller's tenants, in store order, each with its own statistics (those of the per-tenant aggregation) and the property whose current tenant it is, present exactly when some property names it |
| TenantController.GetTenant | app/api/controllers/tenantController.js:63-91 | not found iff the caller has no such tenant; the brief statistics agree field by field with the list's, and the current property is the one whose current tenant it is |
| TenantController.BillThroughCurrentMonth | app/api/controllers/tenantController.js:157-201 | after the run every month from move-in through the current month is billed; each entry is due on the 5th of its own month, overdue iff that has passed, starts unpaid with the schema defaults, and was missing before; on an unbilled store the count is (yN - y0) * 12 + (mN - m0) + 1 |
| TenantController.BillThroughCurrentMonthIdempotent | app/api/controllers/tenantController.js:167-174 | running the inline generator again creates nothing |
| TenantController.AssignProperty | app/api/controllers/tenantController.js:129-211 | refuses, in this order, a missing tenant, a missing property, a missing move-in date, and then changes nothing; once the three checks pass it always succeeds; on success the property becomes occupied by the tenant, entries are only appended, they are exactly the inline generator's output over the prior store at the property's rent, entriesGenerated is their number and every month through now is billed |
| TenantController.DeleteTenant | app/api/controllers/tenantController.js:214-239 | refused iff the tenant has any pending, overdue or partial entry, reporting their count and balance; otherwise only the tenant is removed and no entry or property changes |
| TenantController.DeletionGuardExample | app/api/controllers/tenantController.js:222-235 | one overdue entry of 100 with 30 paid blocks deletion, reporting 1 entry and 70 owed |
| PropertyController.GenerateForTenant | app/api/controllers/propertyController.js:6-65 | entries cover the move-in month through the current month; each falls due on the 5th of the month AFTER its billing month, with the status judged against that date, and starts unpaid with the schema defaults |
| PropertyController.AssignTenant | app/api/controllers/propertyController.js:126-166 | refuses, in this order, a missing property, a missing tenant, a missing move-in date, changing nothing; past the checks the result is the write half's; the new entries belong to the pair, were missing before and come in increasing month order; entriesGenerated is the number appended |
| PropertyController.OccupyThenGenerate | app/api/controllers/propertyController.js:147-156 | the property is saved as occupied first; the created entries are exactly the generator's output on the saved store; a generator failure keeps the saved property and inserts nothing |
| PropertyController.AssignTenantWithUniqueIds | app/api/controllers/propertyController.js:148-156 | with unique ids the generator cannot fail after the save, and charges the property's rent for every month through now |
| PropertyController.DeleteProperty | app/api/controllers/propertyController.js:169-178 | succeeds iff the caller owns the property; only that property is removed |
| PropertyController.DeletePropertyIsUnguarded | app/api/controllers/propertyController.js:169-178 | the outcome does not depend on entries, current tenant or status |
| GeneratorCopies.ThroughExtendsBefore | app/api/controllers/tenantController.js:164-165 | the inclusive walk is the exclusive walk followed by the current month's entry, if that month is missing |
| GeneratorCopies.BackendMissesCurrentMonth | backend/controllers/rentController.js:22-23 | for a move-in this month the backend walk creates nothing, the inclusive walk one entry |
| GeneratorCopies.BackendSkipsCurrentMonth | backend/controllers/rentController.js:22-23 | for a tenant who moved in this month, the backend generator returns no entry while assignProperty bills one |
| GeneratorCopies.DueRulesAgreeOnMonths | app/api/controllers/propertyController.js:34-45 | both due-date rules create the same (month, year, rent) charges; the property copy's due date is one month later, and what it marks overdue is overdue under the other rule |
| GeneratorCopies.PropertyCopyDueNextMonth | app/api/controllers/propertyController.js:34 | December's entry falls due on 5 January of the next year in the property copy |
| GeneratorCopies.StatusesDisagreeExample | app/api/controllers/propertyController.js:34-45 | on 10 March the March entry is overdue in one copy and pending in the other |
| GeneratorCopies.AssignOutcomesAgree | app/api/controllers/propertyController.js:126-166 | with unique ids the property-side and tenant-side assignment endpoints succeed for the same requests; a refusal through either changes nothing; with both documents missing they report different errors |
| GeneratorCopies.AssignStoresAgree | app/api/controllers/tenantController.js:129-211 | with unique ids a successful assignment through the tenant side is also one through the property side, leaving the same properties and tenants and reporting the same property and count |
| GeneratorCopies.ChargesAgreeOnSuccess | app/api/controllers/propertyController.js:6-65 | with unique ids the entries either assignment endpoint creates charge the same (month, year, rent) list; only due dates and statuses differ |
| RentEntriesPage.PaymentStatsOf | src/pages/RentEntries.js:143-154 | due, paid and billed totals equal the reference sums; billed less paid equals due plus the paid entries' balance |
| RentEntriesPage.PaymentStatsMatchServer | src/pages/RentEntries.js:143-154 | over the caller's entries the page's totals equal getStatistics' |
| RentEntriesPage.TenantPaymentStats | src/pages/RentEntries.js:157-174 | a key per shown tenant with entries and no other; its totals are the sums over that tenant's entries and remaining is billed less paid |
| RentEntriesPage.TenantTotalsMatchServer | src/pages/RentEntries.js:157-174 | a tenant's remaining on the page equals the server's rentStats.remaining when no other owner holds entries of that tenant |
| RentEntriesPage.PayOfferedIffDeletionRefused | src/pages/RentEntries.js:355 | on the caller's own entry list, a tenant has an entry with a Pay button exactly when the server refuses to delete that tenant, provided no other owner holds entries of the tenant |
| RentEntriesPage.DeletionRefusedWithNothingToPay | app/api/controllers/tenantController.js:221-236 | without that proviso the two part: another owner's unpaid entry blocks the deletion while the caller's list is empty |
| RentEntriesPage.OpenPaymentDialog | src/pages/RentEntries.js:72-80 | the pre-filled amount is the entry's balance, so it plus what was paid is the rent; method cash, date today |
| RentEntriesPage.SubmitPayment | src/pages/RentEntries.js:82-100 | a missing or non-positive amount is refused; otherwise the amount is recorded as entered and the entry becomes paid iff it covers the rent, else partial |
| RentEntriesPage.PrefilledPaymentLosesEarlierPayment | src/pages/RentEntries.js:75 | paying the pre-filled amount on a partly paid entry leaves it partial with less than the rent recorded |
| RentEntriesPage.PrefilledPaymentExample | src/pages/RentEntries.js:75 | rent 1000 with 400 paid: after paying the offered 600 the entry shows 600 and stays partial |
| RentEntriesPage.SettlePayment | backend/controllers/rentController.js:175-186 | corrected payment: adds to what was paid; paid iff the total covers the rent, else partial |
| RentEntriesPage.PrefilledSettlementPaysInFull | src/pages/RentEntries.js:72-100 | with cumulative payments, paying the pre-filled amount settles the entry in full |
| Ledger.SelectAppend | backend/controllers/rentController.js:137-140 | a query keeps store order: the entries it finds in a concatenated store are those of the front part followed by those of the back part |
| Ledger.SelectKeepsAll | backend/controllers/rentController.js:137-140 | a run of entries the query admits is found whole and in its order |
| RentController.PairEntriesAfterInsert | backend/controllers/rentController.js:135-140 | after the generator inserts entries of the pair, the pair's entries read back as the earlier ones in store order followed by the inserted ones |
| RentEntriesPage.SettlementsAccumulate | backend/controllers/rentController.js:175-177 | two corrected payments record the sum of both amounts |

## Left out

- HTTP and Express wiring are not modelled: routing, status codes beyond the error kind, CORS, the Mongo connection and the auth middleware. Ownership is a plain filter on the owner field.
- Mongoose `populate`, `timestamps` and `createdAt` are not modelled. The `sort` orders in `getTenants`, `getProperties` and `getRentEntries` are also out; lists keep store order.
- Real `Date` and time-zone semantics are not modelled. Dates are local (year, month, day, millisecond) values, and the same `now` serves both the loop bound and the status comparison, where each of the three generators reads the clock once for the loop bound and again for each generated entry.
- `toFixed` and the percentage rounding of `collectionRate` are out, because they are floating-point formatting. Only the zero guard and the fraction are modelled. Money is integer cents, so `parseFloat` of the dialog amount is out too.
- The race between the existence check and `insertMany` is out, because the model is sequential.
- `insertMany` is treated as always succeeding.
- Manual entry creation, `updateRentEntry`, `updateProperty` and `updateTenant` are CRUD passthroughs of the request body and are not modelled. So are `getRentEntry`, `deleteRentEntry`, `getProperties` and `getProperty`. Their validation is what the Create functions state.
- Enum values outside the Dafny types cannot be written. The schema's rejection of unknown strings is therefore a property of the types, not of a function.
- Rent entries have no ids. `markAsPaid` addresses an entry by its position in the store.
- React rendering, form state, the alerts and the other pages are not modelled.
- RentController.GetStatistics: the non-negativity of the billed total is stated only for stores whose entries all satisfy the schema, since the source reads stored documents as they are.

## Findings

| source | as written | input that shows it | evidently intended | confidence | as-written member | corrected member |
|---|---|---|---|---|---|---|
| backend/controllers/rentController.js:22-23 | the guard compares the one-based month with the zero-based `getMonth()`, so the walk stops before the current month | a tenant who moved in this month: no entry is generated | bill through the current month, as the comment on line 18 and the other two copies do | high, not executed | GeneratorCopies.BackendSkipsCurrentMonth | TenantController.BillThroughCurrentMonth |
| app/api/controllers/propertyController.js:34 | `new Date(year, month, 5)` passes the one-based month where a zero-based one is expected | December 2024 falls due on 5 January 2025; on 10 March 2024 the March entry is still pending | due on the 5th of the billing month, as `new Date(year, month - 1, 5)` in the tenant controller gives | high, not executed | GeneratorCopies.PropertyCopyDueNextMonth | TenantController.BillThroughCurrentMonth |
| src/pages/RentEntries.js:75 | the dialog pre-fills the remaining balance, while `markAsPaid` overwrites `paidAmount` with the amount sent | rent 1000 with 400 paid: paying the offered 600 records 600 and the entry stays partial | a payment adds to what was paid, so the offered amount settles the entry | medium, not executed | RentEntriesPage.PrefilledPaymentLosesEarlierPayment | RentEntriesPage.PrefilledSettlementPaysInFull |
