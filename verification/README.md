# Inventory movement ledger and its aggregations, in Dafny

A model of the core of a small Flask/SQLAlchemy inventory application.
Stock is never stored. It is derived from a ledger of product movements,
to which rows are added and in which any row can be edited in place. Each movement has a key, a timestamp, a product, an
optional source location, an optional destination location and an integer
quantity. The model covers:

- **the movement ledger**: recording a movement under a fresh primary key,
  editing one in place by key, and the timestamp-descending listing;
- **the balance report**: the fold over the ledger that adds a movement's
  quantity at its destination and subtracts it at its source, then lists
  the non-zero (product, location) balances with registered display names,
  falling back to the raw identifiers;
- **the dashboard analytics**: the three row counts, the seven-day movement
  trend, the five products with the largest total absolute quantity moved,
  and the ten most recent movements;
- **the entity registry**: adding and editing Product and Location rows,
  both keyed by their identifier;
- **the console dump** in `view_database.py`: its own copy of the balance
  fold, its per-product summary and its last-ten movement listing.

Modules:

| module | file | contents |
|---|---|---|
| `Base` | base.dfy | `Option`, `Abs`, `Min`, `Distinct`, and `SumBy`, the weighted sum every aggregation is an instance of, with its algebra (append, permutation, point update) |
| `Sorting` | sorting.dfy | a descending sort by an integer key, for `ORDER BY … DESC` |
| `Dicts` | dicts.dfy | Python's insertion-ordered `dict`, so that the report's row order follows the order the movements are read in |
| `Models` | models.dfy | the three records, Python truthiness of a nullable column, form-field conversion, name lookup with fallback |
| `EntityRegistry` | registry.dfy | add/edit of a Product or Location row |
| `MovementLedger` | ledger.dfy | add/edit/list of movements |
| `Balance` | balance.dfy | the reference balance `Net`, the fold `Accumulate` as the source writes it, and the report |
| `BalanceLaws` | balance_laws.dfy | order independence, self-transfers, conservation, the effect of add/edit on balances, a worked example |
| `Analytics` | analytics.dfy | metrics, trend, top products, recent movements |
| `ViewDatabase` | view_database.dfy | the dump's loop as a method, its summary, and its last-ten listing |

Modelling choices:

- Timestamps are integer microseconds since the epoch (UTC), the resolution
  of `datetime.utcnow()`. A calendar day is `ts / 86400000000`, using floor
  division. Dates are integer day numbers. ISO date strings sort in the same
  order as these numbers.
- Quantities are integers bounded by the 64-bit `INTEGER` column:
  `Models.InInt64` is the range from −2^63 to 2^63 − 1.
- `if movement.to_location:` is Python truthiness: `None` and `""` are both
  false (`Models.Present`).
- The accumulator is a dictionary of dictionaries that remembers insertion
  order. The report is in the order the fold builds it from the sequence of
  movements it is given: products in the order they first appear, and within
  a product, its locations in the order they were first credited or debited.
  The model feeds the fold the ledger in insertion order (see "Left out").
- `ORDER BY … DESC` leaves the order of equal keys open. The sort used here
  is one stable choice. Every property stated about its callers holds
  whatever order ties come out in: sortedness, permutation or prefix,
  membership, and "nothing omitted is larger".
- "Now" (the default timestamp) and "today" (the trend's last day) are
  parameters.

## Model

| member | source | states |
|---|---|---|
| Models.FormEndpoint | inventory-management/app.py:156-157 | an endpoint is NULL exactly when its form field is empty; otherwise it is the field's text itself, and present (truthy) |
| Models.NameOf | inventory-management/app.py:231-241 | the display name is the registered one when the identifier is registered, the raw identifier otherwise |
| EntityRegistry.AddEntity | inventory-management/app.py:67-82 | insert fails with a duplicate-key error exactly when the key is taken, and then changes nothing; it succeeds exactly when the key is fresh, and then the new key maps to the submitted row and every existing row is kept (the same handler shape is at app.py:109-124 for locations) |
| EntityRegistry.EditEntity | inventory-management/app.py:84-96 | an unknown key is not found and changes nothing; it succeeds exactly when the key exists, and then only that key's row is replaced and the key set is unchanged (same shape at app.py:126-138) |
| EntityRegistry.UpdateResolvesName | inventory-management/app.py:86-89 | after a committed add or edit the report name of that key is the submitted name, and every other key resolves as before |
| EntityRegistry.AddTwiceRejected | inventory-management/app.py:15 | a second insert under the same key is refused and leaves the registry as the first insert left it |
| MovementLedger.IndexOf | inventory-management/app.py:175 | finds the row with the given key, or reports that no row has it |
| MovementLedger.AddMovement | inventory-management/app.py:151-167 | fails with an overflow error exactly when the quantity does not fit 64 bits, and otherwise with a duplicate-key error exactly when the key is already in the ledger; a failure changes nothing; otherwise it appends exactly one row, stamped with "now" and with the converted endpoints; it preserves key uniqueness and in-range quantities |
| MovementLedger.AddAcceptsUnvalidated | inventory-management/app.py:154-160 | a zero or negative quantity that fits 64 bits, with no endpoint at all, is accepted under a fresh key |
| MovementLedger.EditMovement | inventory-management/app.py:173-186 | an unknown key is not found; a known key with a quantity outside 64 bits fails with an overflow error; a failure changes nothing; otherwise only that row's endpoints, product and quantity change, its key and timestamp stay, and every other row is untouched |
| MovementLedger.ListMovements | inventory-management/app.py:148 | every row exactly once (a permutation of the ledger), timestamps non-increasing |
| MovementLedger.Latest | inventory-management/app.py:293 | `LIMIT n`: a prefix of the full listing of length min(n, size), sorted, drawn from the ledger, and nothing omitted is newer than the last row kept |
| Balance.Shift | inventory-management/app.py:214-224 | after the two endpoint updates each location's quantity has moved by the movement's effect, and the dict has gained exactly the locations the movement names |
| Balance.StepMeaning | inventory-management/app.py:206-224 | one loop iteration adds the movement's effect to every (product, location) lookup, creates the product's entry, and creates exactly the location entries the movement names |
| Balance.AccumulateMeaning | inventory-management/app.py:201-224 | after the fold, every (product, location) quantity is the sum of the quantity that arrived minus the quantity that left; there is a product entry exactly for the products the ledger mentions, and a location entry exactly where a movement of that product names the location |
| Balance.LocationRowsMeaning | inventory-management/app.py:235-243 | the inner loop emits a row for a location exactly when its quantity is non-zero, with the resolved names, and no (product, location) pair twice |
| Balance.ProductRowsMeaning | inventory-management/app.py:234-243 | the outer loop emits exactly the non-zero entries of the listed products, each once |
| Balance.BalanceReportMeaning | inventory-management/app.py:198-245 | a row is in the report exactly when it is the reference balance of its pair, with resolved names, and that balance is non-zero; every non-zero balance is reported; no zero row; no pair twice |
| BalanceLaws.NetOrderIndependent | inventory-management/app.py:204-224 | any reordering of the ledger gives the same balances |
| BalanceLaws.ReportOrderIndependent | inventory-management/app.py:204-243 | any reordering of the ledger gives the same set of report rows |
| BalanceLaws.SelfTransferNoEffect | inventory-management/app.py:215-224 | a movement whose source is its destination changes no balance, wherever it stands in the ledger |
| BalanceLaws.AddMovementRebalances | inventory-management/app.py:154-167 | a committed add changes every balance by exactly the new row's effect; a refused add changes none |
| BalanceLaws.EditMovementRebalances | inventory-management/app.py:173-186 | a committed edit withdraws the old row's effect and applies the new row's, on every balance; a refused edit (unknown key or out-of-range quantity) changes none |
| BalanceLaws.Conservation | inventory-management/app.py:215-224 | summed over all the locations a product has touched, its stock is what arrived from outside (destination only) minus what left to outside (source only) |
| BalanceLaws.TransferConserves | inventory-management/app.py:215-224 | a movement with both endpoints leaves the product's total over any location set containing both unchanged |
| BalanceLaws.ThreeMovementScenario | inventory-management/app.py:206-243 | 50 in at WH001, 10 moved to STORE1, 3 out of STORE1: the report is WH001 40 then STORE1 7, named by raw identifiers |
| Analytics.MetricsTrackUpdates | inventory-management/app.py:248-257 | the counts are the table sizes: a committed insert adds one to its table's count; a refused insert and every edit leave all counts alone |
| Analytics.MovementsTrend | inventory-management/app.py:259-274 | seven labels, ascending consecutive days from today − 6 to today; each count is the number of ledger movements stamped on that day |
| Analytics.TrendCountsWindow | inventory-management/app.py:265-271 | the counts of consecutive days add up to the number of movements inside those days: each is counted once, and none outside is counted |
| Analytics.TrendIgnoresOutside | inventory-management/app.py:267-271 | a movement dated before the window or after today changes no count |
| Analytics.TrendOfEmptyLedger | inventory-management/app.py:265 | with no movements every one of the seven days counts zero |
| Analytics.VolumeNonNegative | inventory-management/app.py:282 | a product's sum of absolute quantities is never negative |
| Analytics.ProductIds | inventory-management/app.py:280-283 | the groups are exactly the products the ledger mentions, each once |
| Analytics.GroupsFaithful | inventory-management/app.py:280-283 | each group row carries its product's true volume, and every mentioned product has its row |
| Analytics.RankedVolumes | inventory-management/app.py:280-283 | at most five rows, as many as there are products up to five, totals non-increasing; each row is a mentioned product with its true, non-negative volume; no product twice; no omitted product moved more than the last one listed |
| Analytics.TopProducts | inventory-management/app.py:286-289 | label i is product i's registered name (or its identifier) and data i its volume |
| Analytics.RecentMovements | inventory-management/app.py:291-304 | min(10, size) items, timestamps non-increasing, item i projects row i of the full timestamp-descending listing, and nothing omitted is newer than the last item |
| ViewDatabase.AddAt | inventory-management/view_database.py:65-68 | the zero-initialise-then-add pair of stores equals one credit of the location |
| ViewDatabase.CollectOne | inventory-management/view_database.py:58-74 | one iteration of the dump's loop is one iteration of the balance page's loop |
| ViewDatabase.CollectBalances | inventory-management/view_database.py:55-74 | the dump's fold builds exactly the balance page's accumulator, keys and order included |
| ViewDatabase.BalanceSummary | inventory-management/view_database.py:76-81 | read as (product, location, qty) lines, the summary is the balance page's report in the same order; its blocks are the accumulator's products, in order |
| ViewDatabase.ProductIdsOfMeaning | inventory-management/view_database.py:57-62 | the accumulator has a product key for exactly the products some movement mentions, each once, so the summary prints a block for every such product |
| ViewDatabase.SilentProductDiffers | inventory-management/view_database.py:57-81 | for every product that some movement mentions but none of whose movements names a location, the dump prints a block with no lines for it, while the balance report has no row for it |
| ViewDatabase.UnplacedProduct | inventory-management/view_database.py:61-74 | such a product gets an accumulator entry, and that entry has no location in it |
| ViewDatabase.SameProductOrder | inventory-management/view_database.py:57-62 | the dump's product blocks come in the same order as the dashboard's product groups: first appearance in the ledger (app.py:280-283) |
| Balance.NamedLocationKeys | inventory-management/app.py:214-224 | when every stored endpoint came through the form conversion, a product's location entries are exactly the locations its movements name as source or destination |
| ViewDatabase.LastMovements | inventory-management/view_database.py:38 | the ten newest rows, newest first, drawn from the ledger: the same rows as the dashboard's recent list, item for item |

## Left out

- Flask routing, templates, `flash`, `redirect` and `jsonify`: presentation, with no logic to model.
- The view routes (`view_product`, `view_location`, `view_movement`) and the plain list pages: each is a lookup or `SELECT *`. The `get_or_404` lookup is modelled as `IndexOf` and as the `NotFound` outcome of the edits.
- SQLAlchemy sessions and commits are reduced to their observable effect. A primary-key clash, and a quantity the 64-bit column cannot bind, are failed outcomes with nothing stored. Other database errors (connectivity, I/O) are not modelled.
- Foreign keys are declared but not enforced by SQLite. The model therefore lets a movement name an unregistered product or location, as the code does. Names then fall back to the raw identifier.
- `int(request.form['qty'])` parsing: a non-numeric field raises before the handler's `try`, so no row is written. The model takes the quantity as an integer.
- `datetime.utcnow()` is a parameter ("now" for new rows, "today" for the trend). ISO-8601 formatting of timestamps and labels is not modelled: labels and item timestamps are integers.
- Column widths (`String(50)`, `String(100)`) and the `NOT NULL` on names are not enforced by the model.
- The product and location sections of the console dump, and all its text formatting (`'No description'`, `'N/A'`, separators), are printing only.
- The sample-data seeding script is not part of this model. A three-movement example of the same kind is `BalanceLaws.ThreeMovementScenario`.
- Order of equal keys in `ORDER BY … DESC` is not specified by SQL. The model fixes one stable order, and the contracts are stated so that they hold up to ties.
- Validation described for this system but absent from the code is not modelled: a positive quantity, at least one endpoint, and existing references. The code stores such rows, and `MovementLedger.AddAcceptsUnvalidated` states that it does.
- The order of the top-products groups before sorting follows first appearance in the ledger. SQL does not fix this order either, so it only affects ties.
- Analytics.RankedVolumes: does not model SQLite's "integer overflow" error. `ABS(-2^63)`, or a product's `SUM` passing 2^63 − 1, makes the query raise and the dashboard request fail; the model returns the unbounded total instead.
- `ProductMovement.query.all()` (app.py:204, view_database.py:57) has no `ORDER BY`, so SQL leaves the row order open. The model reads the ledger in insertion order, which is SQLite's rowid order for a plain table scan. Balances, the set of report rows and the set of summary lines do not depend on this (`BalanceLaws.NetOrderIndependent`, `BalanceLaws.ReportOrderIndependent`). The row order of the report and of the summary does, and so does the order stated in `BalanceLaws.ThreeMovementScenario`.
- Two movements stamped in the same microsecond tie in `ORDER BY timestamp DESC`, and which one comes first is not specified. The model keeps the older one first; the contracts of the listings hold either way.
