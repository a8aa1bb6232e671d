# Inventory normalization model

A Dafny model of the physical-count reconciliation ("normalization") of the
Pacifica retail API, and of the inventory-snapshot helpers.

- `InventoryNormalization` (`normalization.dfy`) holds the normalization
  record and its request shapes. It also holds the `NormalizationTable`
  class, which stands for the `InventoryNormalizations` table. Creating a
  record computes `AdjustedQuantity = Actual − System` and
  `DiscrepancyValue = (Actual − System) * CostPrice` in exact decimal
  arithmetic. An update overwrites exactly three fields. A delete removes the
  row outright.
- `NormalizationView` (`normalization_view.dfy`) is the normalization report.
  It filters records that are already joined to their inventory,
  branch-product and product, by branch, month and year. Category, supplier
  and SKU are optional filters. Each selected record becomes a report row.
- `InventorySnapshots` (`inventory_snapshot.dfy`) is the snapshot entity. Its
  `CalculateDiscrepancy` updates a field in place. Its `WeekNumber` getter
  maps the day of the month to a week bucket from 1 to 4.
- `Common` (`common.dfy`) holds the nullable wrapper, the exact decimal type
  and a calendar date.

C# `decimal` is modelled as Dafny `real`. Both are exact, so the arithmetic
identities hold outright. Nullable references and nullable ids become
`Option`. The database's identity column is an id counter, `nextId`, that
starts at 1.

The fields of the `InventoryNormalization` entity, the create request and the
report filter are inferred from their use in `InventoryNormalizationService.cs`
(lines 36-47 and 89-105).

The model's `Update` requires a non-negative `AdjustedQuantity`. The update DTO's
range annotation (`Dtos/InventoryNormalization/InventoryNormalizationDto.cs:11`)
is checked by model validation before the service runs. The service itself
never checks it.

## Model

| member | source | states |
|---|---|---|
| `InventoryNormalization.FromCreateDto` | Services/InventoryNormalizationService/InventoryNormalizationService.cs:36-48 | the new record keeps the given id and copies inventory, date, both quantities, cost price, creator and remarks from the request; its adjustment is actual minus system and its discrepancy value is the adjustment times the cost price |
| `InventoryNormalization.BalancedCountHasNoDiscrepancy` | Services/InventoryNormalizationService/InventoryNormalizationService.cs:39-44 | when the counted quantity equals the system quantity, the created record has adjustment 0 and discrepancy value 0 |
| `InventoryNormalization.DiscrepancySign` | Services/InventoryNormalizationService/InventoryNormalizationService.cs:39-44 | for a created record with a positive cost price, the discrepancy value is positive, negative or zero exactly when actual is above, below or equal to system quantity |
| `InventoryNormalization.Updated` | Services/InventoryNormalizationService/InventoryNormalizationService.cs:62-64 | after an update, adjusted quantity, normalization date and inventory id are the request's, and every other field of the record is unchanged |
| `InventoryNormalization.UpdatePreservesReconciledIff` | Services/InventoryNormalizationService/InventoryNormalizationService.cs:62-64 | an updated record still satisfies adjustment = actual − system and value = adjustment × cost if and only if the requested adjustment equals actual − system |
| `InventoryNormalization.UpdateCanBreakReconciliation` | Services/InventoryNormalizationService/InventoryNormalizationService.cs:62-64 | some valid update (non-negative adjustment) of a reconciled record leaves a record that is no longer reconciled |
| `InventoryNormalization.NormalizationTable.GetById` | Services/InventoryNormalizationService/InventoryNormalizationService.cs:27-32 | finds a record exactly when the id is in the table, and the record found carries that id |
| `InventoryNormalization.NormalizationTable.GetAll` | Services/InventoryNormalizationService/InventoryNormalizationService.cs:20-25 | a record is listed exactly when looking up its id finds it |
| `InventoryNormalization.NormalizationTable.Create` | Services/InventoryNormalizationService/InventoryNormalizationService.cs:34-54 | the returned record is the one built from the request under a new id; the table gains exactly that record and no existing record changes |
| `InventoryNormalization.NormalizationTable.Update` | Services/InventoryNormalizationService/InventoryNormalizationService.cs:56-70 | an unknown id gives null and leaves the table unchanged; otherwise the record is replaced by its updated form, which is returned, and no other record changes |
| `InventoryNormalization.NormalizationTable.Delete` | Services/InventoryNormalizationService/InventoryNormalizationService.cs:72-82 | returns true exactly when the id was present; afterwards the id is absent (a hard delete) and every other record is unchanged |
| `NormalizationView.SelectProject` | Services/InventoryNormalizationService/InventoryNormalizationService.cs:88-128 | the report has no more rows than the input; every row shows the filtered branch, and the filtered category, supplier and SKU when they are given |
| `NormalizationView.ViewSound` | Services/InventoryNormalizationService/InventoryNormalizationService.cs:88-128 | every report row projects a record with a loaded inventory and branch-product that matches all filters; its quantities and discrepancy value come from that record and its cost price from the branch-product |
| `NormalizationView.ViewComplete` | Services/InventoryNormalizationService/InventoryNormalizationService.cs:88-106 | every record that matches all filters appears, projected, in the report |
| `NormalizationView.ViewCount` | Services/InventoryNormalizationService/InventoryNormalizationService.cs:88-128 | the report's length is the number of selected positions of the joined records |
| `NormalizationView.Join` | Services/InventoryNormalizationService/InventoryNormalizationService.cs:88-93 | each record is paired with exactly the inventory whose id is its `InventoryId`, or with none when no inventory has that id; records keep their order and count |
| `NormalizationView.ReportFromTable` | Services/InventoryNormalizationService/InventoryNormalizationService.cs:88-128 | over stored records joined to the inventory table, every report row is the projection of a stored record together with the inventory it refers to, and that pair passes every filter |
| `NormalizationView.Selected` | Services/InventoryNormalizationService/InventoryNormalizationService.cs:89-106 | a selected joined row has its inventory and branch-product loaded, and its inventory's month and year are the filtered ones |
| `NormalizationView.Project` | Services/InventoryNormalizationService/InventoryNormalizationService.cs:109-127 | the report row's cost price is the branch-product's; for a reconciled record its adjustment is actual minus system quantity and its discrepancy value is that adjustment times the record's own cost price |
| `NormalizationView.ViewMultiplicity` | Services/InventoryNormalizationService/InventoryNormalizationService.cs:88-128 | each value occurs in the report exactly as many times as there are selected positions projecting to it: no selected row is lost and none is duplicated |
| `NormalizationView.ReportCostMayDifferFromValuation` | Services/InventoryNormalizationService/InventoryNormalizationService.cs:123-124 | a reconciled record, once projected, can show a cost price under which its discrepancy value is not adjustment × cost, since the value uses the record's cost and the row shows the branch-product's |
| `NormalizationView.ReportFromTableComplete` | Services/InventoryNormalizationService/InventoryNormalizationService.cs:88-128 | when the listing holds every stored record, each stored record that passes the filter, joined to the inventory it refers to, appears projected in the report |
| `NormalizationView.EmptySkuIsNoFilter` | Services/InventoryNormalizationService/InventoryNormalizationService.cs:102-106 | a null SKU and an empty SKU give the same report |
| `NormalizationView.NoneSelectedIffEmpty` | Services/InventoryNormalizationService/InventoryNormalizationService.cs:88-130 | the report is empty if and only if no joined record matches the filter |
| `NormalizationView.ViewNormalization` | Services/InventoryNormalizationService/InventoryNormalizationService.cs:84-131 | the response is always a success carrying a list; every row meets the filter, and the list is empty exactly when nothing matches |
| `InventorySnapshots.WeekOfMonth` | Models/Inventory/InventorySnapshot.cs:31-40 | the bucket lies in 1..4 and is the week of the day counted in 7-day steps, with every day after the 21st in bucket 4 |
| `InventorySnapshots.WeekOfMonthRanges` | Models/Inventory/InventorySnapshot.cs:35-38 | days 1–7 give 1, 8–14 give 2, 15–21 give 3, and 22–31 (29–31 included) give 4, each in both directions |
| `InventorySnapshots.WeekOfMonthMonotone` | Models/Inventory/InventorySnapshot.cs:35-38 | a later day never has a smaller bucket |
| `InventorySnapshots.Recalculated` | Models/Inventory/InventorySnapshot.cs:25-28 | after recomputing, the discrepancy is actual minus system quantity and no other field differs |
| `InventorySnapshots.RecalculatedIdempotent` | Models/Inventory/InventorySnapshot.cs:25-28 | recomputing twice gives the same state as recomputing once |
| `InventorySnapshots.RecalculatedFixedPoint` | Models/Inventory/InventorySnapshot.cs:25-28 | recomputing changes nothing exactly when the stored discrepancy already equals actual minus system |
| `InventorySnapshots.InventorySnapshot.CalculateDiscrepancy` | Models/Inventory/InventorySnapshot.cs:25-28 | sets the discrepancy field to actual minus system quantity; the new state is the recomputed old state, so no other field changes |
| `InventorySnapshots.InventorySnapshot.WeekNumber` | Models/Inventory/InventorySnapshot.cs:31-40 | the snapshot's week lies in 1..4 and is 4 exactly when its day is after the 21st |

## Left out

- Persistence: `async`/`await`, `SaveChangesAsync` and `Include`/`ThenInclude` loading are not modelled. The report works on records already joined in memory (`JoinedRow`).
- The catch-all error path of the report (`InventoryNormalizationService.cs:132-136`) is not modelled. It only fires on a storage failure, which the model has no source of.
- A foreign-key violation on create or update is not modelled. It happens when `InventoryId` names no inventory, and it surfaces as a storage exception.
- Decimal storage precision (`decimal(18,2)`, `decimal(8,2)`, `decimal(8,1)`), rounding on save and `decimal` overflow are not modelled. The arithmetic is exact and unbounded.
- `DateTime` is reduced to year, month and day, with the day in 1..31. Time of day and the true length of each month are not modelled.
- The report's row order is not stated. The query has no ordering, so no lemma speaks of it.
- `Product` is always present on a branch-product in the model. A missing product, which SQL would turn into null columns, is not modelled.
- The soft-delete query filters and their interaction with navigation loading are EF Core configuration (`Data/ApplicationDbContext.cs`). They are not modelled. A branch-product hidden by its filter appears as an unloaded `branchProduct`, so the record is not selected.
- The audit columns that every entity inherits (`CreatedAt`, `IsDeleted`, `DeletedAt`) are not modelled. `InventoryNormalizationService` never sets or reads them.
- Branch-product create, update, soft-delete, restore, batch association and audit-trail writing are outside this model.
- `Selected`/SKU filter: SKU matching is modelled as ordinal, character-by-character equality. The query runs on SQL Server, where the match follows the column collation, which by default ignores case and trailing blanks; collation-dependent matching is not captured.
