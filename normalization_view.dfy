/** The normalization report: normalization records of one branch and month,
    joined to their inventory, branch-product and product, filtered and
    projected to report rows. */
module NormalizationView {
  import opened Common
  import opened InventoryNormalization

  /** A product with the display names of its category and supplier. */
  datatype Product = Product(
    productName: Option<string>,
    sku: string,
    categoryId: int,
    categoryName: Option<string>,
    supplierId: int,
    supplierName: Option<string>)

  /** The per-branch association of a product, with its current cost price. */
  datatype BranchProduct = BranchProduct(
    branchId: int,
    productId: int,
    costPrice: Decimal,
    product: Product)

  /** The inventory a normalization belongs to; `branchProduct` is `None`
      when the navigation is not loaded or the association is gone. */
  datatype Inventory = Inventory(
    id: int,
    branchId: int,
    month: int,
    year: int,
    branchProduct: Option<BranchProduct>)

  /** A normalization record with its (possibly missing) inventory loaded. */
  datatype JoinedRow = JoinedRow(record: Normalization, inventory: Option<Inventory>)

  /** The report filter: branch, month and year are mandatory; category,
      supplier and SKU are optional. */
  datatype NormalizeParams = NormalizeParams(
    branchId: int,
    month: int,
    year: int,
    categoryId: Option<int>,
    supplierId: Option<int>,
    sku: Option<string>)

  /** One row of the report. */
  datatype ResponseNormalizeProduct = ResponseNormalizeProduct(
    branchId: int,
    productId: int,
    productName: Option<string>,
    categoryId: int,
    categoryName: Option<string>,
    supplierId: int,
    supplierName: Option<string>,
    sku: Option<string>,
    normalizationDate: DateTime,
    actualQuantity: Decimal,
    systemQuantity: Decimal,
    adjustedQuantity: Decimal,
    discrepancyValue: Decimal,
    costPrice: Decimal,
    remarks: Option<string>,
    createdBy: Option<string>)

  /** The uniform service envelope. */
  datatype ApiResponse<T> = ApiResponse(success: bool, message: Option<string>, data: Option<T>)

  /** The SKU filter applies only to a non-null, non-empty string. */
  predicate SkuFilterActive(sku: Option<string>)
  {
    sku.Some? && sku.value != ""
  }

  /** The joined row has the inventory and branch-product the projection needs. */
  predicate Loaded(j: JoinedRow)
  {
    j.inventory.Some? && j.inventory.value.branchProduct.Some?
  }

  /** Every loaded inventory is the one the record refers to. */
  predicate WellJoined(rows: seq<JoinedRow>)
  {
    forall k :: 0 <= k < |rows| && rows[k].inventory.Some? ==>
      rows[k].inventory.value.id == rows[k].record.inventoryId
  }

  /** The inventory table is keyed by inventory id. */
  predicate KeyedById(inventories: map<int, Inventory>)
  {
    forall i :: i in inventories ==> inventories[i].id == i
  }

  /** Loads each record's inventory by its `inventoryId`; `None` when no
      inventory has that id. */
  function Join(records: seq<Normalization>, inventories: map<int, Inventory>): (rows: seq<JoinedRow>)
    requires KeyedById(inventories)
    ensures |rows| == |records|
    ensures WellJoined(rows)
    ensures forall k :: 0 <= k < |rows| ==>
      && rows[k].record == records[k]
      && (rows[k].inventory.Some? <==> records[k].inventoryId in inventories)
    ensures forall k :: 0 <= k < |rows| && rows[k].inventory.Some? ==>
      rows[k].inventory.value == inventories[records[k].inventoryId]
  {
    seq(|records|, k requires 0 <= k < |records| =>
      JoinedRow(records[k],
                if records[k].inventoryId in inventories then Some(inventories[records[k].inventoryId]) else None))
  }

  /** The report's selection condition on a joined row. */
  predicate Selected(j: JoinedRow, p: NormalizeParams)
    ensures Selected(j, p) ==> Loaded(j)
    ensures Selected(j, p) ==> j.inventory.value.month == p.month && j.inventory.value.year == p.year
  {
    && j.inventory.Some?
    && j.inventory.value.branchId == p.branchId
    && j.inventory.value.month == p.month
    && j.inventory.value.year == p.year
    && j.inventory.value.branchProduct.Some?
    && (p.categoryId.None? || j.inventory.value.branchProduct.value.product.categoryId == p.categoryId.value)
    && (p.supplierId.None? || j.inventory.value.branchProduct.value.product.supplierId == p.supplierId.value)
    && (!SkuFilterActive(p.sku) || j.inventory.value.branchProduct.value.product.sku == p.sku.value)
  }

  /** The report row for a joined row: product data and the cost price come
      from the branch-product, quantities and values from the record. */
  function Project(j: JoinedRow): (r: ResponseNormalizeProduct)
    requires Loaded(j)
    ensures Reconciled(j.record) ==> r.adjustedQuantity == r.actualQuantity - r.systemQuantity
    ensures Reconciled(j.record) ==> r.discrepancyValue == r.adjustedQuantity * j.record.costPrice
    ensures r.costPrice == j.inventory.value.branchProduct.value.costPrice
  {
    var inv := j.inventory.value;
    var bp := inv.branchProduct.value;
    ResponseNormalizeProduct(
      branchId := inv.branchId,
      productId := bp.productId,
      productName := bp.product.productName,
      categoryId := bp.product.categoryId,
      categoryName := bp.product.categoryName,
      supplierId := bp.product.supplierId,
      supplierName := bp.product.supplierName,
      sku := Some(bp.product.sku),
      normalizationDate := j.record.normalizationDate,
      actualQuantity := j.record.actualQuantity,
      systemQuantity := j.record.systemQuantity,
      adjustedQuantity := j.record.adjustedQuantity,
      discrepancyValue := j.record.discrepancyValue,
      costPrice := bp.costPrice,
      remarks := j.record.remarks,
      createdBy := j.record.createdBy)
  }

  /** What a report row itself shows of the filter it was selected by. */
  predicate MeetsFilter(r: ResponseNormalizeProduct, p: NormalizeParams)
  {
    && r.branchId == p.branchId
    && (p.categoryId.Some? ==> r.categoryId == p.categoryId.value)
    && (p.supplierId.Some? ==> r.supplierId == p.supplierId.value)
    && (SkuFilterActive(p.sku) ==> r.sku == p.sku)
  }

  /** The selected rows, projected. */
  function SelectProject(rows: seq<JoinedRow>, p: NormalizeParams): (out: seq<ResponseNormalizeProduct>)
    ensures |out| <= |rows|
    ensures forall r :: r in out ==> MeetsFilter(r, p)
  {
    if rows == [] then []
    else
      var rest := SelectProject(rows[1..], p);
      if Selected(rows[0], p) then [Project(rows[0])] + rest else rest
  }

  /** Every report row is the projection of some selected joined row. */
  lemma {:induction false} ViewSound(rows: seq<JoinedRow>, p: NormalizeParams, r: ResponseNormalizeProduct)
    requires r in SelectProject(rows, p)
    ensures exists k :: 0 <= k < |rows| && Selected(rows[k], p) && r == Project(rows[k])
  {
    if Selected(rows[0], p) && r == Project(rows[0]) {
      assert Selected(rows[0], p) && r == Project(rows[0]);
    } else {
      ViewSound(rows[1..], p, r);
      var k :| 0 <= k < |rows[1..]| && Selected(rows[1..][k], p) && r == Project(rows[1..][k]);
      assert rows[1..][k] == rows[k + 1];
    }
  }

  /** Every selected joined row appears, projected, in the report. */
  lemma {:induction false} ViewComplete(rows: seq<JoinedRow>, p: NormalizeParams, k: int)
    requires 0 <= k < |rows|
    requires Selected(rows[k], p)
    ensures Project(rows[k]) in SelectProject(rows, p)
  {
    if k > 0 {
      ViewComplete(rows[1..], p, k - 1);
      assert rows[1..][k - 1] == rows[k];
    }
  }

  /** The selected positions of `rows` from position `i` on. */
  function SelectedFrom(rows: seq<JoinedRow>, p: NormalizeParams, i: int): set<int>
    requires 0 <= i <= |rows|
  {
    set k | i <= k < |rows| && Selected(rows[k], p)
  }

  /** Position `i` is counted from `i` on exactly when it is selected. */
  lemma SplitSelected(rows: seq<JoinedRow>, p: NormalizeParams, i: int)
    requires 0 <= i < |rows|
    ensures |SelectedFrom(rows, p, i)| == |SelectedFrom(rows, p, i + 1)| + (if Selected(rows[i], p) then 1 else 0)
  {
    var here, rest := SelectedFrom(rows, p, i), SelectedFrom(rows, p, i + 1);
    var head := if Selected(rows[i], p) then {i} else {};
    forall k
      ensures k in here <==> k in rest + head
    {
    }
    assert here == rest + head;
    assert i !in rest;
  }

  /** The report on the suffix from `i` has one row per selected position of
      that suffix. */
  lemma {:induction false} CountFrom(rows: seq<JoinedRow>, p: NormalizeParams, i: int)
    requires 0 <= i <= |rows|
    ensures |SelectProject(rows[i..], p)| == |SelectedFrom(rows, p, i)|
    decreases |rows| - i
  {
    if i == |rows| {
      assert SelectedFrom(rows, p, i) == {};
    } else {
      CountFrom(rows, p, i + 1);
      UnfoldSuffix(rows, p, i);
      SplitSelected(rows, p, i);
    }
  }

  /** Each selected joined row yields exactly one report row: the report has
      as many rows as there are selected positions. */
  lemma ViewCount(rows: seq<JoinedRow>, p: NormalizeParams)
    ensures |SelectProject(rows, p)| == |set k | 0 <= k < |rows| && Selected(rows[k], p)|
  {
    CountFrom(rows, p, 0);
    assert rows[0..] == rows;
  }

  /** Joined row `j` is selected and projects to `r`. */
  predicate Matches(j: JoinedRow, p: NormalizeParams, r: ResponseNormalizeProduct)
  {
    Selected(j, p) && Project(j) == r
  }

  /** The selected positions from position `i` on whose projection is `r`. */
  function MatchingFrom(rows: seq<JoinedRow>, p: NormalizeParams, i: int, r: ResponseNormalizeProduct): set<int>
    requires 0 <= i <= |rows|
  {
    set k | i <= k < |rows| && Matches(rows[k], p, r)
  }

  /** The report on the suffix from `i` is the projection of position `i`,
      when selected, followed by the report on the suffix from `i + 1`. */
  lemma UnfoldSuffix(rows: seq<JoinedRow>, p: NormalizeParams, i: int)
    requires 0 <= i < |rows|
    ensures SelectProject(rows[i..], p) ==
      (if Selected(rows[i], p) then [Project(rows[i])] else []) + SelectProject(rows[i + 1..], p)
  {
    assert rows[i..][1..] == rows[i + 1..];
  }

  /** Position `i` is counted from `i` on exactly when it is selected and
      projects to `r`. */
  lemma SplitMatching(rows: seq<JoinedRow>, p: NormalizeParams, i: int, r: ResponseNormalizeProduct)
    requires 0 <= i < |rows|
    ensures |MatchingFrom(rows, p, i, r)| ==
      |MatchingFrom(rows, p, i + 1, r)| + (if Matches(rows[i], p, r) then 1 else 0)
  {
    var here, rest := MatchingFrom(rows, p, i, r), MatchingFrom(rows, p, i + 1, r);
    var head := if Matches(rows[i], p, r) then {i} else {};
    forall k
      ensures k in here <==> k in rest + head
    {
    }
    assert here == rest + head;
    assert i !in rest;
  }

  /** On the suffix from `i`, each value occurs in the report as often as
      selected positions of that suffix project to it. */
  lemma {:induction false} MultiplicityFrom(rows: seq<JoinedRow>, p: NormalizeParams, i: int, r: ResponseNormalizeProduct)
    requires 0 <= i <= |rows|
    ensures multiset(SelectProject(rows[i..], p))[r] == |MatchingFrom(rows, p, i, r)|
    decreases |rows| - i
  {
    if i == |rows| {
      assert MatchingFrom(rows, p, i, r) == {};
    } else {
      MultiplicityFrom(rows, p, i + 1, r);
      UnfoldSuffix(rows, p, i);
      SplitMatching(rows, p, i, r);
      var head := if Selected(rows[i], p) then [Project(rows[i])] else [];
      var tail := SelectProject(rows[i + 1..], p);
      assert multiset(head)[r] == if Matches(rows[i], p, r) then 1 else 0;
      assert multiset(head + tail) == multiset(head) + multiset(tail);
    }
  }

  /** Each selected joined row yields exactly one report row: every value
      occurs in the report exactly as often as selected rows project to it. */
  lemma ViewMultiplicity(rows: seq<JoinedRow>, p: NormalizeParams, r: ResponseNormalizeProduct)
    ensures multiset(SelectProject(rows, p))[r] ==
      |set k | 0 <= k < |rows| && Selected(rows[k], p) && Project(rows[k]) == r|
  {
    MultiplicityFrom(rows, p, 0, r);
    assert rows[0..] == rows;
    assert MatchingFrom(rows, p, 0, r) == set k | 0 <= k < |rows| && Selected(rows[k], p) && Project(rows[k]) == r;
  }

  /** A report row prices the discrepancy at the record's cost, but shows the
      branch-product's current cost: the two can disagree. */
  lemma ReportCostMayDifferFromValuation()
    ensures exists j: JoinedRow ::
      (&& Loaded(j)
       && Reconciled(j.record)
       && Project(j).discrepancyValue != Project(j).adjustedQuantity * Project(j).costPrice)
  {
    var date := DateTime(2024, 11, 17);
    var n := Normalization(1, 7, 2.0, date, 3.0, 5.0, 10.0, 20.0, None, None);
    var bp := BranchProduct(1, 5, 12.0, Product(None, "SKU-5", 1, None, 1, None));
    var j := JoinedRow(n, Some(Inventory(7, 1, 11, 2024, Some(bp))));
    assert Loaded(j) && Reconciled(j.record);
    assert Project(j).discrepancyValue != Project(j).adjustedQuantity * Project(j).costPrice;
  }

  /** A null SKU and an empty SKU give the same report. */
  lemma {:induction false} EmptySkuIsNoFilter(rows: seq<JoinedRow>, p: NormalizeParams)
    ensures SelectProject(rows, p.(sku := Some(""))) == SelectProject(rows, p.(sku := None))
  {
    if rows != [] {
      EmptySkuIsNoFilter(rows[1..], p);
    }
  }

  /** The normalization report for filter `p`: always a success, whose data
      is empty exactly when no joined row is selected. */
  function ViewNormalization(rows: seq<JoinedRow>, p: NormalizeParams): (resp: ApiResponse<seq<ResponseNormalizeProduct>>)
    ensures resp.success && resp.data.Some?
    ensures forall r :: r in resp.data.value ==> MeetsFilter(r, p)
    ensures resp.data.value == [] <==> forall k :: 0 <= k < |rows| ==> !Selected(rows[k], p)
  {
    var out := SelectProject(rows, p);
    NoneSelectedIffEmpty(rows, p);
    ApiResponse(true, None, Some(out))
  }

  /** The report is empty exactly when no joined row is selected. */
  lemma NoneSelectedIffEmpty(rows: seq<JoinedRow>, p: NormalizeParams)
    ensures SelectProject(rows, p) == [] <==> forall k :: 0 <= k < |rows| ==> !Selected(rows[k], p)
  {
    var out := SelectProject(rows, p);
    if out != [] {
      ViewSound(rows, p, out[0]);
    }
    forall k | 0 <= k < |rows| && Selected(rows[k], p)
      ensures out != []
    {
      ViewComplete(rows, p, k);
    }
  }

  /** A report over the table's records joined to the inventory table lists
      only projections of stored records, each joined to the inventory it
      refers to. */
  lemma ReportFromTable(records: map<int, Normalization>, listed: seq<Normalization>,
                        inventories: map<int, Inventory>, p: NormalizeParams, r: ResponseNormalizeProduct)
    requires forall k :: 0 <= k < |listed| ==> listed[k].id in records && records[listed[k].id] == listed[k]
    requires KeyedById(inventories)
    requires r in SelectProject(Join(listed, inventories), p)
    ensures exists id ::
      (&& id in records
       && records[id].inventoryId in inventories
       && Selected(JoinedRow(records[id], Some(inventories[records[id].inventoryId])), p)
       && r == Project(JoinedRow(records[id], Some(inventories[records[id].inventoryId]))))
  {
    var rows := Join(listed, inventories);
    ViewSound(rows, p, r);
    var k :| 0 <= k < |rows| && Selected(rows[k], p) && r == Project(rows[k]);
    var id := listed[k].id;
    assert rows[k] == JoinedRow(records[id], Some(inventories[records[id].inventoryId]));
  }

  /** When the listing covers the whole table, every stored record that,
      joined to the inventory it refers to, passes the filter appears in the
      report. */
  lemma ReportFromTableComplete(records: map<int, Normalization>, listed: seq<Normalization>,
                                inventories: map<int, Inventory>, p: NormalizeParams, id: int)
    requires forall i :: i in records ==> records[i] in listed
    requires KeyedById(inventories)
    requires id in records && records[id].inventoryId in inventories
    requires Selected(JoinedRow(records[id], Some(inventories[records[id].inventoryId])), p)
    ensures Project(JoinedRow(records[id], Some(inventories[records[id].inventoryId])))
      in SelectProject(Join(listed, inventories), p)
  {
    var rows := Join(listed, inventories);
    var k :| 0 <= k < |listed| && listed[k] == records[id];
    assert rows[k] == JoinedRow(records[id], Some(inventories[records[id].inventoryId]));
    ViewComplete(rows, p, k);
  }
}
