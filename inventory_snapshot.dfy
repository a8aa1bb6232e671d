/** Inventory snapshots: a physical count of one branch-product on one date,
    with its discrepancy against the system quantity and its week bucket. */
module InventorySnapshots {
  import opened Common

  /** The week bucket of a day of the month: the buckets end on the 7th, 14th
      and 21st, and the fourth bucket takes every later day up to the 31st. */
  function WeekOfMonth(day: Day): (w: int)
    ensures 1 <= w <= 4
    ensures w == if day <= 21 then (day + 6) / 7 else 4
  {
    if day <= 7 then 1
    else if day <= 14 then 2
    else if day <= 21 then 3
    else 4
  }

  /** The exact day ranges of the four buckets. */
  lemma WeekOfMonthRanges(day: Day)
    ensures WeekOfMonth(day) == 1 <==> day <= 7
    ensures WeekOfMonth(day) == 2 <==> 8 <= day <= 14
    ensures WeekOfMonth(day) == 3 <==> 15 <= day <= 21
    ensures WeekOfMonth(day) == 4 <==> 22 <= day
  {
  }

  /** A later day never falls in an earlier bucket. */
  lemma WeekOfMonthMonotone(d1: Day, d2: Day)
    requires d1 <= d2
    ensures WeekOfMonth(d1) <= WeekOfMonth(d2)
  {
  }

  /** The value of every field of a snapshot. */
  datatype SnapshotState = SnapshotState(
    id: int,
    branchId: int,
    productId: int,
    inventoryDate: DateTime,
    year: int,
    month: int,
    actualQuantity: Decimal,
    costPrice: Decimal,
    systemQuantity: Decimal,
    discrepancy: Decimal)

  /** The state after the discrepancy is recomputed: the discrepancy is actual
      minus system quantity, and no other field differs. */
  function Recalculated(s: SnapshotState): (t: SnapshotState)
    ensures t.discrepancy == t.actualQuantity - t.systemQuantity
    ensures t.(discrepancy := s.discrepancy) == s
  {
    s.(discrepancy := s.actualQuantity - s.systemQuantity)
  }

  /** Recomputing twice gives the state that recomputing once gives. */
  lemma RecalculatedIdempotent(s: SnapshotState)
    ensures Recalculated(Recalculated(s)) == Recalculated(s)
  {
  }

  /** Recomputing changes nothing exactly when the stored discrepancy is
      already actual minus system quantity. */
  lemma RecalculatedFixedPoint(s: SnapshotState)
    ensures Recalculated(s) == s <==> s.discrepancy == s.actualQuantity - s.systemQuantity
  {
  }

  class InventorySnapshot {
    var id: int
    var branchId: int
    var productId: int
    var inventoryDate: DateTime
    var year: int
    var month: int
    var actualQuantity: Decimal
    var costPrice: Decimal
    var systemQuantity: Decimal
    var discrepancy: Decimal

    /** A snapshot with the given fields; the discrepancy starts at zero until
        it is calculated. */
    constructor (id: int, branchId: int, productId: int, inventoryDate: DateTime, year: int, month: int,
                 actualQuantity: Decimal, costPrice: Decimal, systemQuantity: Decimal)
      ensures State() == SnapshotState(id, branchId, productId, inventoryDate, year, month,
                                       actualQuantity, costPrice, systemQuantity, 0.0)
    {
      this.id := id;
      this.branchId := branchId;
      this.productId := productId;
      this.inventoryDate := inventoryDate;
      this.year := year;
      this.month := month;
      this.actualQuantity := actualQuantity;
      this.costPrice := costPrice;
      this.systemQuantity := systemQuantity;
      this.discrepancy := 0.0;
    }

    ghost function State(): SnapshotState
      reads this
    {
      SnapshotState(id, branchId, productId, inventoryDate, year, month,
                    actualQuantity, costPrice, systemQuantity, discrepancy)
    }

    /** Sets the discrepancy to actual minus system quantity. */
    method CalculateDiscrepancy()
      modifies this`discrepancy
      ensures discrepancy == actualQuantity - systemQuantity
      ensures State() == Recalculated(old(State()))
    {
      discrepancy := actualQuantity - systemQuantity;
    }

    /** The week bucket of the snapshot's date. */
    function WeekNumber(): (w: int)
      reads this
      ensures 1 <= w <= 4
      ensures w == 4 <==> inventoryDate.day >= 22
    {
      WeekOfMonth(inventoryDate.day)
    }
  }
}
