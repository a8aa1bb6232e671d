/** Normalization records: the reconciliation of a physical count against the
    system quantity of one inventory, and the table that stores them. */
module InventoryNormalization {
  import opened Common

  /** One row of the `InventoryNormalizations` table. */
  datatype Normalization = Normalization(
    id: int,
    inventoryId: int,
    adjustedQuantity: Decimal,
    normalizationDate: DateTime,
    systemQuantity: Decimal,
    actualQuantity: Decimal,
    costPrice: Decimal,
    discrepancyValue: Decimal,
    createdBy: Option<string>,
    remarks: Option<string>)

  /** The request that creates a normalization record. */
  datatype CreateNormalizationDto = CreateNormalizationDto(
    inventoryId: int,
    actualQuantity: Decimal,
    systemQuantity: Decimal,
    costPrice: Decimal,
    normalizationDate: DateTime,
    createdBy: Option<string>,
    remarks: Option<string>)

  /** The request that updates a normalization record. Only `inventoryId`,
      `adjustedQuantity` and `normalizationDate` are ever read from it. */
  datatype NormalizationDto = NormalizationDto(
    inventoryId: int,
    adjustedQuantity: Decimal,
    systemQuantity: Decimal,
    actualQuantity: Decimal,
    discrepancyValue: Decimal,
    normalizationDate: DateTime,
    remarks: Option<string>,
    createdBy: Option<string>)

  /** The reconciliation identities of a freshly created record: the adjustment
      is the counted surplus (or shortage), and its value is the adjustment
      priced at cost. */
  predicate Reconciled(n: Normalization)
  {
    && n.adjustedQuantity == n.actualQuantity - n.systemQuantity
    && n.discrepancyValue == n.adjustedQuantity * n.costPrice
  }

  /** Every field the request supplies is stored as given. */
  predicate CopiedFrom(n: Normalization, dto: CreateNormalizationDto)
  {
    && n.inventoryId == dto.inventoryId
    && n.normalizationDate == dto.normalizationDate
    && n.systemQuantity == dto.systemQuantity
    && n.actualQuantity == dto.actualQuantity
    && n.costPrice == dto.costPrice
    && n.createdBy == dto.createdBy
    && n.remarks == dto.remarks
  }

  /** The record that creating from `dto` builds, before it is stored under `id`. */
  function FromCreateDto(id: int, dto: CreateNormalizationDto): (n: Normalization)
    ensures n.id == id
    ensures CopiedFrom(n, dto)
    ensures Reconciled(n)
  {
    Normalization(
      id := id,
      inventoryId := dto.inventoryId,
      adjustedQuantity := dto.actualQuantity - dto.systemQuantity,
      normalizationDate := dto.normalizationDate,
      systemQuantity := dto.systemQuantity,
      actualQuantity := dto.actualQuantity,
      costPrice := dto.costPrice,
      discrepancyValue := (dto.actualQuantity - dto.systemQuantity) * dto.costPrice,
      createdBy := dto.createdBy,
      remarks := dto.remarks)
  }

  /** The record `n` after an update with `dto`: three fields take the
      request's values and every other field is left as it was. */
  function Updated(n: Normalization, dto: NormalizationDto): (m: Normalization)
    ensures m.adjustedQuantity == dto.adjustedQuantity
    ensures m.normalizationDate == dto.normalizationDate
    ensures m.inventoryId == dto.inventoryId
    ensures m.(adjustedQuantity := n.adjustedQuantity,
               normalizationDate := n.normalizationDate,
               inventoryId := n.inventoryId) == n
  {
    n.(adjustedQuantity := dto.adjustedQuantity,
       normalizationDate := dto.normalizationDate,
       inventoryId := dto.inventoryId)
  }

  /** A count that matches the system quantity records no adjustment and no
      monetary discrepancy. */
  lemma BalancedCountHasNoDiscrepancy(dto: CreateNormalizationDto, id: int)
    requires dto.actualQuantity == dto.systemQuantity
    ensures FromCreateDto(id, dto).adjustedQuantity == 0.0
    ensures FromCreateDto(id, dto).discrepancyValue == 0.0
  {
  }

  /** With a positive cost price, the sign of the discrepancy value is the
      sign of actual minus system quantity. */
  lemma DiscrepancySign(n: Normalization)
    requires Reconciled(n)
    requires n.costPrice > 0.0
    ensures n.discrepancyValue > 0.0 <==> n.actualQuantity > n.systemQuantity
    ensures n.discrepancyValue < 0.0 <==> n.actualQuantity < n.systemQuantity
    ensures n.discrepancyValue == 0.0 <==> n.actualQuantity == n.systemQuantity
  {
  }

  /** An update keeps a reconciled record reconciled exactly when the new
      adjustment happens to equal actual minus system quantity: the update
      does not recompute the identities itself. */
  lemma UpdatePreservesReconciledIff(n: Normalization, dto: NormalizationDto)
    requires Reconciled(n)
    ensures Reconciled(Updated(n, dto)) <==> dto.adjustedQuantity == n.actualQuantity - n.systemQuantity
  {
  }

  /** A concrete update that leaves a record whose adjustment no longer equals
      actual minus system quantity. */
  lemma UpdateCanBreakReconciliation()
    ensures exists n: Normalization, dto: NormalizationDto ::
      Reconciled(n) && dto.adjustedQuantity >= 0.0 && !Reconciled(Updated(n, dto))
  {
    var date := DateTime(2024, 11, 17);
    var n := Normalization(1, 1, 2.0, date, 3.0, 5.0, 10.0, 20.0, None, None);
    var dto := NormalizationDto(1, 0.0, 0.0, 0.0, 0.0, date, None, None);
    assert Reconciled(n) && !Reconciled(Updated(n, dto));
  }

  /** The `InventoryNormalizations` table, keyed by record id. New ids come
      from an identity counter that starts at 1. */
  class NormalizationTable {
    var records: map<int, Normalization>
    var nextId: int

    /** Each record is stored under its own id, and every id is below the next
        identity value. */
    ghost predicate Valid()
      reads this
    {
      && nextId >= 1
      && forall id :: id in records ==> records[id].id == id && 1 <= id < nextId
    }

    constructor ()
      ensures Valid()
      ensures records == map[]
    {
      records := map[];
      nextId := 1;
    }

    /** Looks a record up by id; `None` when no record has that id. */
    function GetById(id: int): (r: Option<Normalization>)
      reads this
      requires Valid()
      ensures r.Some? <==> id in records
      ensures r.Some? ==> r.value.id == id && r.value in records.Values
    {
      if id in records then Some(records[id]) else None
    }

    /** All stored records. */
    function GetAll(): (all: set<Normalization>)
      reads this
      requires Valid()
      ensures forall n :: n in all <==> GetById(n.id) == Some(n)
    {
      set id | id in records :: records[id]
    }

    /** Builds a record from the request and appends it under a new id. */
    method Create(dto: CreateNormalizationDto) returns (n: Normalization)
      requires Valid()
      modifies this
      ensures Valid()
      ensures n.id !in old(records)
      ensures n == FromCreateDto(n.id, dto)
      ensures records == old(records)[n.id := n]
      ensures |records| == |old(records)| + 1
    {
      n := FromCreateDto(nextId, dto);
      assert nextId !in records;
      records := records[nextId := n];
      nextId := nextId + 1;
    }

    /** Overwrites adjusted quantity, date and inventory of record `id`;
        `None` and no change when no record has that id. */
    method Update(id: int, dto: NormalizationDto) returns (r: Option<Normalization>)
      requires Valid()
      requires dto.adjustedQuantity >= 0.0
      modifies this
      ensures Valid()
      ensures nextId == old(nextId)
      ensures id !in old(records) ==> r == None && records == old(records)
      ensures id in old(records) ==>
        && r == Some(Updated(old(records)[id], dto))
        && records == old(records)[id := r.value]
    {
      if id !in records {
        return None;
      }
      var m := Updated(records[id], dto);
      records := records[id := m];
      r := Some(m);
    }

    /** Removes record `id` from the table; `false` and no change when no
        record has that id. */
    method Delete(id: int) returns (deleted: bool)
      requires Valid()
      modifies this
      ensures Valid()
      ensures nextId == old(nextId)
      ensures deleted <==> id in old(records)
      ensures records == old(records) - {id}
      ensures GetById(id) == None
    {
      if id !in records {
        return false;
      }
      records := records - {id};
      deleted := true;
    }
  }
}
