/** The inventory service: the workspace's items by name, item creation with
    its defaults, the partial quantity/threshold update and the low-stock list. */
module Inventory {
  import opened Common
  import opened Seqs
  import opened Store

  // ---------------------------------------------------------------------
  // listInventory
  // ---------------------------------------------------------------------

  /** Lexicographic order by character code, standing in for `ORDER BY name`. */
  predicate LexLe(a: string, b: string)
    decreases |a|
  {
    a == [] || (b != [] && (a[0] < b[0] || (a[0] == b[0] && LexLe(a[1..], b[1..]))))
  }

  /** Any two names are comparable, so sorting by name is well defined. */
  lemma {:induction false} LexTotal(a: string, b: string)
    ensures LexLe(a, b) || LexLe(b, a)
    decreases |a|
  {
    if a != [] && b != [] && a[0] == b[0] {
      LexTotal(a[1..], b[1..]);
    }
  }

  predicate NameNoLater(a: InventoryItem, b: InventoryItem) {
    LexLe(a.name, b.name)
  }

  /** listInventory: the workspace's items ordered by name. */
  function ListInventory(items: seq<InventoryItem>, wid: Id): (r: seq<InventoryItem>)
    ensures forall i :: i in r <==> i in items && i.workspaceId == wid
    ensures forall i :: multiset(r)[i] == if i.workspaceId == wid then multiset(items)[i] else 0
    ensures SortedBy(r, NameNoLater)
  {
    assert forall a, b :: NameNoLater(a, b) || NameNoLater(b, a) by {
      forall a: InventoryItem, b: InventoryItem ensures NameNoLater(a, b) || NameNoLater(b, a) {
        LexTotal(a.name, b.name);
      }
    }
    var rows := Filter(items, (i: InventoryItem) => i.workspaceId == wid);
    var r := SortBy(rows, NameNoLater);
    assert forall x :: x in r <==> x in multiset(r);
    assert forall x :: x in rows <==> x in multiset(rows);
    r
  }

  // ---------------------------------------------------------------------
  // createInventoryItem
  // ---------------------------------------------------------------------

  /** `SELECT * FROM inventory_items WHERE id = $1`, first row. */
  function FindItem(items: seq<InventoryItem>, id: Id): (r: Option<InventoryItem>)
    ensures r.None? <==> forall i :: i in items ==> i.id != id
    ensures r.Some? ==> r.value in items && r.value.id == id
  {
    FirstMatch(items, (i: InventoryItem) => i.id == id)
  }

  /** createInventoryItem: a fresh item read back by its id; the per-booking use
      defaults to 1, the low-stock threshold to 5 and the unit to "unit". */
  method CreateInventoryItem(db: Db, wid: Id, name: string, quantityAvailable: int,
                             quantityUsedPerBooking: Option<int>, lowStockThreshold: Option<int>,
                             unit: Option<string>) returns (created: InventoryItem)
    requires db.Valid()
    modifies db`inventory, db`nextId
    ensures db.Valid()
    ensures created == InventoryItem(old(db.nextId), wid, name, quantityAvailable,
                                     quantityUsedPerBooking.GetOr(1), lowStockThreshold.GetOr(5), unit.GetOr("unit"))
    ensures db.inventory == old(db.inventory) + [created]
    ensures forall i :: i in old(db.inventory) ==> i.id != created.id
  {
    var inserted := db.InsertInventoryItem(InventoryItem(0, wid, name, quantityAvailable,
      quantityUsedPerBooking.GetOr(1), lowStockThreshold.GetOr(5), unit.GetOr("unit")));
    assert FindItem(old(db.inventory), inserted.id).None?;
    FirstMatchSnoc(old(db.inventory), inserted, (i: InventoryItem) => i.id == inserted.id);
    var row := FindItem(db.inventory, inserted.id);
    created := row.value;
  }

  // ---------------------------------------------------------------------
  // updateInventoryItem
  // ---------------------------------------------------------------------

  predicate IsItem(i: InventoryItem, wid: Id, iid: Id) {
    i.id == iid && i.workspaceId == wid
  }

  /** The SET clause: each COALESCE keeps the stored value when no new one is given. */
  function Adjust(i: InventoryItem, quantity: Option<int>, threshold: Option<int>): InventoryItem {
    i.(quantityAvailable := quantity.GetOr(i.quantityAvailable), lowStockThreshold := threshold.GetOr(i.lowStockThreshold))
  }

  function AdjustRows(items: seq<InventoryItem>, wid: Id, iid: Id, quantity: Option<int>, threshold: Option<int>)
    : (r: seq<InventoryItem>)
    ensures |r| == |items|
  {
    seq(|items|, k requires 0 <= k < |items| =>
      if IsItem(items[k], wid, iid) then Adjust(items[k], quantity, threshold) else items[k])
  }

  datatype Updated = Updated(result: Result<InventoryItem>, items: seq<InventoryItem>)

  /** updateInventoryItem on the table: the matching row (id and workspace) takes the
      supplied fields and keeps the others; no matching row is 404 and no change. */
  function UpdateItem(items: seq<InventoryItem>, wid: Id, iid: Id, quantity: Option<int>, threshold: Option<int>)
    : (out: Updated)
    ensures out.result.Err? <==> forall i :: i in items ==> !IsItem(i, wid, iid)
    ensures out.result.Err? ==> out == Updated(Err(Fail(404, "Inventory item not found")), items)
    ensures out.result.Ok? ==>
      && |out.items| == |items|
      && (forall k :: 0 <= k < |items| ==>
            out.items[k] == if IsItem(items[k], wid, iid) then Adjust(items[k], quantity, threshold) else items[k])
      && out.result.value in out.items && IsItem(out.result.value, wid, iid)
  {
    match FirstMatch(items, (i: InventoryItem) => IsItem(i, wid, iid))
    case None => Updated(Err(Fail(404, "Inventory item not found")), items)
    case Some(i) =>
      var rows := AdjustRows(items, wid, iid, quantity, threshold);
      assert Adjust(i, quantity, threshold) in rows by {
        var k :| 0 <= k < |items| && items[k] == i;
        assert rows[k] == Adjust(i, quantity, threshold);
      }
      Updated(Ok(Adjust(i, quantity, threshold)), rows)
  }

  /** An update with neither field changes no value (only updated_at, not modelled). */
  lemma {:induction false} EmptyUpdateChangesNothing(items: seq<InventoryItem>, wid: Id, iid: Id)
    ensures UpdateItem(items, wid, iid, None, None).items == items
  {
    var out := UpdateItem(items, wid, iid, None, None);
    if out.result.Ok? {
      forall k | 0 <= k < |items| ensures out.items[k] == items[k] {
        assert Adjust(items[k], None, None) == items[k];
      }
    }
  }

  /** updateInventoryItem: the table update of `UpdateItem`, returning the updated row. */
  method UpdateInventoryItem(db: Db, wid: Id, iid: Id, quantity: Option<int>, threshold: Option<int>)
    returns (r: Result<InventoryItem>)
    requires db.Valid()
    modifies db`inventory
    ensures db.Valid()
    ensures Updated(r, db.inventory) == UpdateItem(old(db.inventory), wid, iid, quantity, threshold)
  {
    var out := UpdateItem(db.inventory, wid, iid, quantity, threshold);
    ghost var before := db.inventory;
    db.inventory := out.items;
    forall i | i in db.inventory ensures i.id < db.nextId {
      var k :| 0 <= k < |db.inventory| && db.inventory[k] == i;
      assert before[k] in before;
    }
    r := out.result;
  }

  // ---------------------------------------------------------------------
  // getLowStockItems
  // ---------------------------------------------------------------------

  /** The low-stock test: at or below the item's own threshold. */
  predicate IsLow(i: InventoryItem, wid: Id) {
    i.workspaceId == wid && i.quantityAvailable <= i.lowStockThreshold
  }

  predicate QuantityNoMore(a: InventoryItem, b: InventoryItem) {
    a.quantityAvailable <= b.quantityAvailable
  }

  /** getLowStockItems: exactly the low items, scarcest first. */
  function LowStockItems(items: seq<InventoryItem>, wid: Id): (r: seq<InventoryItem>)
    ensures forall i :: i in r <==> i in items && IsLow(i, wid)
    ensures forall i :: multiset(r)[i] == if IsLow(i, wid) then multiset(items)[i] else 0
    ensures SortedBy(r, QuantityNoMore)
  {
    var rows := Filter(items, (i: InventoryItem) => IsLow(i, wid));
    var r := SortBy(rows, QuantityNoMore);
    assert forall x :: x in r <==> x in multiset(r);
    assert forall x :: x in rows <==> x in multiset(rows);
    r
  }

  /** Lowering an item's quantity to its threshold or below puts it on the low-stock list. */
  lemma UpdateIntoLowStock(items: seq<InventoryItem>, wid: Id, iid: Id, quantity: int)
    requires UpdateItem(items, wid, iid, Some(quantity), None).result.Ok?
    requires quantity <= UpdateItem(items, wid, iid, Some(quantity), None).result.value.lowStockThreshold
    ensures var out := UpdateItem(items, wid, iid, Some(quantity), None);
            out.result.value in LowStockItems(out.items, wid)
  {
  }
}
