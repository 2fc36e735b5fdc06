/** The database the services share. A database transaction is a snapshot taken
    before the first write and restored when the call fails. */
module DatabaseClient {
  import opened Wrappers
  import opened StockOrder
  import opened StockLedger
  import opened ReservationRows
  import opened InventoryTables

  class Database {
    var transactions: seq<Transaction>
    var reservations: seq<Reservation>
    var ledger: seq<Movement>
    var stock: Stock
    var products: map<int, Product>
    var warehouses: map<int, bool>
    var suppliers: map<int, bool>
    var reviews: seq<Review>
    var nextItemId: nat

    constructor ()
      ensures Sound(Snapshot()) && Covered(Snapshot())
      ensures Snapshot() == EmptyTables()
    {
      transactions, reservations, ledger, stock := [], [], [], map[];
      products, warehouses, suppliers := map[], map[], map[];
      reviews, nextItemId := [], 0;
    }

    function Snapshot(): Tables
      reads this
    {
      Tables(transactions, reservations, ledger, stock, products, warehouses, suppliers, reviews, nextItemId)
    }

    method Restore(t: Tables)
      modifies this
      ensures Snapshot() == t
    {
      transactions, reservations, ledger, stock := t.transactions, t.reservations, t.ledger, t.stock;
      products, warehouses, suppliers := t.products, t.warehouses, t.suppliers;
      reviews, nextItemId := t.reviews, t.nextItemId;
    }

    /** UPDATE InventoryTransactionItem ... WHERE id = change.itemId */
    method UpdateItem(id: nat, change: ItemChange)
      requires id < |transactions|
      modifies this`transactions
      ensures |transactions| == |old(transactions)|
      ensures forall i :: 0 <= i < |transactions| && i != id ==> transactions[i] == old(transactions[i])
      ensures |transactions[id].items| == |old(transactions[id].items)|
      ensures transactions[id] == old(transactions[id]).(items := transactions[id].items)
      ensures forall x :: 0 <= x < |transactions[id].items| ==>
        transactions[id].items[x] ==
        if old(transactions[id].items)[x].id == change.itemId then Changed(old(transactions[id].items)[x], change)
        else old(transactions[id].items)[x]
    {
      var items := transactions[id].items;
      var after := seq(|items|, x requires 0 <= x < |items| =>
        if items[x].id == change.itemId then Changed(items[x], change) else items[x]);
      transactions := transactions[id := transactions[id].(items := after)];
    }
  }

  function EmptyTables(): Tables {
    Tables([], [], [], map[], map[], map[], map[], [], 0)
  }
}
