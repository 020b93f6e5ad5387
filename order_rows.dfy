/** The order service's `orders` table row (order_service/src/db/models/orders.py). */
module OrderRows {

  import opened Decimals

  /** One row: id is the primary key, user_id and amount are required (amount is a
      Float column, kept exact here), created_at is the server's insert time. */
  datatype Order = Order(id: int, userId: int, amount: Decimal, createdAt: int)

  /** The primary key holds: ids strictly increase along the table, as the id sequence
      hands them out, and all lie below the sequence's next value. */
  predicate IdsIncreasingBelow(rows: seq<Order>, next: int) {
    && (forall i, j :: 0 <= i < j < |rows| ==> rows[i].id < rows[j].id)
    && (forall i :: 0 <= i < |rows| ==> rows[i].id < next)
  }

  /** Appending the row that took the sequence's next value keeps the key property. */
  lemma AppendKeepsIds(rows: seq<Order>, next: int, o: Order)
    requires IdsIncreasingBelow(rows, next) && o.id == next
    ensures IdsIncreasingBelow(rows + [o], next + 1)
  {
  }

  /** The row the INSERT stores: created_at is the insert time. */
  function NewOrder(id: int, userId: int, amount: Decimal, now: int): (o: Order)
    ensures o.id == id && o.userId == userId && o.amount == amount && o.createdAt == now
  {
    Order(id, userId, amount, now)
  }
}
