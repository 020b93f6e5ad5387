/** The billing service's `payments` table row (billing_service/src/db/models/payments.py). */
module Payments {

  import opened Wrappers
  import opened Decimals

  /** One row.  id is the primary key; order_id is indexed but not unique; processed_at
      may be null; amount is a Float column, kept exact here. */
  datatype Payment = Payment(
    id: int, orderId: int, userId: int, amount: Decimal, status: string,
    processedAt: Option<int>, createdAt: int)

  /** The primary key holds: ids are strictly increasing along the table, as a sequence
      hands them out, and all lie below the next value of the sequence. */
  predicate IdsIncreasingBelow(rows: seq<Payment>, next: int) {
    && (forall i, j :: 0 <= i < j < |rows| ==> rows[i].id < rows[j].id)
    && (forall i :: 0 <= i < |rows| ==> rows[i].id < next)
  }

  /** Ids are unique. */
  predicate UniqueIds(rows: seq<Payment>) {
    forall i, j :: 0 <= i < |rows| && 0 <= j < |rows| && i != j ==> rows[i].id != rows[j].id
  }

  lemma IncreasingIdsAreUnique(rows: seq<Payment>, next: int)
    requires IdsIncreasingBelow(rows, next)
    ensures UniqueIds(rows)
  {
    forall i, j | 0 <= i < |rows| && 0 <= j < |rows| && i != j
      ensures rows[i].id != rows[j].id
    {
      if i < j { assert rows[i].id < rows[j].id; } else { assert rows[j].id < rows[i].id; }
    }
  }

  /** Appending a row whose id is the next sequence value keeps the key property. */
  lemma AppendKeepsIds(rows: seq<Payment>, next: int, p: Payment)
    requires IdsIncreasingBelow(rows, next) && p.id == next
    ensures IdsIncreasingBelow(rows + [p], next + 1)
  {
  }

  /** The number of rows that reference an order. */
  function CountForOrder(rows: seq<Payment>, orderId: int): (n: nat)
    ensures n <= |rows|
  {
    if rows == [] then 0
    else CountForOrder(rows[..|rows| - 1], orderId) + (if rows[|rows| - 1].orderId == orderId then 1 else 0)
  }

  lemma CountAppend(rows: seq<Payment>, p: Payment, orderId: int)
    ensures CountForOrder(rows + [p], orderId) == CountForOrder(rows, orderId) + (if p.orderId == orderId then 1 else 0)
  {
    assert (rows + [p])[..|rows|] == rows;
  }
}
