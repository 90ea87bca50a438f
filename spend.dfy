/**
 * Per-customer spend, the input of the segmentation step
 * (web_app/backend/app.py, lines 90-95): the sum of the prices of each
 * customer's filtered rows, a missing price cell adding nothing. Amounts
 * are integer cents.
 */
module Spend {
  import opened Wrappers
  import opened Rows
  import opened Baskets

  /** A missing price cell adds nothing, as `sum()` skips it. */
  function PriceOrZero(r: Row): int {
    match r.price
    case Some(p) => p
    case None => 0
  }

  /** `df.groupby('customer_id')['price'].sum()` for one key. */
  function CustomerSpend(rows: seq<Row>, c: int): int {
    if rows == [] then 0
    else (if rows[0].customerId == c then PriceOrZero(rows[0]) else 0) + CustomerSpend(rows[1..], c)
  }

  /** The spend table: one (customer, total) entry per group key, in ascending key order. */
  function SpendData(rows: seq<Row>): seq<(int, int)> {
    var bs := GroupByCustomer(rows);
    seq(|bs|, i requires 0 <= i < |bs| => (bs[i].customerId, CustomerSpend(rows, bs[i].customerId)))
  }

  /** Spend splits over a concatenation of tables. */
  lemma {:induction false} SpendConcat(a: seq<Row>, b: seq<Row>, c: int)
    ensures CustomerSpend(a + b, c) == CustomerSpend(a, c) + CustomerSpend(b, c)
  {
    if a == [] {
      assert a + b == b;
    } else {
      assert (a + b)[1..] == a[1..] + b;
      SpendConcat(a[1..], b, c);
    }
  }

  /** A customer's own row adds its price to that customer's spend. */
  lemma {:induction false} SpendAddsOwn(rows: seq<Row>, r: Row)
    ensures CustomerSpend(rows + [r], r.customerId) == CustomerSpend(rows, r.customerId) + PriceOrZero(r)
  {
    SpendConcat(rows, [r], r.customerId);
  }

  /** A row of another customer, or one whose price is missing, adds nothing. */
  lemma SpendIgnores(rows: seq<Row>, r: Row, c: int)
    requires r.customerId != c || r.price == None
    ensures CustomerSpend(rows + [r], c) == CustomerSpend(rows, c)
  {
    SpendConcat(rows, [r], c);
  }

  /** With no negative price, nobody's spend is negative. */
  lemma {:induction false} SpendNonNegative(rows: seq<Row>, c: int)
    requires forall i :: 0 <= i < |rows| ==> PriceOrZero(rows[i]) >= 0
    ensures CustomerSpend(rows, c) >= 0
  {
    if rows != [] {
      SpendNonNegative(rows[1..], c);
    }
  }

  /**
   * Exactly the customers occurring in the rows get a spend entry, one each,
   * in ascending order, holding that customer's total.
   */
  lemma SpendDataSpec(rows: seq<Row>)
    ensures var sd := SpendData(rows);
      && |sd| == |GroupByCustomer(rows)|
      && (forall c :: c in CustomerIds(rows) <==> exists i :: 0 <= i < |sd| && sd[i].0 == c)
      && (forall i :: 0 <= i < |sd| ==> sd[i].1 == CustomerSpend(rows, sd[i].0))
      && (forall i, j :: 0 <= i < j < |sd| ==> sd[i].0 < sd[j].0)
  {
    var bs := GroupByCustomer(rows);
    IdsIndex(bs);
    assert forall i :: 0 <= i < |bs| ==> SpendData(rows)[i].0 == bs[i].customerId;
  }
}
