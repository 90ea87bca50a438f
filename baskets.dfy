/**
 * The basket builder: `df.groupby('customer_id')['product_name'].apply(set)`
 * (web_app/backend/app.py, lines 44-47). Group keys come out in ascending
 * order, as pandas sorts them by default.
 */
module Baskets {
  import opened Rows

  /** The distinct products one customer bought. */
  datatype Basket = Basket(customerId: int, items: set<string>)

  predicate Ascending(bs: seq<Basket>) {
    forall i, j :: 0 <= i < j < |bs| ==> bs[i].customerId < bs[j].customerId
  }

  function Ids(bs: seq<Basket>): set<int> {
    if bs == [] then {} else {bs[0].customerId} + Ids(bs[1..])
  }

  lemma {:induction false} IdsIndex(bs: seq<Basket>)
    ensures forall id :: id in Ids(bs) <==> exists j :: 0 <= j < |bs| && bs[j].customerId == id
  {
    if bs != [] {
      IdsIndex(bs[1..]);
      assert forall j :: 0 < j < |bs| ==> bs[j] == bs[1..][j - 1];
    }
  }

  /** The items of the basket keyed `id`, or none when there is no such basket. */
  function Find(bs: seq<Basket>, id: int): set<string> {
    if bs == [] then {}
    else if bs[0].customerId == id then bs[0].items
    else Find(bs[1..], id)
  }

  /** The customer ids occurring in the rows. */
  function CustomerIds(rows: seq<Row>): set<int> {
    set r | r in rows :: r.customerId
  }

  /** The products on the rows of one customer. */
  function ItemsOf(rows: seq<Row>, id: int): set<string> {
    set r | r in rows && r.customerId == id :: r.productName
  }

  /** Puts one row into its customer's basket, opening a new basket in key order when needed. */
  function AddRow(bs: seq<Basket>, r: Row): seq<Basket> {
    if bs == [] then [Basket(r.customerId, {r.productName})]
    else if r.customerId == bs[0].customerId then [bs[0].(items := bs[0].items + {r.productName})] + bs[1..]
    else if r.customerId < bs[0].customerId then [Basket(r.customerId, {r.productName})] + bs
    else [bs[0]] + AddRow(bs[1..], r)
  }

  /** Adding a row adds its customer to the keys. */
  lemma {:induction false} AddRowIds(bs: seq<Basket>, r: Row)
    ensures Ids(AddRow(bs, r)) == Ids(bs) + {r.customerId}
  {
    var bs' := AddRow(bs, r);
    if bs == [] {
    } else if r.customerId == bs[0].customerId {
      assert bs'[1..] == bs[1..];
    } else if r.customerId < bs[0].customerId {
      assert bs'[1..] == bs;
    } else {
      AddRowIds(bs[1..], r);
      assert bs'[1..] == AddRow(bs[1..], r);
    }
  }

  /** Every key after the first of an ascending sequence exceeds the first. */
  lemma IdsAboveFirst(bs: seq<Basket>)
    requires Ascending(bs) && bs != []
    ensures forall id :: id in Ids(bs[1..]) ==> bs[0].customerId < id
  {
    IdsIndex(bs[1..]);
    assert forall j :: 0 <= j < |bs[1..]| ==> bs[1..][j] == bs[j + 1];
  }

  lemma AscendingCons(b: Basket, t: seq<Basket>)
    requires Ascending(t)
    requires forall id :: id in Ids(t) ==> b.customerId < id
    ensures Ascending([b] + t)
  {
    IdsIndex(t);
    assert forall j :: 0 <= j < |t| ==> t[j].customerId in Ids(t);
  }

  /** Adding a row keeps the keys ascending. */
  lemma {:induction false} AddRowAscending(bs: seq<Basket>, r: Row)
    requires Ascending(bs)
    ensures Ascending(AddRow(bs, r))
  {
    if bs == [] {
    } else if r.customerId == bs[0].customerId {
      IdsAboveFirst(bs);
      AscendingCons(bs[0].(items := bs[0].items + {r.productName}), bs[1..]);
    } else if r.customerId < bs[0].customerId {
      IdsAboveFirst(bs);
      assert bs == [bs[0]] + bs[1..];
      AscendingCons(Basket(r.customerId, {r.productName}), bs);
    } else {
      var tail := AddRow(bs[1..], r);
      AddRowAscending(bs[1..], r);
      AddRowIds(bs[1..], r);
      IdsAboveFirst(bs);
      AscendingCons(bs[0], tail);
    }
  }

  /** Adding a row adds its product to its customer's basket and changes no other basket. */
  lemma {:induction false} AddRowFind(bs: seq<Basket>, r: Row, id: int)
    requires Ascending(bs)
    ensures Find(AddRow(bs, r), id) == if id == r.customerId then Find(bs, id) + {r.productName} else Find(bs, id)
  {
    if bs == [] {
    } else if r.customerId == bs[0].customerId {
    } else if r.customerId < bs[0].customerId {
      if id == r.customerId {
        FindAbsent(bs, id);
      }
    } else {
      AddRowFind(bs[1..], r, id);
    }
  }

  /** A key below the first key of an ascending sequence has no basket. */
  lemma {:induction false} FindAbsent(bs: seq<Basket>, id: int)
    requires Ascending(bs)
    requires bs != [] ==> id < bs[0].customerId
    ensures Find(bs, id) == {}
  {
    if bs != [] {
      FindAbsent(bs[1..], id);
    }
  }

  /** One basket per distinct customer id, in ascending order, each holding that customer's products. */
  function GroupByCustomer(rows: seq<Row>): (bs: seq<Basket>)
    ensures Ascending(bs)
    ensures Ids(bs) == CustomerIds(rows)
    ensures forall id :: Find(bs, id) == ItemsOf(rows, id)
  {
    if rows == [] then []
    else
      var rest := GroupByCustomer(rows[1..]);
      assert forall r :: r in rows <==> r == rows[0] || r in rows[1..];
      assert CustomerIds(rows) == CustomerIds(rows[1..]) + {rows[0].customerId};
      AddRowAscending(rest, rows[0]);
      AddRowIds(rest, rows[0]);
      assert forall id :: Find(AddRow(rest, rows[0]), id) == ItemsOf(rows, id) by {
        forall id ensures Find(AddRow(rest, rows[0]), id) == ItemsOf(rows, id) {
          AddRowFind(rest, rows[0], id);
          assert ItemsOf(rows, id) == if id == rows[0].customerId then ItemsOf(rows[1..], id) + {rows[0].productName} else ItemsOf(rows[1..], id);
        }
      }
      AddRow(rest, rows[0])
  }

  /** In an ascending sequence, looking up a basket's own key finds that basket. */
  lemma {:induction false} FindAt(bs: seq<Basket>, i: nat)
    requires Ascending(bs) && i < |bs|
    ensures Find(bs, bs[i].customerId) == bs[i].items
  {
    if i > 0 {
      FindAt(bs[1..], i - 1);
    }
  }

  /**
   * Each basket holds exactly its customer's products and is never empty.
   */
  lemma BasketItems(rows: seq<Row>, i: nat)
    requires i < |GroupByCustomer(rows)|
    ensures var b := GroupByCustomer(rows)[i];
      b.items == ItemsOf(rows, b.customerId) && b.items != {}
  {
    var bs := GroupByCustomer(rows);
    FindAt(bs, i);
    IdsIndex(bs);
    assert bs[i].customerId in CustomerIds(rows);
    var r :| r in rows && r.customerId == bs[i].customerId;
    assert r.productName in ItemsOf(rows, bs[i].customerId);
  }

  /** There are no baskets iff there are no rows. */
  lemma NoBasketsIffNoRows(rows: seq<Row>)
    ensures |GroupByCustomer(rows)| == 0 <==> |rows| == 0
  {
    if |rows| > 0 {
      assert rows[0].customerId in CustomerIds(rows);
    }
  }
}
