/**
 * Transaction rows and the structured filter applied before baskets are
 * built (web_app/backend/app.py, lines 39-42).
 */
module Rows {
  import opened Wrappers

  /**
   * One line of the uploaded table. Prices are integer cents (None for a
   * missing cell); purchase dates are day numbers.
   */
  datatype Row = Row(
    customerId: int,
    productName: string,
    productCategory: string,
    storeId: int,
    price: Option<int>,
    purchaseDate: int)

  /** The client's filter as a record of two optional equality predicates. */
  datatype Filter = Filter(category: Option<string>, storeId: Option<int>)

  /** `filters.get('category')` is truthy: present and not the empty string. */
  predicate CategoryActive(f: Filter) {
    f.category.Some? && f.category.value != ""
  }

  /** `filters.get('storeId')` is truthy: present and not zero. */
  predicate StoreActive(f: Filter) {
    f.storeId.Some? && f.storeId.value != 0
  }

  /** A row passes every predicate that is switched on. */
  predicate Matches(f: Filter, r: Row) {
    && (CategoryActive(f) ==> r.productCategory == f.category.value)
    && (StoreActive(f) ==> r.storeId == f.storeId.value)
  }

  /** `df[df['product_category'] == c]` */
  function KeepCategory(rows: seq<Row>, c: string): (kept: seq<Row>)
    ensures |kept| <= |rows|
    ensures forall r :: r in kept <==> r in rows && r.productCategory == c
  {
    if rows == [] then []
    else (if rows[0].productCategory == c then [rows[0]] else []) + KeepCategory(rows[1..], c)
  }

  /** `df[df['store_id'] == s]` */
  function KeepStore(rows: seq<Row>, s: int): (kept: seq<Row>)
    ensures |kept| <= |rows|
    ensures forall r :: r in kept <==> r in rows && r.storeId == s
  {
    if rows == [] then []
    else (if rows[0].storeId == s then [rows[0]] else []) + KeepStore(rows[1..], s)
  }

  /** Category first, then store, each only when its field is truthy. */
  function ApplyFilter(rows: seq<Row>, f: Filter): seq<Row> {
    var byCategory := if CategoryActive(f) then KeepCategory(rows, f.category.value) else rows;
    if StoreActive(f) then KeepStore(byCategory, f.storeId.value) else byCategory
  }

  /** Reference definition: one pass keeping the rows that match the whole filter. */
  function Selected(rows: seq<Row>, f: Filter): seq<Row> {
    if rows == [] then []
    else (if Matches(f, rows[0]) then [rows[0]] else []) + Selected(rows[1..], f)
  }

  /** The two-stage filter of the source equals the one-pass reference filter. */
  lemma {:induction false} ApplyFilterIsSelected(rows: seq<Row>, f: Filter)
    ensures ApplyFilter(rows, f) == Selected(rows, f)
  {
    if rows != [] {
      ApplyFilterIsSelected(rows[1..], f);
      var r, tail := rows[0], rows[1..];
      var byCategory := if CategoryActive(f) then KeepCategory(rows, f.category.value) else rows;
      var byCategoryTail := if CategoryActive(f) then KeepCategory(tail, f.category.value) else tail;
      var head := if !CategoryActive(f) || r.productCategory == f.category.value then [r] else [];
      assert byCategory == head + byCategoryTail;
      if StoreActive(f) {
        var s := f.storeId.value;
        if head != [] {
          assert (head + byCategoryTail)[1..] == byCategoryTail;
          assert KeepStore(byCategory, s) == (if r.storeId == s then [r] else []) + KeepStore(byCategoryTail, s);
        } else {
          assert byCategory == byCategoryTail;
        }
      }
    }
  }

  /** Exactly the matching rows remain. */
  lemma {:induction false} SelectedMembers(rows: seq<Row>, f: Filter)
    ensures forall r :: r in Selected(rows, f) <==> r in rows && Matches(f, r)
    ensures |Selected(rows, f)| <= |rows|
  {
    if rows != [] {
      SelectedMembers(rows[1..], f);
      assert forall r :: r in rows <==> r == rows[0] || r in rows[1..];
    }
  }

  /** Order is kept: filtering a concatenation filters each part in place. */
  lemma {:induction false} SelectedConcat(a: seq<Row>, b: seq<Row>, f: Filter)
    ensures Selected(a + b, f) == Selected(a, f) + Selected(b, f)
  {
    if a == [] {
      assert a + b == b;
    } else {
      assert (a + b)[1..] == a[1..] + b;
      SelectedConcat(a[1..], b, f);
    }
  }

  /** A filter with no truthy field removes nothing. */
  lemma {:induction false} InactiveFilterKeepsAll(rows: seq<Row>, f: Filter)
    requires !CategoryActive(f) && !StoreActive(f)
    ensures Selected(rows, f) == rows
  {
    if rows != [] {
      InactiveFilterKeepsAll(rows[1..], f);
    }
  }
}
