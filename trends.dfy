/**
 * The trends query (web_app/backend/app.py, lines 139-146): an optional
 * inclusive date-range filter, then the five product names with the most
 * rows, `value_counts().head(5)`. The model's ranking breaks ties between
 * equal counts by first appearance.
 */
module Trends {
  import opened Wrappers
  import opened Rows
  import opened Seqs

  const TopCount: nat := 5

  /** Rows whose purchase date lies in `[start, end]`. */
  function InRange(rows: seq<Row>, start: int, end: int): (kept: seq<Row>)
    ensures |kept| <= |rows|
    ensures forall r :: r in kept <==> r in rows && start <= r.purchaseDate <= end
  {
    if rows == [] then []
    else
      assert forall r :: r in rows <==> r == rows[0] || r in rows[1..];
      (if start <= rows[0].purchaseDate <= end then [rows[0]] else []) + InRange(rows[1..], start, end)
  }

  /** Each in-range row is kept once, in its original place. */
  lemma {:induction false} InRangeConcat(a: seq<Row>, b: seq<Row>, start: int, end: int)
    ensures InRange(a + b, start, end) == InRange(a, start, end) + InRange(b, start, end)
  {
    if a == [] {
      assert a + b == b;
    } else {
      assert (a + b)[1..] == a[1..] + b;
      InRangeConcat(a[1..], b, start, end);
    }
  }

  /** `if start_date and end_date:` the range applies only when both bounds are given. */
  function DateFiltered(rows: seq<Row>, start: Option<int>, end: Option<int>): seq<Row> {
    if start.Some? && end.Some? then InRange(rows, start.value, end.value) else rows
  }

  /** `filtered_df['product_name']` */
  function Names(rows: seq<Row>): (names: seq<string>)
    ensures |names| == |rows|
    ensures forall i :: 0 <= i < |rows| ==> names[i] == rows[i].productName
  {
    if rows == [] then [] else [rows[0].productName] + Names(rows[1..])
  }

  /** How many times `p` occurs. */
  function Count(names: seq<string>, p: string): nat {
    if names == [] then 0
    else (if names[0] == p then 1 else 0) + Count(names[1..], p)
  }

  lemma {:induction false} CountPositive(names: seq<string>, p: string)
    ensures Count(names, p) > 0 <==> p in names
  {
    if names != [] {
      CountPositive(names[1..], p);
      assert p in names <==> p == names[0] || p in names[1..];
    }
  }

  predicate NoDuplicates(s: seq<string>) {
    forall i, j :: 0 <= i < j < |s| ==> s[i] != s[j]
  }

  /** The distinct names in order of first occurrence. */
  function Distinct(names: seq<string>): (d: seq<string>)
    ensures NoDuplicates(d)
    ensures forall p :: p in d <==> p in names
  {
    if names == [] then []
    else
      var init := names[..|names| - 1];
      var last := names[|names| - 1];
      assert names == init + [last];
      Distinct(init) + (if last in init then [] else [last])
  }

  /** Counts do not increase along `s`. */
  predicate ByCount(names: seq<string>, s: seq<string>) {
    forall i, j :: 0 <= i < j < |s| ==> Count(names, s[i]) >= Count(names, s[j])
  }

  /** Places `x` before the first entry whose count does not exceed its own. */
  function InsertByCount(names: seq<string>, x: string, s: seq<string>): (r: seq<string>)
    ensures |r| == |s| + 1
    ensures forall y :: y in r <==> y == x || y in s
  {
    if s == [] then [x]
    else if Count(names, s[0]) <= Count(names, x) then [x] + s
    else
      assert forall y :: y in s <==> y == s[0] || y in s[1..];
      [s[0]] + InsertByCount(names, x, s[1..])
  }

  lemma {:induction false} InsertKeepsOrder(names: seq<string>, x: string, s: seq<string>)
    requires ByCount(names, s)
    ensures ByCount(names, InsertByCount(names, x, s))
  {
    if s != [] && Count(names, s[0]) > Count(names, x) {
      var rest := InsertByCount(names, x, s[1..]);
      InsertKeepsOrder(names, x, s[1..]);
      assert forall j :: 0 <= j < |rest| ==> rest[j] in rest;
      assert forall j :: 0 <= j < |rest| ==> Count(names, s[0]) >= Count(names, rest[j]);
    }
  }

  lemma NoDuplicatesCons(h: string, t: seq<string>)
    requires NoDuplicates(t) && h !in t
    ensures NoDuplicates([h] + t)
  {
    forall i, j | 0 <= i < j < |[h] + t|
      ensures ([h] + t)[i] != ([h] + t)[j]
    {
      if i == 0 {
        assert ([h] + t)[j] == t[j - 1];
      } else {
        assert ([h] + t)[i] == t[i - 1] && ([h] + t)[j] == t[j - 1];
      }
    }
  }

  lemma {:induction false} InsertKeepsDistinct(names: seq<string>, x: string, s: seq<string>)
    requires NoDuplicates(s) && x !in s
    ensures NoDuplicates(InsertByCount(names, x, s))
  {
    if s == [] {
    } else if Count(names, s[0]) <= Count(names, x) {
      NoDuplicatesCons(x, s);
    } else {
      var rest := InsertByCount(names, x, s[1..]);
      assert NoDuplicates(s[1..]);
      assert forall k :: 0 <= k < |s[1..]| ==> s[1..][k] == s[k + 1];
      InsertKeepsDistinct(names, x, s[1..]);
      NoDuplicatesCons(s[0], rest);
    }
  }

  /** A stable insertion sort by descending count. */
  function SortByCount(names: seq<string>, s: seq<string>): (r: seq<string>)
    ensures ByCount(names, r)
    ensures |r| == |s|
    ensures forall y :: y in r <==> y in s
    ensures NoDuplicates(s) ==> NoDuplicates(r)
  {
    if s == [] then []
    else
      var rest := SortByCount(names, s[1..]);
      assert forall y :: y in s <==> y == s[0] || y in s[1..];
      InsertKeepsOrder(names, s[0], rest);
      if NoDuplicates(s) then
        assert NoDuplicates(s[1..]) && s[0] !in s[1..];
        InsertKeepsDistinct(names, s[0], rest);
        InsertByCount(names, s[0], rest)
      else
        InsertByCount(names, s[0], rest)
  }

  /** `filtered_df['product_name'].value_counts().head(5).index.tolist()` */
  function TopProducts(rows: seq<Row>, start: Option<int>, end: Option<int>): seq<string> {
    var names := Names(DateFiltered(rows, start, end));
    Take(SortByCount(names, Distinct(names)), TopCount)
  }

  /** With both bounds given exactly the rows dated inside them remain; otherwise all rows remain. */
  lemma DateFilterSpec(rows: seq<Row>, start: Option<int>, end: Option<int>)
    ensures start.Some? && end.Some? ==>
      forall r :: r in DateFiltered(rows, start, end) <==> r in rows && start.value <= r.purchaseDate <= end.value
    ensures start.None? || end.None? ==> DateFiltered(rows, start, end) == rows
  {
  }

  /**
   * The trends are at most five distinct products of the date-filtered rows,
   * by non-increasing row count, and every product left out has no more rows
   * than the fifth.
   */
  lemma TopProductsSpec(rows: seq<Row>, start: Option<int>, end: Option<int>)
    ensures var names := Names(DateFiltered(rows, start, end));
      var top := TopProducts(rows, start, end);
      && |top| <= TopCount
      && NoDuplicates(top)
      && (forall p :: p in top ==> p in names && Count(names, p) > 0)
      && (forall i, j :: 0 <= i < j < |top| ==> Count(names, top[i]) >= Count(names, top[j]))
      && (forall p :: p in names && p !in top ==> |top| == TopCount && Count(names, p) <= Count(names, top[TopCount - 1]))
  {
    var names := Names(DateFiltered(rows, start, end));
    var ranked := SortByCount(names, Distinct(names));
    var top := TopProducts(rows, start, end);
    assert top == ranked[..|top|];
    forall p | p in top
      ensures p in names && Count(names, p) > 0
    {
      CountPositive(names, p);
    }
    forall p | p in names && p !in top
      ensures |top| == TopCount && Count(names, p) <= Count(names, top[TopCount - 1])
    {
      var k :| 0 <= k < |ranked| && ranked[k] == p;
      assert k >= |top|;
    }
  }
}
