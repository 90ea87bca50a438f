/**
 * The one-hot encoder: `pd.get_dummies(...).groupby(level=0).sum()` over the
 * basket item lists (web_app/backend/app.py, lines 49-52). Columns are the
 * distinct product names in sorted order, as get_dummies sorts its
 * categories; rows follow the baskets.
 */
module Encoding {
  import opened Baskets

  /** Python's `<` on strings: lexicographic by code point. */
  predicate Below(a: string, b: string)
    decreases |a|
  {
    if a == [] then b != []
    else if b == [] then false
    else if a[0] == b[0] then Below(a[1..], b[1..])
    else a[0] < b[0]
  }

  lemma {:induction false} BelowIrreflexive(a: string)
    ensures !Below(a, a)
    decreases |a|
  {
    if a != [] {
      BelowIrreflexive(a[1..]);
    }
  }

  lemma {:induction false} BelowAsymmetric(a: string, b: string)
    ensures Below(a, b) ==> !Below(b, a)
    decreases |a|
  {
    if a != [] && b != [] && a[0] == b[0] {
      BelowAsymmetric(a[1..], b[1..]);
    }
  }

  lemma {:induction false} BelowTransitive(a: string, b: string, c: string)
    requires Below(a, b) && Below(b, c)
    ensures Below(a, c)
    decreases |a|
  {
    if a != [] && a[0] == b[0] && b[0] == c[0] {
      BelowTransitive(a[1..], b[1..], c[1..]);
    }
  }

  lemma {:induction false} BelowTotal(a: string, b: string)
    requires a != b
    ensures Below(a, b) || Below(b, a)
    decreases |a|
  {
    if a != [] && b != [] && a[0] == b[0] {
      assert a == [a[0]] + a[1..] && b == [b[0]] + b[1..];
      BelowTotal(a[1..], b[1..]);
    }
  }

  predicate IsLeast(m: string, u: set<string>) {
    m in u && forall y :: y in u && y != m ==> Below(m, y)
  }

  lemma {:induction false} LeastExists(u: set<string>)
    requires u != {}
    ensures exists m :: IsLeast(m, u)
    decreases |u|
  {
    var x :| x in u;
    if u == {x} {
      assert IsLeast(x, u);
    } else {
      LeastExists(u - {x});
      var m :| IsLeast(m, u - {x});
      BelowTotal(x, m);
      if Below(x, m) {
        forall y | y in u && y != x
          ensures Below(x, y)
        {
          if y != m {
            BelowTransitive(x, m, y);
          }
        }
        assert IsLeast(x, u);
      } else {
        assert IsLeast(m, u);
      }
    }
  }

  lemma LeastUnique(u: set<string>)
    ensures forall m, m' :: IsLeast(m, u) && IsLeast(m', u) ==> m == m'
  {
    forall m, m' | IsLeast(m, u) && IsLeast(m', u)
      ensures m == m'
    {
      BelowAsymmetric(m, m');
    }
  }

  predicate StrictlySorted(s: seq<string>) {
    forall i, j :: 0 <= i < j < |s| ==> Below(s[i], s[j])
  }

  /** The elements of a set of names in ascending order. */
  function SortedNames(u: set<string>): (s: seq<string>)
    ensures StrictlySorted(s)
    ensures forall x :: x in s <==> x in u
    ensures |s| == |u|
    decreases |u|
  {
    if u == {} then []
    else
      LeastExists(u);
      LeastUnique(u);
      var m :| IsLeast(m, u);
      var rest := SortedNames(u - {m});
      assert forall j :: 0 <= j < |rest| ==> rest[j] in u - {m};
      [m] + rest
  }

  /** Every product appearing in some basket. */
  function Universe(bs: seq<Basket>): set<string> {
    if bs == [] then {} else bs[0].items + Universe(bs[1..])
  }

  lemma {:induction false} UniverseMembers(bs: seq<Basket>)
    ensures forall p :: p in Universe(bs) <==> exists c :: 0 <= c < |bs| && p in bs[c].items
  {
    if bs != [] {
      UniverseMembers(bs[1..]);
      assert forall c :: 0 < c < |bs| ==> bs[c] == bs[1..][c - 1];
    }
  }

  /** A membership matrix: `cells[c][j]` says whether basket `c` holds product `columns[j]`. */
  datatype Encoded = Encoded(columns: seq<string>, cells: seq<seq<bool>>)

  function Encode(bs: seq<Basket>): Encoded {
    var cols := SortedNames(Universe(bs));
    Encoded(cols, seq(|bs|, c requires 0 <= c < |bs| =>
                     seq(|cols|, j requires 0 <= j < |cols| => cols[j] in bs[c].items)))
  }

  /** `encoded_vals.empty`: a frame with no rows or no columns. */
  predicate IsEmpty(e: Encoded) {
    |e.cells| == 0 || |e.columns| == 0
  }

  /** The products whose cells in matrix row `c` are set. */
  function RowItems(e: Encoded, c: nat): set<string>
    requires c < |e.cells| && |e.cells[c]| == |e.columns|
  {
    set j | 0 <= j < |e.columns| && e.cells[c][j] :: e.columns[j]
  }

  /**
   * The encoding has one row per basket and one column per distinct product
   * of the baskets, in ascending name order; cell (c, p) is set iff product p
   * is in basket c.
   */
  lemma EncodeSpec(bs: seq<Basket>)
    ensures var e := Encode(bs);
      && |e.cells| == |bs|
      && StrictlySorted(e.columns)
      && (forall p :: p in e.columns <==> exists c :: 0 <= c < |bs| && p in bs[c].items)
      && (forall c, j :: 0 <= c < |bs| && 0 <= j < |e.columns| ==>
            |e.cells[c]| == |e.columns| && (e.cells[c][j] <==> e.columns[j] in bs[c].items))
  {
    UniverseMembers(bs);
  }

  /** Reading a matrix row back gives the basket's items: the encoding loses nothing. */
  lemma DecodeRow(bs: seq<Basket>, c: nat)
    requires c < |bs|
    ensures |Encode(bs).cells| == |bs| && |Encode(bs).cells[c]| == |Encode(bs).columns|
    ensures RowItems(Encode(bs), c) == bs[c].items
  {
    var e := Encode(bs);
    UniverseMembers(bs);
    forall p | p in bs[c].items
      ensures p in RowItems(e, c)
    {
      assert p in Universe(bs);
      assert p in e.columns;
      var j :| 0 <= j < |e.columns| && e.columns[j] == p;
      assert e.cells[c][j];
    }
  }

  /** Non-empty baskets never give an empty encoding: "No valid items to encode" cannot follow them. */
  lemma NonEmptyBasketsEncode(bs: seq<Basket>)
    requires |bs| > 0 && bs[0].items != {}
    ensures !IsEmpty(Encode(bs))
  {
    var p :| p in bs[0].items;
    assert p in Universe(bs);
  }
}
