/**
 * The recommendation synthesiser (web_app/backend/app.py, lines 99-117):
 * for every basket customer, walk the associations attributed to that
 * customer in order, collect each product the customer has not bought, and
 * keep the first three, or the sentinel when none was collected.
 */
module Recommendations {
  import opened Rows
  import opened Baskets
  import opened Associations
  import opened Seqs

  const NoRecommendations: string := "No recommendations"
  const MaxRecommendations: nat := 3

  /** `df[df['customer_id'] == c]['product_name'].tolist()` over the filtered rows. */
  function Purchases(rows: seq<Row>, c: int): (ps: seq<string>)
    ensures forall p :: p in ps <==> p in ItemsOf(rows, c)
  {
    if rows == [] then []
    else
      assert forall r :: r in rows <==> r == rows[0] || r in rows[1..];
      assert ItemsOf(rows, c) == ItemsOf(rows[1..], c) + (if rows[0].customerId == c then {rows[0].productName} else {});
      (if rows[0].customerId == c then [rows[0].productName] else []) + Purchases(rows[1..], c)
  }

  /** The products of one association that pass `if prod and prod not in customer_purchases`, in order. */
  function Fresh(products: seq<string>, purchases: seq<string>): seq<string> {
    if products == [] then []
    else
      var last := products[|products| - 1];
      Fresh(products[..|products| - 1], purchases) + (if last != "" && last !in purchases then [last] else [])
  }

  /** `recs` after the association loop: the fresh products of the customer's associations, concatenated in order. */
  function Candidates(assocs: seq<Association>, c: int, purchases: seq<string>): seq<string> {
    if assocs == [] then []
    else
      var last := assocs[|assocs| - 1];
      Candidates(assocs[..|assocs| - 1], c, purchases) + (if last.customerId == c then Fresh(last.products, purchases) else [])
  }

  /** `recs[:3] if recs else ['No recommendations']` */
  function Recommend(assocs: seq<Association>, c: int, purchases: seq<string>): seq<string> {
    var recs := Candidates(assocs, c, purchases);
    if recs != [] then Take(recs, MaxRecommendations) else [NoRecommendations]
  }

  /** The `recommendations` dictionary after the first `|bs|` basket customers. */
  function RecommendationsFor(rows: seq<Row>, bs: seq<Basket>, assocs: seq<Association>): map<int, seq<string>> {
    if bs == [] then map[]
    else
      var c := bs[|bs| - 1].customerId;
      RecommendationsFor(rows, bs[..|bs| - 1], assocs)[c := Recommend(assocs, c, Purchases(rows, c))]
  }

  /** The nested loops of the source. */
  method BuildRecommendations(rows: seq<Row>, bs: seq<Basket>, assocs: seq<Association>)
    returns (recommendations: map<int, seq<string>>)
    ensures recommendations == RecommendationsFor(rows, bs, assocs)
  {
    recommendations := map[];
    for b := 0 to |bs|
      invariant recommendations == RecommendationsFor(rows, bs[..b], assocs)
    {
      var customerId := bs[b].customerId;
      var purchases := Purchases(rows, customerId);
      var recs: seq<string> := [];
      for a := 0 to |assocs|
        invariant recs == Candidates(assocs[..a], customerId, purchases)
      {
        assert assocs[..a + 1][..a] == assocs[..a];
        if assocs[a].customerId == customerId {
          var products := assocs[a].products;
          for k := 0 to |products|
            invariant recs == Candidates(assocs[..a], customerId, purchases) + Fresh(products[..k], purchases)
          {
            assert products[..k + 1][..k] == products[..k];
            var prod := products[k];
            if prod != "" && prod !in purchases {
              recs := recs + [prod];
            }
          }
          assert products[..|products|] == products;
        }
      }
      assert assocs[..|assocs|] == assocs;
      assert bs[..b + 1][..b] == bs[..b];
      recommendations := recommendations[customerId := if recs != [] then Take(recs, MaxRecommendations) else [NoRecommendations]];
    }
    assert bs[..|bs|] == bs;
  }

  /** A product is fresh iff it is one of the association's products, non-empty and not yet bought. */
  lemma {:induction false} FreshMembers(products: seq<string>, purchases: seq<string>)
    ensures forall p :: p in Fresh(products, purchases) <==> p in products && p != "" && p !in purchases
  {
    if products != [] {
      var init := products[..|products| - 1];
      FreshMembers(init, purchases);
      assert products == init + [products[|products| - 1]];
    }
  }

  /**
   * A candidate is a non-empty product, not among the purchases, of some
   * association attributed to the customer; and every such product is one.
   */
  lemma {:induction false} CandidateMembers(assocs: seq<Association>, c: int, purchases: seq<string>)
    ensures forall p :: p in Candidates(assocs, c, purchases) <==>
      p != "" && p !in purchases &&
      exists a :: 0 <= a < |assocs| && assocs[a].customerId == c && p in assocs[a].products
  {
    if assocs != [] {
      var n := |assocs| - 1;
      var init := assocs[..n];
      var last := assocs[n];
      CandidateMembers(init, c, purchases);
      FreshMembers(last.products, purchases);
      var extra := if last.customerId == c then Fresh(last.products, purchases) else [];
      assert Candidates(assocs, c, purchases) == Candidates(init, c, purchases) + extra;
      forall p | p in Candidates(assocs, c, purchases)
        ensures exists a :: 0 <= a < |assocs| && assocs[a].customerId == c && p in assocs[a].products
      {
        if p !in extra {
          var a :| 0 <= a < |init| && init[a].customerId == c && p in init[a].products;
          assert assocs[a] == init[a];
        }
      }
      forall p | p != "" && p !in purchases && exists a :: 0 <= a < |assocs| && assocs[a].customerId == c && p in assocs[a].products
        ensures p in Candidates(assocs, c, purchases)
      {
        var a :| 0 <= a < |assocs| && assocs[a].customerId == c && p in assocs[a].products;
        if a < n {
          assert init[a] == assocs[a];
        }
      }
    }
  }

  /**
   * A recommendation is either exactly the sentinel, when no candidate was
   * collected, or the first (at most three) candidates: never empty, and none
   * of them already bought.
   */
  lemma RecommendSpec(assocs: seq<Association>, c: int, purchases: seq<string>)
    ensures var recs := Candidates(assocs, c, purchases);
      var r := Recommend(assocs, c, purchases);
      && (recs == [] ==> r == [NoRecommendations])
      && (recs != [] ==>
            && 1 <= |r| <= MaxRecommendations
            && r == recs[..|r|]
            && (|recs| >= MaxRecommendations ==> |r| == MaxRecommendations)
            && (|recs| <= MaxRecommendations ==> r == recs)
            && forall p :: p in r ==> p != "" && p !in purchases)
  {
    var recs := Candidates(assocs, c, purchases);
    CandidateMembers(assocs, c, purchases);
    if recs != [] {
      var r := Take(recs, MaxRecommendations);
      assert forall p :: p in r ==> p in recs;
    }
  }

  /** Exactly the basket customers get an entry. */
  lemma {:induction false} RecommendationsForKeys(rows: seq<Row>, bs: seq<Basket>, assocs: seq<Association>)
    ensures forall id :: id in RecommendationsFor(rows, bs, assocs) <==> exists j :: 0 <= j < |bs| && bs[j].customerId == id
  {
    if bs != [] {
      var n := |bs| - 1;
      var init := bs[..n];
      var c := bs[n].customerId;
      RecommendationsForKeys(rows, init, assocs);
      var m0 := RecommendationsFor(rows, init, assocs);
      var m := RecommendationsFor(rows, bs, assocs);
      assert m == m0[c := Recommend(assocs, c, Purchases(rows, c))];
      forall id | id in m
        ensures exists j :: 0 <= j < |bs| && bs[j].customerId == id
      {
        if id != c {
          assert id in m0;
          var j :| 0 <= j < |init| && init[j].customerId == id;
          assert bs[j] == init[j];
        }
      }
      forall id | exists j :: 0 <= j < |bs| && bs[j].customerId == id
        ensures id in m
      {
        var j :| 0 <= j < |bs| && bs[j].customerId == id;
        if j < n {
          assert init[j] == bs[j];
        }
      }
    }
  }

  /** Each entry is the recommendation computed for that customer. */
  lemma {:induction false} RecommendationsForValues(rows: seq<Row>, bs: seq<Basket>, assocs: seq<Association>)
    ensures var m := RecommendationsFor(rows, bs, assocs);
      forall id :: id in m ==> m[id] == Recommend(assocs, id, Purchases(rows, id))
  {
    if bs != [] {
      RecommendationsForValues(rows, bs[..|bs| - 1], assocs);
    }
  }
}
