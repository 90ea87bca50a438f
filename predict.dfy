/**
 * The `/predict` pipeline (web_app/backend/app.py, lines 31-119): the checks
 * in the order the source makes them, then associations and recommendations
 * for the filtered rows. Frequent-itemset mining and rule generation are a
 * library call on the encoding, so they enter as the parameter `mine`. The
 * segmentation call (line 96) is modelled only by the one way it fails:
 * k-means with three clusters rejects a spend table of fewer than three
 * customers, and the request ends in the generic error of lines 121-123.
 */
module Predict {
  import opened Rows
  import opened Baskets
  import opened Encoding
  import opened Associations
  import opened Recommendations
  import opened Spend

  /** `KMeans(n_clusters=3, ...)`: the fit needs at least this many spend rows. */
  const Clusters: nat := 3

  datatype PredictError =
    | EmptyUpload
    | NoDataAfterGrouping
    | NoValidItems
    | NoFrequentItemsets
    | NoRules
    | TooFewCustomers

  /** The HTTP status of each error response. */
  function Status(e: PredictError): nat {
    if e == TooFewCustomers then 500 else 400
  }

  /**
   * The `error` text of each response. For the clustering failure only the
   * prefix of line 123 is modelled; the library's own text follows it.
   */
  function Message(e: PredictError): string {
    match e
    case EmptyUpload => "Uploaded file is empty"
    case NoDataAfterGrouping => "No data after grouping by customer_id"
    case NoValidItems => "No valid items to encode"
    case NoFrequentItemsets => "No frequent itemsets found with current support threshold"
    case NoRules => "No association rules found with current confidence threshold"
    case TooFewCustomers => "Error processing file: "
  }

  /** What the miner returns for an encoding: how many frequent itemsets, and the rule table. */
  datatype Mined = Mined(itemsetCount: nat, rules: seq<Rule>)

  datatype Response = Response(associations: seq<Association>, recommendations: map<int, seq<string>>)

  datatype Outcome = Ok(response: Response) | Err(error: PredictError)

  function PredictSpec(rows: seq<Row>, filter: Filter, mine: Encoded -> Mined): Outcome {
    if rows == [] then Err(EmptyUpload)
    else
      var df := ApplyFilter(rows, filter);
      var bs := GroupByCustomer(df);
      if bs == [] then Err(NoDataAfterGrouping)
      else
        var encoded := Encode(bs);
        if IsEmpty(encoded) then Err(NoValidItems)
        else
          var mined := mine(encoded);
          if mined.itemsetCount == 0 then Err(NoFrequentItemsets)
          else if mined.rules == [] then Err(NoRules)
          else if |SpendData(df)| < Clusters then Err(TooFewCustomers)
          else
            var assocs := Built(mined.rules, bs, MaxRules(mined.rules));
            Ok(Response(assocs, RecommendationsFor(df, bs, assocs)))
  }

  method Predict(rows: seq<Row>, filter: Filter, mine: Encoded -> Mined) returns (res: Outcome)
    ensures res == PredictSpec(rows, filter, mine)
  {
    if rows == [] {
      return Err(EmptyUpload);
    }
    var df := ApplyFilter(rows, filter);
    var bs := GroupByCustomer(df);
    if bs == [] {
      return Err(NoDataAfterGrouping);
    }
    var encoded := Encode(bs);
    if IsEmpty(encoded) {
      return Err(NoValidItems);
    }
    var mined := mine(encoded);
    if mined.itemsetCount == 0 {
      return Err(NoFrequentItemsets);
    }
    if mined.rules == [] {
      return Err(NoRules);
    }
    var assocs := BuildAssociations(mined.rules, bs);
    if |SpendData(df)| < Clusters {
      return Err(TooFewCustomers);
    }
    var recommendations := BuildRecommendations(df, bs, assocs);
    res := Ok(Response(assocs, recommendations));
  }

  /**
   * Which error the pipeline reports: an empty upload; no row passing the
   * filter; no frequent itemset; no rule; fewer than three customers for
   * the clustering step. The encoding of non-empty baskets is never empty, so
   * "No valid items to encode" is never reported.
   */
  lemma PredictErrors(rows: seq<Row>, filter: Filter, mine: Encoded -> Mined)
    ensures var res := PredictSpec(rows, filter, mine);
      var bs := GroupByCustomer(Selected(rows, filter));
      && (res == Err(EmptyUpload) <==> rows == [])
      && (res == Err(NoDataAfterGrouping) <==> rows != [] && Selected(rows, filter) == [])
      && res != Err(NoValidItems)
      && (res == Err(NoFrequentItemsets) <==> bs != [] && mine(Encode(bs)).itemsetCount == 0)
      && (res == Err(NoRules) <==> bs != [] && mine(Encode(bs)).itemsetCount > 0 && mine(Encode(bs)).rules == [])
      && (res == Err(TooFewCustomers) <==>
            bs != [] && mine(Encode(bs)).itemsetCount > 0 && mine(Encode(bs)).rules != [] && |bs| < Clusters)
      && (res.Ok? ==> |bs| >= Clusters)
      && (res.Err? ==> (Status(res.error) == 500 <==>
            bs != [] && mine(Encode(bs)).itemsetCount > 0 && mine(Encode(bs)).rules != [] && |bs| < Clusters))
  {
    ApplyFilterIsSelected(rows, filter);
    var df := Selected(rows, filter);
    NoBasketsIffNoRows(df);
    var bs := GroupByCustomer(df);
    if bs != [] {
      BasketItems(df, 0);
      NonEmptyBasketsEncode(bs);
    }
    if rows == [] {
      assert df == [];
    }
  }

  /** What a successful run returns, for the lemmas below. */
  lemma PredictOkShape(rows: seq<Row>, filter: Filter, mine: Encoded -> Mined)
    ensures PredictSpec(rows, filter, mine).Ok? ==>
      var df := ApplyFilter(rows, filter);
      var bs := GroupByCustomer(df);
      var rules := mine(Encode(bs)).rules;
      && |bs| >= Clusters
      && PredictSpec(rows, filter, mine).response.associations == Built(rules, bs, MaxRules(rules))
      && PredictSpec(rows, filter, mine).response.recommendations
           == RecommendationsFor(df, bs, Built(rules, bs, MaxRules(rules)))
  {
  }

  /**
   * On success there are at most `min(100, len(rules))` associations, each
   * belonging to a customer with filtered rows.
   */
  lemma PredictAssociations(rows: seq<Row>, filter: Filter, mine: Encoded -> Mined)
    ensures PredictSpec(rows, filter, mine).Ok? ==>
      var assocs := PredictSpec(rows, filter, mine).response.associations;
      var df := Selected(rows, filter);
      var rules := mine(Encode(GroupByCustomer(df))).rules;
      && |assocs| <= MaxRules(rules)
      && (forall k :: 0 <= k < |assocs| ==> assocs[k].customerId in CustomerIds(df))
  {
    if PredictSpec(rows, filter, mine).Ok? {
      PredictOkShape(rows, filter, mine);
      ApplyFilterIsSelected(rows, filter);
      var bs := GroupByCustomer(Selected(rows, filter));
      var rules := mine(Encode(bs)).rules;
      AssociationsSpec(rules, bs);
      BuiltCustomers(rules, bs, MaxRules(rules));
    }
  }

  /**
   * On success exactly the customers with filtered rows get a recommendation,
   * which is the sentinel or one to three products that customer did not buy.
   */
  lemma PredictRecommendations(rows: seq<Row>, filter: Filter, mine: Encoded -> Mined)
    ensures PredictSpec(rows, filter, mine).Ok? ==>
      var recs := PredictSpec(rows, filter, mine).response.recommendations;
      var df := Selected(rows, filter);
      && (forall c :: c in recs <==> c in CustomerIds(df))
      && (forall c :: c in recs ==>
            var r := recs[c];
            || r == [NoRecommendations]
            || (1 <= |r| <= MaxRecommendations && forall p :: p in r ==> p !in ItemsOf(df, c)))
  {
    if PredictSpec(rows, filter, mine).Ok? {
      PredictOkShape(rows, filter, mine);
      ApplyFilterIsSelected(rows, filter);
      var df := Selected(rows, filter);
      var bs := GroupByCustomer(df);
      var rules := mine(Encode(bs)).rules;
      var assocs := Built(rules, bs, MaxRules(rules));
      var recs := RecommendationsFor(df, bs, assocs);
      RecommendationsForKeys(df, bs, assocs);
      RecommendationsForValues(df, bs, assocs);
      IdsIndex(bs);
      forall c | c in recs
        ensures var r := recs[c];
          r == [NoRecommendations] || (1 <= |r| <= MaxRecommendations && forall p :: p in r ==> p !in ItemsOf(df, c))
      {
        RecommendSpec(assocs, c, Purchases(df, c));
      }
    }
  }
}
