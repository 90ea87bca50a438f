/**
 * The association builder (web_app/backend/app.py, lines 66-88): the first
 * `min(100, len(rules))` mined rules become associations, each attributed to
 * a customer by its position, `basket[i % len(basket)]`.
 */
module Associations {
  import opened Baskets

  /**
   * One row of the mined rule table. The source turns each side's frozenset
   * into a list, so the item order is the set's iteration order; the miner
   * parameter supplies that order here.
   */
  datatype Rule = Rule(antecedents: seq<string>, consequents: seq<string>, confidence: real)

  /** One entry of the `associations` list of the response. */
  datatype Association = Association(customerId: int, products: seq<string>, confidence: real)

  const RuleLimit: nat := 100

  /** The mining thresholds the rule table is computed with. */
  const MinSupport: real := 0.2
  const MinConfidence: real := 0.3

  /** `min(100, len(rules))` */
  function MaxRules(rules: seq<Rule>): (n: nat)
    ensures n <= |rules| && n <= RuleLimit
    ensures n == |rules| || n == RuleLimit
  {
    if |rules| < RuleLimit then |rules| else RuleLimit
  }

  /** Rules with an empty side are skipped with `continue`. */
  predicate Usable(r: Rule) {
    r.antecedents != [] && r.consequents != []
  }

  /** The association rule `i` yields. */
  function Attribute(rules: seq<Rule>, bs: seq<Basket>, i: nat): Association
    requires i < |rules| && |bs| > 0
  {
    Association(bs[i % |bs|].customerId, rules[i].antecedents + rules[i].consequents, rules[i].confidence)
  }

  /** The associations built from the first `n` rules, in rule order. */
  function Built(rules: seq<Rule>, bs: seq<Basket>, n: nat): seq<Association>
    requires n <= |rules| && |bs| > 0
  {
    if n == 0 then []
    else Built(rules, bs, n - 1) + (if Usable(rules[n - 1]) then [Attribute(rules, bs, n - 1)] else [])
  }

  /** The loop of the source: skip unusable rules, append the rest. */
  method BuildAssociations(rules: seq<Rule>, bs: seq<Basket>) returns (assocs: seq<Association>)
    requires |bs| > 0
    ensures assocs == Built(rules, bs, MaxRules(rules))
  {
    var maxRules := MaxRules(rules);
    assocs := [];
    for i := 0 to maxRules
      invariant assocs == Built(rules, bs, i)
    {
      var antecedents := rules[i].antecedents;
      var consequents := rules[i].consequents;
      if antecedents == [] || consequents == [] {
        continue;
      }
      var customerId := bs[i % |bs|].customerId;
      assocs := assocs + [Association(customerId, antecedents + consequents, rules[i].confidence)];
    }
  }

  /** Reference definition: the indices below `n` of the rules that are not skipped, ascending. */
  function UsableIndices(rules: seq<Rule>, n: nat): (idx: seq<nat>)
    requires n <= |rules|
    ensures forall k, l :: 0 <= k < l < |idx| ==> idx[k] < idx[l]
    ensures forall k :: 0 <= k < |idx| ==> idx[k] < n
    ensures forall i: nat :: i in idx <==> i < n && Usable(rules[i])
    ensures |idx| <= n
  {
    if n == 0 then []
    else UsableIndices(rules, n - 1) + (if Usable(rules[n - 1]) then [n - 1] else [])
  }

  /** Built is the usable indices mapped through Attribute. */
  lemma {:induction false} BuiltFromIndices(rules: seq<Rule>, bs: seq<Basket>, n: nat)
    requires n <= |rules| && |bs| > 0
    ensures |Built(rules, bs, n)| == |UsableIndices(rules, n)|
    ensures forall k :: 0 <= k < |Built(rules, bs, n)| ==>
      Built(rules, bs, n)[k] == Attribute(rules, bs, UsableIndices(rules, n)[k])
  {
    if n > 0 {
      BuiltFromIndices(rules, bs, n - 1);
    }
  }

  /**
   * At most `min(100, len(rules))` associations, one per usable rule among the
   * first `min(100, len(rules))`, in rule order: association k comes from rule
   * `i = idx[k]`, belongs to the customer of basket `i mod |bs|`, lists the
   * antecedents then the consequents, and copies the confidence.
   */
  lemma AssociationsSpec(rules: seq<Rule>, bs: seq<Basket>)
    requires |bs| > 0
    ensures var a := Built(rules, bs, MaxRules(rules));
      var idx := UsableIndices(rules, MaxRules(rules));
      && |a| == |idx| <= MaxRules(rules)
      && (forall k, l :: 0 <= k < l < |idx| ==> idx[k] < idx[l])
      && (forall k :: 0 <= k < |idx| ==> idx[k] < MaxRules(rules))
      && (forall i: nat :: i in idx <==> i < MaxRules(rules) && rules[i].antecedents != [] && rules[i].consequents != [])
      && (forall k :: 0 <= k < |a| ==>
            && a[k].customerId == bs[idx[k] % |bs|].customerId
            && a[k].products == rules[idx[k]].antecedents + rules[idx[k]].consequents
            && a[k].confidence == rules[idx[k]].confidence)
  {
    BuiltFromIndices(rules, bs, MaxRules(rules));
  }

  /** When the mined rules meet the confidence threshold, so do the associations. */
  lemma {:induction false} BuiltConfidence(rules: seq<Rule>, bs: seq<Basket>, n: nat)
    requires n <= |rules| && |bs| > 0
    requires forall i :: 0 <= i < |rules| ==> rules[i].confidence >= MinConfidence
    ensures forall k :: 0 <= k < |Built(rules, bs, n)| ==> Built(rules, bs, n)[k].confidence >= MinConfidence
  {
    if n > 0 {
      BuiltConfidence(rules, bs, n - 1);
    }
  }

  /** Every association belongs to a customer that has a basket. */
  lemma {:induction false} BuiltCustomers(rules: seq<Rule>, bs: seq<Basket>, n: nat)
    requires n <= |rules| && |bs| > 0
    ensures forall k :: 0 <= k < |Built(rules, bs, n)| ==> Built(rules, bs, n)[k].customerId in Ids(bs)
  {
    if n > 0 {
      BuiltCustomers(rules, bs, n - 1);
      IdsIndex(bs);
      assert bs[(n - 1) % |bs|].customerId in Ids(bs);
    }
  }
}
