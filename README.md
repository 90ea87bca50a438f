# Grocery basket insights: the `/predict` and `/trends` pipelines in Dafny

This project models the analytical core of the grocery-basket-insights web
backend (`web_app/backend/app.py`). The `/predict` pipeline runs these steps:

1. An optional structured filter on product category and store id.
2. Rows are grouped by customer into baskets. The keys come out ascending.
3. The baskets are one-hot encoded over the sorted product universe.
4. A mined rule table is turned into at most 100 associations. Each one is
   attributed to a customer by position.
5. Each basket customer gets up to three recommendations (products they have
   not bought), or the sentinel `["No recommendations"]`.

The error checks happen in the source's order and carry the source's
messages and HTTP status codes. The `/trends` query is an optional inclusive
date filter followed by the five products with the most rows. The per-customer spend sum, which
feeds the segmentation step, is modelled as well.

The whole model is deterministic. The rule table comes from the mining
library. It enters `Predict.Predict` as a function parameter
`mine: Encoded -> Mined`, which returns the number of frequent itemsets and
the rule table for an encoding.

Files and modules:

- `wrappers.dfy`: `Wrappers.Option`, and `Seqs.Take` (Python's `s[:n]`).
- `rows.dfy`: `Rows`. The transaction row, the filter record, and the
  two-stage filter with its one-pass reference definition.
- `baskets.dfy`: `Baskets`. Grouping by customer via sorted insertion.
- `encoding.dfy`: `Encoding`. Python string order, the sorted universe and
  the membership matrix.
- `associations.dfy`: `Associations`. The association loop as a method, and
  the function it is proved against.
- `recommendations.dfy`: `Recommendations`. The three nested loops as a
  method, and the functions they are proved against.
- `spend.dfy`: `Spend`. Per-customer spend in integer cents.
- `trends.dfy`: `Trends`. The date filter and the top five by count.
- `predict.dfy`: `Predict`. The pipeline, its error outcomes and what a
  successful response guarantees.

Python truthiness is modelled explicitly:

- `filters.get('category')` switches the category predicate off for `""`.
- `filters.get('storeId')` switches the store predicate off for `0`.
- `if prod` skips empty product names.
- A missing trends bound is `None`.

The model follows the code as written:

- A rule is attributed to the customer of basket `i mod |baskets|`, whatever
  that customer bought.
- Recommendations are the first three of the concatenated not-yet-bought
  products. Duplicates are kept and there is no confidence ordering.
- Spend is the sum of `price` alone. Quantity is not used.
- With fewer than three filtered customers the k-means fit of line 96 fails,
  and the request ends in the HTTP 500 of lines 121-123 although associations
  were already built. The model returns the error `TooFewCustomers` there.

## Model

| member | source | states |
|---|---|---|
| `Rows.KeepCategory` | web_app/backend/app.py:39-40 | the kept rows are exactly the input rows whose category equals the requested one, and there are no more of them than input rows |
| `Rows.KeepStore` | web_app/backend/app.py:41-42 | the kept rows are exactly the input rows whose store id equals the requested one |
| `Rows.ApplyFilterIsSelected` | web_app/backend/app.py:39-42 | the category-then-store filter `ApplyFilter` equals one pass that keeps the rows matching every truthy predicate |
| `Rows.SelectedMembers` | web_app/backend/app.py:39-42 | a row survives iff it was in the input and matches the filter; the result is no longer than the input |
| `Rows.SelectedConcat` | web_app/backend/app.py:39-42 | filtering keeps the original order: filtering `a + b` is filtering `a` followed by filtering `b` |
| `Rows.InactiveFilterKeepsAll` | web_app/backend/app.py:39-42 | a filter with no truthy field (absent, `""` or `0`) returns the rows unchanged |
| `Baskets.GroupByCustomer` | web_app/backend/app.py:44 | strictly ascending customer keys, one per distinct customer id of the rows, and the basket under each key holds exactly that customer's product names |
| `Baskets.BasketItems` | web_app/backend/app.py:44 | each basket's item set is exactly its customer's product names and is never empty |
| `Baskets.NoBasketsIffNoRows` | web_app/backend/app.py:44-47 | there are no baskets iff no row survived filtering (the "No data after grouping" condition) |
| `Encoding.SortedNames` | web_app/backend/app.py:50 | the column names are strictly ascending in Python string order, the same set as the universe, with no repeats |
| `Encoding.EncodeSpec` | web_app/backend/app.py:49-50 | of `Encode`: one matrix row per basket; the columns are sorted and are exactly the union of the basket items; cell (c, j) is set iff column j's product is in basket c |
| `Encoding.DecodeRow` | web_app/backend/app.py:49-50 | reading the set cells of row c of `Encode` gives back basket c's items |
| `Encoding.NonEmptyBasketsEncode` | web_app/backend/app.py:51-52 | non-empty baskets never give an empty encoding, so "No valid items to encode" cannot follow them |
| `Associations.MaxRules` | web_app/backend/app.py:67 | the number of rules examined is at most 100 and at most the number of rules, and equals one of the two |
| `Associations.BuildAssociations` | web_app/backend/app.py:66-88 | the loop's result equals `Built` over the first `min(100, len(rules))` rules (skipping rules with an empty side, attributing rule i to basket i mod |baskets|) |
| `Associations.UsableIndices` | web_app/backend/app.py:68-77 | the indices kept are ascending, below the bound, and exactly those whose rule has non-empty antecedents and consequents |
| `Associations.BuiltFromIndices` | web_app/backend/app.py:68-85 | association k is the one built from the k-th non-skipped rule index |
| `Associations.AssociationsSpec` | web_app/backend/app.py:67-83 | at most `min(100, len(rules))` associations in rule-index order; association k, from rule i, has customer `basket[i mod |basket|]`, products antecedents ++ consequents, and rule i's confidence |
| `Associations.BuiltConfidence` | web_app/backend/app.py:83 | when every mined rule meets the 0.3 confidence threshold, so does every association |
| `Associations.BuiltCustomers` | web_app/backend/app.py:79 | every association belongs to a customer that has a basket |
| `Recommendations.Purchases` | web_app/backend/app.py:104 | a product is among a customer's purchases iff some filtered row of that customer names it |
| `Recommendations.BuildRecommendations` | web_app/backend/app.py:99-117 | the nested loops' dictionary equals `RecommendationsFor`: per basket customer, the first three fresh products of the customer's associations in order, or the sentinel |
| `Recommendations.FreshMembers` | web_app/backend/app.py:109-113 | a product is collected from an association iff it is one of its products, non-empty, and not yet bought |
| `Recommendations.CandidateMembers` | web_app/backend/app.py:104-113 | a product is in `Candidates` (the `recs` list after the association loop) iff it is non-empty, not yet bought, and a product of some association attributed to the customer |
| `Recommendations.RecommendSpec` | web_app/backend/app.py:104-114 | `Recommend` is exactly the sentinel when `Candidates` is empty; otherwise it is the first min(3, n) collected products (all of them when there are at most 3, duplicates kept), 1 to 3 of them, none already bought |
| `Recommendations.RecommendationsForKeys` | web_app/backend/app.py:101-114 | the dictionary has an entry exactly for each basket customer |
| `Recommendations.RecommendationsForValues` | web_app/backend/app.py:101-114 | each entry is the recommendation computed from that customer's purchases and the associations |
| `Seqs.Take` | web_app/backend/app.py:114 | `s[:n]` is a prefix of s of length min(n, |s|), and s itself when |s| <= n |
| `Spend.SpendConcat` | web_app/backend/app.py:90 | `CustomerSpend`, a customer's spend over `a + b` is the spend over `a` plus the spend over `b` |
| `Spend.SpendAddsOwn` | web_app/backend/app.py:90 | a customer's own row adds its price (0 when missing) to that customer's spend |
| `Spend.SpendIgnores` | web_app/backend/app.py:90-95 | a row of another customer, or with a missing price (counted as 0), does not change a customer's spend |
| `Spend.SpendNonNegative` | web_app/backend/app.py:90-95 | with no negative price, every customer's spend is non-negative |
| `Spend.SpendDataSpec` | web_app/backend/app.py:90-95 | the spend table `SpendData` has one entry per basket and an entry exactly for each customer with rows, in strictly ascending key order, each holding that customer's `CustomerSpend` |
| `Trends.InRange` | web_app/backend/app.py:143 | exactly the rows dated within [start, end], both ends included, remain |
| `Trends.InRangeConcat` | web_app/backend/app.py:143 | the range filter keeps each in-range row once and in its original place: filtering `a + b` is filtering `a` followed by filtering `b` |
| `Trends.DateFilterSpec` | web_app/backend/app.py:142-143 | of `DateFiltered`: with both bounds given, exactly the rows in the inclusive range remain; with either missing, all rows remain |
| `Trends.Distinct` | web_app/backend/app.py:145 | the distinct product names with no repeats, the same set as the names |
| `Trends.SortByCount` | web_app/backend/app.py:145 | ranking the products gives non-increasing counts and the same elements, with no repeats when the input has none |
| `Trends.TopProductsSpec` | web_app/backend/app.py:145 | `TopProducts` is at most 5 distinct products, each occurring in the date-filtered rows, ordered by non-increasing count; any product left out has no more rows than the fifth |
| `Predict.Predict` | web_app/backend/app.py:31-123 | the pipeline's outcome equals `PredictSpec`: the checks in the source's order, the clustering failure for fewer than three customers, then the associations and the recommendations |
| `Predict.PredictErrors` | web_app/backend/app.py:34-123 | each error's text is `Message` (the source's strings at lines 35, 47, 52, 57, 62 and 123): "Uploaded file is empty" iff the upload has no rows; "No data after grouping" iff no row passes the filter; "No valid items" never; no itemsets or no rules iff the miner says so for the encoding; the clustering failure iff all earlier checks pass and there are fewer than three baskets; success only with at least three; the `Status` of an error is HTTP 500 exactly when all earlier checks pass and there are fewer than three baskets (the k-means failure), and HTTP 400 otherwise |
| `Predict.PredictAssociations` | web_app/backend/app.py:66-88 | on success there are at most `min(100, len(rules))` associations, each for a customer with filtered rows |
| `Predict.PredictRecommendations` | web_app/backend/app.py:99-119 | on success exactly the customers with filtered rows get a recommendation, which is the sentinel or 1 to 3 products that customer did not buy |

## Left out

- HTTP routing, CORS and the upload and filename checks (app.py lines 1-24 and 127-132) are I/O plumbing. So are CSV parsing, JSON and form parsing, logging and the server start (lines 187-188).
- The missing-columns checks (lines 30-32 and 135-137) and the `astype(int)` conversion (line 29) are not modelled. A typed `Row` cannot lack a column.
- The `eval` of the filter string (line 38) is dynamic code execution. A `Filter` record with two optional fields replaces it. The store id is an integer; a string id from the client would match no row in the source, and that is not modelled.
- `apriori` and `association_rules` (lines 55 and 60) are library calls. They are the parameter `mine`. The thresholds 0.2 and 0.3 are only constants, used in `Associations.BuiltConfidence`.
- KMeans segmentation (lines 96-97) is an iterative floating-point library routine, so `segments` is not in the response. The spend table that feeds it is modelled.
- The constant `score` (line 119) and the `description` text (line 84) are not modelled. The text is a float-formatted message.
- The `try`/`except` branches inside the loops (lines 78 and 86-88, 102 and 115-117) are not modelled. Nothing in the model can raise there.
- The generic HTTP 500 path of `/predict` (lines 121-123) is modelled only for the k-means failure on fewer than three customers. Other library failures are not. The 500 path of `/trends` (lines 148-150) is not modelled.
- `Predict.Predict`: the `error` text of the clustering failure is only the prefix "Error processing file: ". The library's message after it is not modelled.
- The list-flattening comprehensions and `isinstance` tests (lines 73-74 and 110-111) are the identity on lists of strings, so they are not modelled.
- `/export` (lines 152-185) is PDF formatting plus a shared-file write and read.
- `Encoding.NonEmptyBasketsEncode`: product names are never missing in the model. In the source a blank `product_name` cell is NaN. The basket `{NaN}` is non-empty, but `stack()` drops NaN. So when every filtered product name is missing, the encoding has no columns. That is the source's only route to "No valid items to encode", and the model cannot take it.
- `Predict.PredictErrors`: "No valid items to encode" is never returned only because product names are never missing. The source returns it when every filtered product name is NaN, as the line above explains.
- `Encoding.EncodeSpec`: the cells are booleans. The source sums dummy columns into counts, which are 0 or 1 because the basket items come from a set.
- `Trends.TopProductsSpec`: does not state how equal counts are ordered. The model breaks ties by first appearance (a stable sort over first-seen order), but that is proved of no member. In the source the order comes from pandas' `value_counts`.
- Prices are integer cents. `None` is a missing cell, which `sum()` skips. A non-numeric price cell is not modelled. It turns the whole column into text, and `sum()` then concatenates strings, which `to_numeric(errors='coerce')` and `fillna(0)` (lines 92-95) turn into a wrong or zero total for that customer.
- Dates are day numbers. Float sums and `pd.to_datetime` parsing are not modelled.
- Confidence is passed through as an opaque `real`.
- The order of the products inside each rule side is not modelled. The source makes a list from a `frozenset` (lines 69-70), so that order follows string hashing and can differ between processes. It decides which products fill the three recommendation slots. The model takes whatever order `mine` gives.
- The order of the response dictionaries is not modelled. Recommendations are a `map` from customer id to list.
- The web front end (`web_app/frontend/src/App.js`), the data generator (`data/generate_data.py`) and the HTTP client script (`test_submit.py`) are not part of this model.
