/**
 * Box selection (`get_product_quantities`, `calculate_box_for_order`,
 * `calculate_box_requirements`). Each recipient's products are bucketed by
 * capacity with substring tests on the product key; an order with more than
 * one bucket of positive quantity goes to review; otherwise the single
 * positive bucket and its quantity select a box from a fixed table, and a
 * quantity outside the table also goes to review.
 */
module Boxes {
  import opened Wrappers
  import opened Text
  import opened Dict
  import opened Aggregate
  import Classify

  /** The four capacity buckets boxes are chosen by. */
  predicate IsBucket(c: string)
  {
    c == "1.5L" || c == "1L" || c == "500ml" || c == "240ml"
  }

  /** The bucket of a product key: the first of the substring tests that succeeds; 200ml counts as 240ml. */
  function BucketOf(key: string): (b: Option<string>)
    ensures b.Some? ==> IsBucket(b.value)
  {
    if Contains(key, "1.5L") then Some("1.5L")
    else if Contains(key, "1L") then Some("1L")
    else if Contains(key, "500ml") then Some("500ml")
    else if Contains(key, "240ml") then Some("240ml")
    else if Contains(key, "200ml") then Some("240ml")
    else None
  }

  /**
   * The substring tests in their order: a key mentioning 1.5L is never put in
   * the 1L bucket, 200ml goes to 240ml, and a key with none of the five
   * sizes is in no bucket.
   */
  lemma BucketRules(key: string)
    ensures Contains(key, "1.5L") ==> BucketOf(key) == Some("1.5L")
    ensures BucketOf(key) == Some("1L") ==> !Contains(key, "1.5L") && Contains(key, "1L")
    ensures Contains(key, "200ml") && !Contains(key, "1.5L") && !Contains(key, "1L") && !Contains(key, "500ml")
      ==> BucketOf(key) == Some("240ml")
    ensures BucketOf(key) == None <==>
      !Contains(key, "1.5L") && !Contains(key, "1L") && !Contains(key, "500ml") && !Contains(key, "240ml") && !Contains(key, "200ml")
  {
  }

  /** A key without a digit, such as a bare category name, contributes to no bucket. */
  lemma BucketNoDigit(key: string)
    requires forall i :: 0 <= i < |key| ==> !IsDigit(key[i])
    ensures BucketOf(key) == None
  {
    if Contains(key, "1.5L") { ContainsChars(key, "1.5L", 0); }
    if Contains(key, "1L") { ContainsChars(key, "1L", 0); }
    if Contains(key, "500ml") { ContainsChars(key, "500ml", 0); }
    if Contains(key, "240ml") { ContainsChars(key, "240ml", 0); }
    if Contains(key, "200ml") { ContainsChars(key, "200ml", 0); }
  }

  /** Products counted without a capacity (the key is the bare category) contribute nothing to the buckets. */
  lemma NoCapacityNoBucket(cat: Classify.Category)
    ensures BucketOf(ProductKey(cat, "")) == None
  {
    var k := cat.Label();
    assert forall i :: 0 <= i < |k| ==> !IsDigit(k[i]);
    BucketNoDigit(k);
  }

  /** The (bucket, quantity) pairs of the products that fall in a bucket, in order. */
  function BucketEntries(products: Dict<string, int>): (es: seq<(string, int)>)
    ensures forall i :: 0 <= i < |es| ==> IsBucket(es[i].0)
    decreases |products|
  {
    if products == [] then []
    else
      var init, last := products[..|products| - 1], products[|products| - 1];
      BucketEntries(init) + (match BucketOf(last.0) case Some(b) => [(b, last.1)] case None => [])
  }

  /** `get_product_quantities`: the per-bucket totals of one recipient's products. */
  function Quantities(products: Dict<string, int>): Dict<string, int>
  {
    Tally(BucketEntries(products))
  }

  lemma BucketEntriesSnoc(products: Dict<string, int>, key: string, qty: int)
    ensures BucketEntries(products + [(key, qty)])
         == BucketEntries(products) + (match BucketOf(key) case Some(b) => [(b, qty)] case None => [])
  {
    assert (products + [(key, qty)])[..|products|] == products;
  }

  /** The loop of `get_product_quantities`. */
  method GetProductQuantities(products: Dict<string, int>) returns (quantities: Dict<string, int>)
    ensures quantities == Quantities(products)
  {
    quantities := [];
    var i := 0;
    while i < |products|
      invariant 0 <= i <= |products|
      invariant quantities == Tally(BucketEntries(products[..i]))
    {
      var (key, qty) := products[i];
      assert products[..i + 1] == products[..i] + [(key, qty)];
      BucketEntriesSnoc(products[..i], key, qty);
      ghost var es := BucketEntries(products[..i]);
      var bucket := BucketOf(key);
      if bucket.Some? {
        assert BucketEntries(products[..i + 1]) == es + [(bucket.value, qty)];
        assert (es + [(bucket.value, qty)])[..|es|] == es;
        quantities := Add(quantities, bucket.value, qty);
      } else {
        assert BucketEntries(products[..i + 1]) == es;
      }
      i := i + 1;
    }
    assert products[..i] == products;
  }

  /** Every bucket total is the sum of the quantities of the products in that bucket; the buckets are distinct. */
  lemma QuantitiesShape(products: Dict<string, int>, b: string)
    ensures Get(Quantities(products), b, 0) == SumFor(BucketEntries(products), b)
    ensures Distinct(Keys(Quantities(products)))
    ensures forall c :: c in Keys(Quantities(products)) ==> IsBucket(c)
  {
    var es := BucketEntries(products);
    TallyGet(es, b);
    TallyKeys(es);
    forall c | c in Keys(Quantities(products))
      ensures IsBucket(c)
    {
      var i :| 0 <= i < |es| && Keys(es)[i] == c;
    }
  }

  datatype Box = A | B | C | D | E | F {
    function Label(): string
    {
      match this
      case A => "박스 A"
      case B => "박스 B"
      case C => "박스 C"
      case D => "박스 D"
      case E => "박스 E"
      case F => "박스 F"
    }
  }

  /** The result of `calculate_box_for_order`: a box, or "검토 필요" (needs review). */
  datatype Decision = Fits(box: Box) | NeedsReview {
    function Label(): string
    {
      match this
      case Fits(b) => b.Label()
      case NeedsReview => "검토 필요"
    }
  }

  /** The single-capacity box table, tested in the order `calculate_box_for_order` tests them. */
  function Table(cap: string, qty: int): Option<Box>
  {
    if cap == "1L" && 1 <= qty <= 2 then Some(A)
    else if cap == "500ml" && 1 <= qty <= 3 then Some(A)
    else if cap == "240ml" && 1 <= qty <= 5 then Some(A)
    else if cap == "1L" && 3 <= qty <= 4 then Some(B)
    else if cap == "500ml" && 4 <= qty <= 6 then Some(B)
    else if cap == "240ml" && 6 <= qty <= 10 then Some(B)
    else if cap == "500ml" && qty == 10 then Some(C)
    else if cap == "1L" && 5 <= qty <= 6 then Some(D)
    else if cap == "1.5L" && 3 <= qty <= 4 then Some(E)
    else if cap == "1.5L" && 1 <= qty <= 2 then Some(F)
    else None
  }

  /** One line of the box table: `box` holds `lo` to `hi` bottles of capacity `cap`. */
  datatype Rule = Rule(box: Box, cap: string, lo: int, hi: int)

  /** The box table as data, in the order the comments of `calculate_box_for_order` list it. */
  const Rules: seq<Rule> := [
    Rule(A, "1L", 1, 2), Rule(A, "500ml", 1, 3), Rule(A, "240ml", 1, 5),
    Rule(B, "1L", 3, 4), Rule(B, "500ml", 4, 6), Rule(B, "240ml", 6, 10),
    Rule(C, "500ml", 10, 10),
    Rule(D, "1L", 5, 6),
    Rule(E, "1.5L", 3, 4),
    Rule(F, "1.5L", 1, 2)]

  predicate Applies(r: Rule, cap: string, qty: int)
  {
    r.cap == cap && r.lo <= qty <= r.hi
  }

  /** No two lines of the table overlap, so the order of the tests does not matter. */
  lemma RulesDisjoint(cap: string, qty: int)
    ensures forall i, j :: 0 <= i < j < |Rules| && Applies(Rules[i], cap, qty) ==> !Applies(Rules[j], cap, qty)
  {
  }

  /** The if-chain picks box `b` exactly when some line of the table for `b` applies. */
  lemma TableIff(cap: string, qty: int, b: Box)
    ensures Table(cap, qty) == Some(b) <==> exists i :: 0 <= i < |Rules| && Rules[i].box == b && Applies(Rules[i], cap, qty)
  {
    if exists i :: 0 <= i < |Rules| && Rules[i].box == b && Applies(Rules[i], cap, qty) {
      var i :| 0 <= i < |Rules| && Rules[i].box == b && Applies(Rules[i], cap, qty);
      RuleTable(i, cap, qty);
    }
    if cap == "1L" && 1 <= qty <= 2 { assert Applies(Rules[0], cap, qty); }
    else if cap == "500ml" && 1 <= qty <= 3 { assert Applies(Rules[1], cap, qty); }
    else if cap == "240ml" && 1 <= qty <= 5 { assert Applies(Rules[2], cap, qty); }
    else if cap == "1L" && 3 <= qty <= 4 { assert Applies(Rules[3], cap, qty); }
    else if cap == "500ml" && 4 <= qty <= 6 { assert Applies(Rules[4], cap, qty); }
    else if cap == "240ml" && 6 <= qty <= 10 { assert Applies(Rules[5], cap, qty); }
    else if cap == "500ml" && qty == 10 { assert Applies(Rules[6], cap, qty); }
    else if cap == "1L" && 5 <= qty <= 6 { assert Applies(Rules[7], cap, qty); }
    else if cap == "1.5L" && 3 <= qty <= 4 { assert Applies(Rules[8], cap, qty); }
    else if cap == "1.5L" && 1 <= qty <= 2 { assert Applies(Rules[9], cap, qty); }
  }

  /** Each line of the table is honoured by the if-chain. */
  lemma RuleTable(i: int, cap: string, qty: int)
    requires 0 <= i < |Rules| && Applies(Rules[i], cap, qty)
    ensures Table(cap, qty) == Some(Rules[i].box)
  {
    var r := Rules[i];
    if i == 0 { assert r == Rule(A, "1L", 1, 2); }
    else if i == 1 { assert r == Rule(A, "500ml", 1, 3); }
    else if i == 2 { assert r == Rule(A, "240ml", 1, 5); }
    else if i == 3 { assert r == Rule(B, "1L", 3, 4); }
    else if i == 4 { assert r == Rule(B, "500ml", 4, 6); }
    else if i == 5 { assert r == Rule(B, "240ml", 6, 10); }
    else if i == 6 { assert r == Rule(C, "500ml", 10, 10); }
    else if i == 7 { assert r == Rule(D, "1L", 5, 6); }
    else if i == 8 { assert r == Rule(E, "1.5L", 3, 4); }
    else { assert r == Rule(F, "1.5L", 1, 2); }
  }

  /** A box is only chosen for one of the four buckets and between 1 and 10 bottles. */
  lemma TableRange(cap: string, qty: int)
    ensures Table(cap, qty).Some? ==> IsBucket(cap) && 1 <= qty <= 10
    ensures IsBucket(cap) && 1 <= qty <= 6 && cap != "1.5L" ==> Table(cap, qty).Some?
    ensures cap == "1.5L" ==> (Table(cap, qty).Some? <==> 1 <= qty <= 4)
    ensures cap == "1L" && qty == 7 ==> Table(cap, qty) == None
    ensures cap == "500ml" && 7 <= qty <= 9 ==> Table(cap, qty) == None
  {
  }

  /** The second loop of `calculate_box_for_order`: the first positive bucket the table accepts. */
  function Scan(quantities: Dict<string, int>): Decision
    decreases |quantities|
  {
    if quantities == [] then NeedsReview
    else if quantities[0].1 > 0 && Table(quantities[0].0, quantities[0].1).Some? then
      Fits(Table(quantities[0].0, quantities[0].1).value)
    else Scan(quantities[1..])
  }

  /** `calculate_box_for_order`: mixed capacities go to review; otherwise the table decides. */
  function DecideBox(quantities: Dict<string, int>): Decision
  {
    if CountPositive(quantities) > 1 then NeedsReview else Scan(quantities)
  }

  method CalculateBoxForOrder(quantities: Dict<string, int>) returns (d: Decision)
    ensures d == DecideBox(quantities)
  {
    if CountPositive(quantities) > 1 {
      return NeedsReview;
    }
    var i := 0;
    while i < |quantities|
      invariant 0 <= i <= |quantities|
      invariant Scan(quantities) == Scan(quantities[i..])
    {
      var (cap, qty) := quantities[i];
      assert quantities[i..][1..] == quantities[i + 1..];
      if qty > 0 {
        var t := Table(cap, qty);
        if t.Some? {
          return Fits(t.value);
        }
      }
      i := i + 1;
    }
    return NeedsReview;
  }

  /** Entries with no positive quantity are passed over by the scan. */
  lemma {:induction false} ScanSkip(q: Dict<string, int>, j: int)
    requires 0 <= j <= |q|
    requires forall i :: 0 <= i < j ==> q[i].1 <= 0
    ensures Scan(q) == Scan(q[j..])
    decreases j
  {
    if j > 0 {
      ScanSkip(q[1..], j - 1);
      assert q[1..][j - 1..] == q[j..];
    }
  }

  /** A box found by the scan comes from a positive entry the table accepts. */
  lemma {:induction false} ScanWitness(q: Dict<string, int>, b: Box)
    requires Scan(q) == Fits(b)
    ensures exists j :: 0 <= j < |q| && q[j].1 > 0 && Table(q[j].0, q[j].1) == Some(b)
    decreases |q|
  {
    if !(q[0].1 > 0 && Table(q[0].0, q[0].1).Some?) {
      ScanWitness(q[1..], b);
      var j :| 0 <= j < |q[1..]| && q[1..][j].1 > 0 && Table(q[1..][j].0, q[1..][j].1) == Some(b);
      assert q[j + 1] == q[1..][j];
    }
  }

  /**
   * A box is chosen exactly when one bucket has a positive quantity, every
   * other bucket has none, and the table accepts that bucket and quantity.
   */
  lemma DecideBoxIff(q: Dict<string, int>, b: Box)
    ensures DecideBox(q) == Fits(b) <==>
      exists j :: 0 <= j < |q| && q[j].1 > 0 && Table(q[j].0, q[j].1) == Some(b)
        && forall i :: 0 <= i < |q| && i != j ==> q[i].1 <= 0
  {
    if DecideBox(q) == Fits(b) {
      ScanWitness(q, b);
      var j :| 0 <= j < |q| && q[j].1 > 0 && Table(q[j].0, q[j].1) == Some(b);
      forall i | 0 <= i < |q| && i != j
        ensures q[i].1 <= 0
      {
        if q[i].1 > 0 {
          if i < j { CountPositiveTwo(q, i, j); } else { CountPositiveTwo(q, j, i); }
        }
      }
    }
    if exists j :: 0 <= j < |q| && q[j].1 > 0 && Table(q[j].0, q[j].1) == Some(b)
        && forall i :: 0 <= i < |q| && i != j ==> q[i].1 <= 0 {
      var j :| 0 <= j < |q| && q[j].1 > 0 && Table(q[j].0, q[j].1) == Some(b)
        && forall i :: 0 <= i < |q| && i != j ==> q[i].1 <= 0;
      CountPositiveOnly(q, j);
      ScanSkip(q, j);
    }
  }

  /** An order with positive quantities in two buckets always goes to review. */
  lemma MixedNeedsReview(q: Dict<string, int>, i: int, j: int)
    requires 0 <= i < j < |q| && q[i].1 > 0 && q[j].1 > 0
    ensures DecideBox(q) == NeedsReview
  {
    CountPositiveTwo(q, i, j);
  }

  /** An order with no positive quantity goes to review. */
  lemma EmptyNeedsReview(q: Dict<string, int>)
    requires forall i :: 0 <= i < |q| ==> q[i].1 <= 0
    ensures DecideBox(q) == NeedsReview
  {
    CountPositiveNone(q);
    ScanSkip(q, |q|);
  }

  /** An entry of `review_orders`. */
  datatype ReviewOrder = ReviewOrder(recipient: string, quantities: Dict<string, int>, products: Dict<string, int>)

  /** The decision for one recipient's products. */
  function Decide(products: Dict<string, int>): Decision
  {
    DecideBox(Quantities(products))
  }

  /** What the loop of `calculate_box_requirements` computes for one recipient. */
  datatype Assessment = Assessment(recipient: string, products: Dict<string, int>, quantities: Dict<string, int>, decision: Decision)

  function Assess(orders: Dict<string, Dict<string, int>>): (vs: seq<Assessment>)
    ensures |vs| == |orders|
    ensures forall i :: 0 <= i < |orders| ==>
      vs[i] == Assessment(orders[i].0, orders[i].1, Quantities(orders[i].1), Decide(orders[i].1))
  {
    seq(|orders|, i requires 0 <= i < |orders| =>
      Assessment(orders[i].0, orders[i].1, Quantities(orders[i].1), Decide(orders[i].1)))
  }

  /** One `(box, 1)` pair per recipient that fits a box, in order. */
  function BoxEntries(vs: seq<Assessment>): (es: seq<(Box, int)>)
    ensures |es| <= |vs|
    ensures forall i :: 0 <= i < |es| ==> es[i].1 == 1
    decreases |vs|
  {
    if vs == [] then []
    else
      var last := vs[|vs| - 1];
      BoxEntries(vs[..|vs| - 1]) + (match last.decision case Fits(b) => [(b, 1)] case NeedsReview => [])
  }

  function ReviewOf(a: Assessment): ReviewOrder
  {
    ReviewOrder(a.recipient, a.quantities, a.products)
  }

  /** The recipients that need review, with their bucket totals and products, in order. */
  function Reviews(vs: seq<Assessment>): (rs: seq<ReviewOrder>)
    ensures |rs| <= |vs|
    decreases |vs|
  {
    if vs == [] then []
    else
      var last := vs[|vs| - 1];
      Reviews(vs[..|vs| - 1]) + (if last.decision == NeedsReview then [ReviewOf(last)] else [])
  }

  /** `total_boxes`: how many recipients each box serves. */
  function BoxTotals(orders: Dict<string, Dict<string, int>>): Dict<Box, int>
  {
    Tally(BoxEntries(Assess(orders)))
  }

  /** `review_orders`. */
  function ReviewOrders(orders: Dict<string, Dict<string, int>>): seq<ReviewOrder>
  {
    Reviews(Assess(orders))
  }

  /** Reference definition: the number of assessments that select box `b`. */
  function CountFits(vs: seq<Assessment>, b: Box): nat
    decreases |vs|
  {
    if vs == [] then 0
    else CountFits(vs[..|vs| - 1], b) + (if vs[|vs| - 1].decision == Fits(b) then 1 else 0)
  }

  lemma {:induction false} SumAllOnes(es: seq<(Box, int)>)
    requires forall i :: 0 <= i < |es| ==> es[i].1 == 1
    ensures SumAll(es) == |es|
    decreases |es|
  {
    if es != [] {
      SumAllOnes(es[..|es| - 1]);
    }
  }

  lemma {:induction false} EntriesPlusReviews(vs: seq<Assessment>)
    ensures |BoxEntries(vs)| + |Reviews(vs)| == |vs|
    decreases |vs|
  {
    if vs != [] {
      EntriesPlusReviews(vs[..|vs| - 1]);
    }
  }

  /** Every recipient is either counted in exactly one box total or listed for review. */
  lemma Partition(orders: Dict<string, Dict<string, int>>)
    ensures Sum(BoxTotals(orders)) + |ReviewOrders(orders)| == |orders|
  {
    var vs := Assess(orders);
    TallyConserve(BoxEntries(vs));
    SumAllOnes(BoxEntries(vs));
    EntriesPlusReviews(vs);
  }

  /** One more assessment adds at most one pair and at most one review. */
  lemma BoxEntriesStep(vs: seq<Assessment>, i: int)
    requires 0 <= i < |vs|
    ensures vs[i].decision == NeedsReview ==>
      BoxEntries(vs[..i + 1]) == BoxEntries(vs[..i]) && Reviews(vs[..i + 1]) == Reviews(vs[..i]) + [ReviewOf(vs[i])]
    ensures vs[i].decision.Fits? ==>
      BoxEntries(vs[..i + 1]) == BoxEntries(vs[..i]) + [(vs[i].decision.box, 1)] && Reviews(vs[..i + 1]) == Reviews(vs[..i])
  {
    assert vs[..i + 1][..i] == vs[..i];
    assert BoxEntries(vs[..i]) + [] == BoxEntries(vs[..i]);
    assert Reviews(vs[..i]) + [] == Reviews(vs[..i]);
  }

  lemma {:induction false} BoxEntriesCount(vs: seq<Assessment>, b: Box)
    ensures SumFor(BoxEntries(vs), b) == CountFits(vs, b)
    decreases |vs|
  {
    if vs != [] {
      var n := |vs| - 1;
      BoxEntriesCount(vs[..n], b);
      BoxEntriesStep(vs, n);
      assert vs[..n + 1] == vs;
      var es := BoxEntries(vs[..n]);
      match vs[n].decision
      case Fits(c) =>
        assert BoxEntries(vs) == es + [(c, 1)];
        SumForSnoc(es, (c, 1), b);
      case NeedsReview =>
        assert BoxEntries(vs) == es;
    }
  }

  /** Each box total counts exactly the recipients whose products select that box. */
  lemma BoxTotalsCount(orders: Dict<string, Dict<string, int>>, b: Box)
    ensures Get(BoxTotals(orders), b, 0) == CountFits(Assess(orders), b)
  {
    TallyGet(BoxEntries(Assess(orders)), b);
    BoxEntriesCount(Assess(orders), b);
  }

  lemma {:induction false} ReviewsIff(vs: seq<Assessment>, r: ReviewOrder)
    ensures r in Reviews(vs) <==> exists i :: 0 <= i < |vs| && vs[i].decision == NeedsReview && ReviewOf(vs[i]) == r
    decreases |vs|
  {
    if vs != [] {
      var init := vs[..|vs| - 1];
      ReviewsIff(init, r);
      if exists i :: 0 <= i < |vs| && vs[i].decision == NeedsReview && ReviewOf(vs[i]) == r {
        var i :| 0 <= i < |vs| && vs[i].decision == NeedsReview && ReviewOf(vs[i]) == r;
        if i < |init| {
          assert init[i] == vs[i];
        }
      }
      if r in Reviews(init) {
        var i :| 0 <= i < |init| && init[i].decision == NeedsReview && ReviewOf(init[i]) == r;
        assert vs[i] == init[i];
      }
    }
  }

  /** A recipient is listed for review exactly when its decision is "검토 필요"; the listing carries its bucket totals. */
  lemma ReviewOrdersIff(orders: Dict<string, Dict<string, int>>, r: ReviewOrder)
    ensures r in ReviewOrders(orders) <==>
      exists i :: 0 <= i < |orders| && orders[i] == (r.recipient, r.products)
        && r.quantities == Quantities(r.products) && Decide(r.products) == NeedsReview
  {
    var vs := Assess(orders);
    ReviewsIff(vs, r);
    if r in ReviewOrders(orders) {
      var i :| 0 <= i < |vs| && vs[i].decision == NeedsReview && ReviewOf(vs[i]) == r;
      assert orders[i] == (r.recipient, r.products);
    }
    if exists i :: 0 <= i < |orders| && orders[i] == (r.recipient, r.products)
        && r.quantities == Quantities(r.products) && Decide(r.products) == NeedsReview {
      var i :| 0 <= i < |orders| && orders[i] == (r.recipient, r.products)
        && r.quantities == Quantities(r.products) && Decide(r.products) == NeedsReview;
      assert vs[i].decision == NeedsReview && ReviewOf(vs[i]) == r;
    }
  }

  /** The loop of `calculate_box_requirements`, after grouping. */
  method CalculateBoxRequirements(rows: seq<Row>) returns (totalBoxes: Dict<Box, int>, reviewOrders: seq<ReviewOrder>)
    ensures totalBoxes == BoxTotals(Orders(rows))
    ensures reviewOrders == ReviewOrders(Orders(rows))
  {
    var orders := GroupOrdersByRecipient(rows);
    ghost var vs := Assess(orders);
    totalBoxes, reviewOrders := [], [];
    var i := 0;
    while i < |orders|
      invariant 0 <= i <= |orders|
      invariant totalBoxes == Tally(BoxEntries(vs[..i]))
      invariant reviewOrders == Reviews(vs[..i])
    {
      var (recipient, products) := orders[i];
      var quantities := GetProductQuantities(products);
      var boxResult := CalculateBoxForOrder(quantities);
      assert vs[i] == Assessment(recipient, products, quantities, boxResult);
      BoxEntriesStep(vs, i);
      ghost var es := BoxEntries(vs[..i]);
      if boxResult == NeedsReview {
        reviewOrders := reviewOrders + [ReviewOrder(recipient, quantities, products)];
      } else {
        TallySnoc(es, boxResult.box, 1);
        totalBoxes := Add(totalBoxes, boxResult.box, 1);
      }
      i := i + 1;
    }
    assert vs[..i] == vs;
  }

  /** A 1.5L key lands in the 1.5L bucket before the 1L test is tried. */
  lemma ExampleBucket15()
    ensures BucketOf("단호박식혜 1.5L") == Some("1.5L")
  {
    assert "단호박식혜 1.5L"[6..10] == "1.5L";
    ContainsSlice("단호박식혜 1.5L", 6, 10);
  }

  /** The tests are substring tests: a "1500ml" key falls in the 500ml bucket. */
  lemma ExampleBucket1500()
    ensures BucketOf("식혜 1500ml") == Some("500ml")
  {
    var k := "식혜 1500ml";
    assert '.' !in k && 'L' !in k;
    if Contains(k, "1.5L") { ContainsChars(k, "1.5L", 1); }
    if Contains(k, "1L") { ContainsChars(k, "1L", 1); }
    assert k[4..9] == "500ml";
    ContainsSlice(k, 4, 9);
  }

  /** The tests are substring tests: a "1200ml" key falls in the 240ml bucket. */
  lemma ExampleBucket1200()
    ensures BucketOf("식혜 1200ml") == Some("240ml")
  {
    var k := "식혜 1200ml";
    assert '.' !in k;
    assert 'L' !in k;
    assert '5' !in k;
    assert '4' !in k;
    assert k[4..9] == "200ml";
    ContainsSlice(k, 4, 9);
    if Contains(k, "1.5L") { ContainsChars(k, "1.5L", 1); }
    if Contains(k, "1L") { ContainsChars(k, "1L", 1); }
    if Contains(k, "500ml") { ContainsChars(k, "500ml", 0); }
    if Contains(k, "240ml") { ContainsChars(k, "240ml", 1); }
  }

  /** The tests are case-sensitive: a lower-cased unknown size such as "2l" falls in no bucket. */
  lemma ExampleBucketNone()
    ensures BucketOf("식혜 2l") == None
  {
    var k := "식혜 2l";
    assert '.' !in k && 'L' !in k && '5' !in k && '4' !in k && '0' !in k;
    if Contains(k, "1.5L") { ContainsChars(k, "1.5L", 1); }
    if Contains(k, "1L") { ContainsChars(k, "1L", 1); }
    if Contains(k, "500ml") { ContainsChars(k, "500ml", 0); }
    if Contains(k, "240ml") { ContainsChars(k, "240ml", 1); }
    if Contains(k, "200ml") { ContainsChars(k, "200ml", 1); }
  }
}
