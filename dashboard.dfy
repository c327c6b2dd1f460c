/**
 * The numbers and the review table the dashboard shows: the shipment and box
 * metrics, and one summary line per order that needs a box review.
 */
module Dashboard {
  import opened Text
  import opened Dict
  import opened Aggregate
  import opened Boxes

  /** `sum(shipment_results.values())`. */
  function TotalShipped(shipment: Dict<string, int>): int
  {
    Sum(shipment)
  }

  /** `len([k for k, v in shipment_results.items() if v > 0])`. */
  function ProductTypes(shipment: Dict<string, int>): nat
  {
    CountPositive(shipment)
  }

  /** `sum(total_boxes.values())`. */
  function TotalBoxCount(totalBoxes: Dict<Box, int>): int
  {
    Sum(totalBoxes)
  }

  /** `len(box_e_orders)`. */
  function ReviewCount(reviewOrders: seq<ReviewOrder>): nat
  {
    |reviewOrders|
  }

  /**
   * On the totals of the shipment aggregation, the total shipped is the sum
   * of the rows' effective quantities, the product types are the distinct
   * keys with a positive total, and with no negative quantity there are no
   * product types exactly when nothing was shipped.
   */
  lemma ShipmentMetrics(rows: seq<Row>)
    ensures TotalShipped(Totals(rows, false)) == SumAll(Entries(rows, false))
    ensures Distinct(Keys(Totals(rows, false)))
    ensures ProductTypes(Totals(rows, false)) == |PositiveKeys(Totals(rows, false))|
    ensures (forall i :: 0 <= i < |rows| ==> Effective(rows[i]) >= 0) ==>
            (ProductTypes(Totals(rows, false)) == 0 <==> TotalShipped(Totals(rows, false)) == 0)
  {
    var t := Totals(rows, false);
    TotalsConserve(rows, false);
    TotalsKeys(rows, false);
    CountPositiveKeys(t);
    if forall i :: 0 <= i < |rows| ==> Effective(rows[i]) >= 0 {
      var es := Entries(rows, false);
      TallyNonNegative(es);
      CountPositiveBound(t);
    }
  }

  /** On the box results, the box count and the review count add up to the number of distinct recipients. */
  lemma BoxMetrics(rows: seq<Row>)
    ensures TotalBoxCount(BoxTotals(Orders(rows))) + ReviewCount(ReviewOrders(Orders(rows))) == |Orders(rows)|
    ensures Distinct(Keys(Orders(rows)))
    ensures forall r :: r in Keys(Orders(rows)) <==> exists i :: 0 <= i < |rows| && RecipientOf(rows[i]) == r
  {
    Partition(Orders(rows));
    OrdersKeys(rows);
  }

  /** The capacities of the summary, in the order they are listed. */
  const SummaryCaps: seq<string> := ["1.5L", "1L", "500ml", "240ml"]

  /** f"{capacity} {qty}개". */
  function Item(cap: string, qty: nat): string
  {
    cap + " " + Decimal(qty) + "개"
  }

  /** The list `order_details` after the loop over `caps`. */
  function DetailItems(quantities: Dict<string, int>, caps: seq<string>): (items: seq<string>)
    ensures |items| <= |caps|
    decreases |caps|
  {
    if caps == [] then []
    else
      var before := DetailItems(quantities, caps[..|caps| - 1]);
      var cap := caps[|caps| - 1];
      var qty := Get(quantities, cap, 0);
      if qty > 0 then before + [Item(cap, qty)] else before
  }

  /** The "주문 내역" cell. */
  function Details(quantities: Dict<string, int>): string
  {
    var items := DetailItems(quantities, SummaryCaps);
    if items == [] then "확인 필요" else Join(items, ", ")
  }

  /** One line of `summary_data`. */
  datatype SummaryRow = SummaryRow(number: string, recipient: string, details: string)

  /** The line for the review order at index `i` of the queue. */
  function SummaryRowOf(i: nat, order: ReviewOrder): SummaryRow
  {
    SummaryRow("주문 " + Decimal(i + 1), order.recipient, Details(order.quantities))
  }

  /** The inner loop: the items of one order's quantities. */
  method OrderDetails(quantities: Dict<string, int>) returns (details: string)
    ensures details == Details(quantities)
  {
    var items: seq<string> := [];
    var j := 0;
    while j < |SummaryCaps|
      invariant 0 <= j <= |SummaryCaps|
      invariant items == DetailItems(quantities, SummaryCaps[..j])
    {
      var cap := SummaryCaps[j];
      var qty := Get(quantities, cap, 0);
      assert SummaryCaps[..j + 1][..j] == SummaryCaps[..j];
      if qty > 0 {
        items := items + [Item(cap, qty)];
      }
      j := j + 1;
    }
    assert SummaryCaps[..|SummaryCaps|] == SummaryCaps;
    details := if items == [] then "확인 필요" else Join(items, ", ");
  }

  /** The loop over `box_e_orders`, numbered from 1. */
  method ReviewSummary(reviewOrders: seq<ReviewOrder>) returns (summary: seq<SummaryRow>)
    ensures |summary| == |reviewOrders|
    ensures forall i :: 0 <= i < |reviewOrders| ==> summary[i] == SummaryRowOf(i, reviewOrders[i])
  {
    summary := [];
    var i := 0;
    while i < |reviewOrders|
      invariant 0 <= i <= |reviewOrders|
      invariant |summary| == i
      invariant forall k :: 0 <= k < i ==> summary[k] == SummaryRowOf(k, reviewOrders[k])
    {
      var order := reviewOrders[i];
      var details := OrderDetails(order.quantities);
      summary := summary + [SummaryRow("주문 " + Decimal(i + 1), order.recipient, details)];
      i := i + 1;
    }
  }

  /** An item is listed exactly when its capacity is among `caps` with a positive quantity. */
  lemma {:induction false} DetailItemsMember(quantities: Dict<string, int>, caps: seq<string>, x: string)
    ensures x in DetailItems(quantities, caps) <==>
      exists j :: 0 <= j < |caps| && Get(quantities, caps[j], 0) > 0 && x == Item(caps[j], Get(quantities, caps[j], 0))
    decreases |caps|
  {
    if caps != [] {
      var init := caps[..|caps| - 1];
      DetailItemsMember(quantities, init, x);
      if exists j :: 0 <= j < |init| && Get(quantities, init[j], 0) > 0 && x == Item(init[j], Get(quantities, init[j], 0)) {
        var j :| 0 <= j < |init| && Get(quantities, init[j], 0) > 0 && x == Item(init[j], Get(quantities, init[j], 0));
        assert caps[j] == init[j];
      }
      if exists j :: 0 <= j < |caps| && Get(quantities, caps[j], 0) > 0 && x == Item(caps[j], Get(quantities, caps[j], 0)) {
        var j :| 0 <= j < |caps| && Get(quantities, caps[j], 0) > 0 && x == Item(caps[j], Get(quantities, caps[j], 0));
        if j < |init| {
          assert init[j] == caps[j];
        }
      }
    }
  }

  /** Items follow the order of `caps`: of two listed capacities, the earlier one's item comes first. */
  lemma {:induction false} DetailItemsOrder(quantities: Dict<string, int>, caps: seq<string>, j1: int, j2: int)
    requires 0 <= j1 < j2 < |caps|
    requires Get(quantities, caps[j1], 0) > 0 && Get(quantities, caps[j2], 0) > 0
    ensures exists a, b ::
      && 0 <= a < b < |DetailItems(quantities, caps)|
      && DetailItems(quantities, caps)[a] == Item(caps[j1], Get(quantities, caps[j1], 0))
      && DetailItems(quantities, caps)[b] == Item(caps[j2], Get(quantities, caps[j2], 0))
    decreases |caps|
  {
    var init := caps[..|caps| - 1];
    var before := DetailItems(quantities, init);
    var items := DetailItems(quantities, caps);
    assert init[j1] == caps[j1];
    if j2 == |caps| - 1 {
      DetailItemsMember(quantities, init, Item(caps[j1], Get(quantities, caps[j1], 0)));
      var a :| 0 <= a < |before| && before[a] == Item(caps[j1], Get(quantities, caps[j1], 0));
      assert items == before + [Item(caps[j2], Get(quantities, caps[j2], 0))];
      assert items[a] == before[a];
      assert items[|items| - 1] == Item(caps[j2], Get(quantities, caps[j2], 0));
    } else {
      assert init[j2] == caps[j2];
      DetailItemsOrder(quantities, init, j1, j2);
      var a, b :| 0 <= a < b < |before|
        && before[a] == Item(init[j1], Get(quantities, init[j1], 0))
        && before[b] == Item(init[j2], Get(quantities, init[j2], 0));
      assert items[..|before|] == before;
      assert items[a] == before[a] && items[b] == before[b];
    }
  }

  lemma JoinHead(items: seq<string>, sep: string)
    requires |items| > 0 && |items[0]| > 0
    ensures |Join(items, sep)| > 0 && Join(items, sep)[0] == items[0][0]
  {
  }

  /** The cell reads "확인 필요" exactly when none of the four capacities has a positive quantity. */
  lemma DetailsNeedCheck(quantities: Dict<string, int>)
    ensures Details(quantities) == "확인 필요" <==> forall j :: 0 <= j < |SummaryCaps| ==> Get(quantities, SummaryCaps[j], 0) <= 0
  {
    var items := DetailItems(quantities, SummaryCaps);
    if items != [] {
      DetailItemsMember(quantities, SummaryCaps, items[0]);
      var j :| 0 <= j < |SummaryCaps| && Get(quantities, SummaryCaps[j], 0) > 0
        && items[0] == Item(SummaryCaps[j], Get(quantities, SummaryCaps[j], 0));
      assert items[0][0] == SummaryCaps[j][0];
      JoinHead(items, ", ");
      assert "확인 필요"[0] == '확';
    } else {
      forall j | 0 <= j < |SummaryCaps|
        ensures Get(quantities, SummaryCaps[j], 0) <= 0
      {
        if Get(quantities, SummaryCaps[j], 0) > 0 {
          DetailItemsMember(quantities, SummaryCaps, Item(SummaryCaps[j], Get(quantities, SummaryCaps[j], 0)));
        }
      }
    }
  }

  /** Orders are numbered from 1: the number of line `i` reads back as `i + 1`. */
  lemma SummaryNumber(i: nat, order: ReviewOrder)
    ensures SummaryRowOf(i, order).number[..3] == "주문 "
    ensures DigitsValue(SummaryRowOf(i, order).number[3..]) == i + 1
  {
    var n := SummaryRowOf(i, order).number;
    assert n[3..] == Decimal(i + 1);
    DecimalRoundTrip(i + 1);
  }
}
