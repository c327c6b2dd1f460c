/**
 * Turning order rows into totals. Every row yields a product key
 * ("<category>" or "<category> <capacity>") and an effective quantity (the
 * row's quantity times the bottle count in its option text).
 * `process_unified_file` sums effective quantities per key with shipment
 * standardisation; `group_orders_by_recipient` does the same per recipient
 * with box standardisation.
 */
module Aggregate {
  import opened Wrappers
  import opened Text
  import opened Dict
  import opened Classify
  import opened OptionParse
  import opened Capacity

  /** One spreadsheet row, reduced to the four columns the aggregation reads. */
  datatype Row = Row(
    productName: Option<string>,   // 상품이름; None for an empty cell
    optionText: Option<string>,    // 옵션이름; None for an empty cell
    quantity: Option<int>,         // 상품수량 after int(); None when int() raises
    recipient: Option<string>)     // 수취인이름; None when the column is absent

  const UnknownRecipient := "알 수 없음"

  /** `int(row.get('상품수량', 1))`, falling back to 1 when the conversion fails. */
  function BaseQuantity(row: Row): int
  {
    row.quantity.GetOr(1)
  }

  /** `base_quantity * option_quantity`. */
  function Effective(row: Row): int
  {
    BaseQuantity(row) * ParseOptionInfo(row.optionText).multiplier
  }

  function RecipientOf(row: Row): string
  {
    row.recipient.GetOr(UnknownRecipient)
  }

  /** The key f"{final_product} {standardized_capacity}", or the bare category when the capacity is empty. */
  function ProductKey(cat: Category, cap: string): (k: string)
    ensures cap == "" ==> k == cat.Label()
    ensures cap != "" ==> StartsWith(k, cat.Label()) && EndsWith(k, cap) && |k| == |cat.Label()| + 1 + |cap|
                          && k[|cat.Label()|] == ' '
  {
    var k := if cap == "" then cat.Label() else cat.Label() + " " + cap;
    StartsWithIff(k, cat.Label());
    k
  }

  /** The capacity a row is counted under, in shipment (`forBox` false) or box mode. */
  function RowCapacity(row: Row, forBox: bool): string
  {
    Standardize(ParseOptionInfo(row.optionText).capacity, forBox)
  }

  function RowKey(row: Row, forBox: bool): string
  {
    ProductKey(Final(row.optionText, row.productName), RowCapacity(row, forBox))
  }

  /** The (key, effective quantity) pair a row contributes. */
  function Entry(row: Row, forBox: bool): (string, int)
  {
    (RowKey(row, forBox), Effective(row))
  }

  function Entries(rows: seq<Row>, forBox: bool): (es: seq<(string, int)>)
    ensures |es| == |rows|
    ensures forall i :: 0 <= i < |rows| ==> es[i] == Entry(rows[i], forBox)
  {
    seq(|rows|, i requires 0 <= i < |rows| => Entry(rows[i], forBox))
  }

  /** The totals after all rows: `totals[key] += total_quantity` once per row, in order. */
  function Totals(rows: seq<Row>, forBox: bool): Dict<string, int>
  {
    Tally(Entries(rows, forBox))
  }

  lemma EntriesPrefix(rows: seq<Row>, forBox: bool, i: nat)
    requires i < |rows|
    ensures Entries(rows, forBox)[..i + 1] == Entries(rows, forBox)[..i] + [Entry(rows[i], forBox)]
  {
  }

  /** Each key's total is the sum of the effective quantities of the rows with that key. */
  lemma TotalsGet(rows: seq<Row>, forBox: bool, k: string)
    ensures Get(Totals(rows, forBox), k, 0) == SumFor(Entries(rows, forBox), k)
  {
    TallyGet(Entries(rows, forBox), k);
  }

  /** The keys are distinct, and a key is present exactly when some row produced it. */
  lemma TotalsKeys(rows: seq<Row>, forBox: bool)
    ensures Distinct(Keys(Totals(rows, forBox)))
    ensures forall k :: k in Keys(Totals(rows, forBox)) <==> exists i :: 0 <= i < |rows| && RowKey(rows[i], forBox) == k
  {
    var es := Entries(rows, forBox);
    TallyKeys(es);
    forall k | k in Keys(Totals(rows, forBox))
      ensures exists i :: 0 <= i < |rows| && RowKey(rows[i], forBox) == k
    {
      var i :| 0 <= i < |es| && Keys(es)[i] == k;
      assert RowKey(rows[i], forBox) == k;
    }
    forall k | exists i :: 0 <= i < |rows| && RowKey(rows[i], forBox) == k
      ensures k in Keys(Totals(rows, forBox))
    {
      var i :| 0 <= i < |rows| && RowKey(rows[i], forBox) == k;
      assert Keys(es)[i] == k;
    }
  }

  /** Nothing is lost or invented: the totals add up to the sum of all effective quantities. */
  lemma TotalsConserve(rows: seq<Row>, forBox: bool)
    ensures Sum(Totals(rows, forBox)) == SumAll(Entries(rows, forBox))
  {
    TallyConserve(Entries(rows, forBox));
  }

  /** The loop of `process_unified_file` that fills `results`. */
  method ShipmentTotals(rows: seq<Row>) returns (results: Dict<string, int>)
    ensures results == Totals(rows, false)
  {
    ghost var es := Entries(rows, false);
    results := [];
    var i := 0;
    while i < |rows|
      invariant 0 <= i <= |rows|
      invariant results == Tally(es[..i])
    {
      var key, qty := Entry(rows[i], false).0, Entry(rows[i], false).1;
      assert es[..i + 1][..i] == es[..i];
      assert es[..i + 1][i] == (key, qty);
      assert Tally(es[..i + 1]) == Add(Tally(es[..i]), key, qty);
      results := Add(results, key, qty);
      i := i + 1;
    }
    assert es[..i] == es;
  }

  /** The (recipient, (key, quantity)) triple a row contributes to the grouping. */
  function GroupEntries(rows: seq<Row>): (es: seq<(string, (string, int))>)
    ensures |es| == |rows|
    ensures forall i :: 0 <= i < |rows| ==> es[i] == (RecipientOf(rows[i]), Entry(rows[i], true))
  {
    seq(|rows|, i requires 0 <= i < |rows| => (RecipientOf(rows[i]), Entry(rows[i], true)))
  }

  /** `group_orders_by_recipient`: recipient to (box-mode key to effective quantity). */
  function Orders(rows: seq<Row>): Dict<string, Dict<string, int>>
  {
    Group(GroupEntries(rows))
  }

  /** The rows addressed to `r`, in order. */
  function RowsOf(rows: seq<Row>, r: string): (s: seq<Row>)
    ensures forall x :: x in s ==> x in rows && RecipientOf(x) == r
    decreases |rows|
  {
    if rows == [] then []
    else RowsOf(rows[..|rows| - 1], r) + (if RecipientOf(rows[|rows| - 1]) == r then [rows[|rows| - 1]] else [])
  }

  lemma EntriesSnoc(rows: seq<Row>, x: Row, forBox: bool)
    ensures Entries(rows + [x], forBox) == Entries(rows, forBox) + [Entry(x, forBox)]
  {
  }

  lemma {:induction false} SelectRowsOf(rows: seq<Row>, r: string)
    ensures Select(GroupEntries(rows), r) == Entries(RowsOf(rows, r), true)
    decreases |rows|
  {
    if rows != [] {
      var init, last := rows[..|rows| - 1], rows[|rows| - 1];
      SelectRowsOf(init, r);
      var ge, n := GroupEntries(rows), |rows| - 1;
      assert ge[..n] == GroupEntries(init);
      LastSplit(ge);
      SelectSnoc(ge[..n], ge[n], r);
      if RecipientOf(last) == r {
        assert RowsOf(rows, r) == RowsOf(init, r) + [last];
        EntriesSnoc(RowsOf(init, r), last, true);
      } else {
        assert RowsOf(rows, r) == RowsOf(init, r) + [];
        assert RowsOf(rows, r) == RowsOf(init, r);
      }
    }
  }

  /** Each recipient's dictionary is exactly the box-mode totals of that recipient's rows. */
  lemma OrdersGet(rows: seq<Row>, r: string)
    ensures Get(Orders(rows), r, []) == Totals(RowsOf(rows, r), true)
  {
    GroupGet(GroupEntries(rows), r);
    SelectRowsOf(rows, r);
  }

  /** The recipients are distinct, and are exactly the recipients of the rows. */
  lemma OrdersKeys(rows: seq<Row>)
    ensures Distinct(Keys(Orders(rows)))
    ensures forall r :: r in Keys(Orders(rows)) <==> exists i :: 0 <= i < |rows| && RecipientOf(rows[i]) == r
  {
    var es := GroupEntries(rows);
    GroupKeys(es);
    forall r | r in Keys(Orders(rows))
      ensures exists i :: 0 <= i < |rows| && RecipientOf(rows[i]) == r
    {
      var i :| 0 <= i < |es| && Keys(es)[i] == r;
      assert RecipientOf(rows[i]) == r;
    }
    forall r | exists i :: 0 <= i < |rows| && RecipientOf(rows[i]) == r
      ensures r in Keys(Orders(rows))
    {
      var i :| 0 <= i < |rows| && RecipientOf(rows[i]) == r;
      assert Keys(es)[i] == r;
    }
  }

  lemma {:induction false} SumInnerEntries(rows: seq<Row>)
    ensures SumInner(GroupEntries(rows)) == SumAll(Entries(rows, true))
    decreases |rows|
  {
    if rows != [] {
      var init := rows[..|rows| - 1];
      var ge, es := GroupEntries(rows), Entries(rows, true);
      SumInnerEntries(init);
      assert ge[..|rows| - 1] == GroupEntries(init);
      assert es[..|rows| - 1] == Entries(init, true);
      assert ge[|rows| - 1].1 == es[|rows| - 1];
      assert SumInner(ge) == SumInner(GroupEntries(init)) + ge[|rows| - 1].1.1;
      assert SumAll(es) == SumAll(Entries(init, true)) + es[|rows| - 1].1;
    }
  }

  /** Grouping by recipient loses no bottle: the nested totals equal the totals across all rows. */
  lemma OrdersConserve(rows: seq<Row>)
    ensures SumNested(Orders(rows)) == SumAll(Entries(rows, true))
    ensures SumNested(Orders(rows)) == Sum(Totals(rows, true))
  {
    GroupConserve(GroupEntries(rows));
    SumInnerEntries(rows);
    TotalsConserve(rows, true);
  }

  /** The loop of `group_orders_by_recipient`. */
  method GroupOrdersByRecipient(rows: seq<Row>) returns (orders: Dict<string, Dict<string, int>>)
    ensures orders == Orders(rows)
  {
    ghost var es := GroupEntries(rows);
    orders := [];
    var i := 0;
    while i < |rows|
      invariant 0 <= i <= |rows|
      invariant orders == Group(es[..i])
    {
      var recipient := RecipientOf(rows[i]);
      var key, qty := Entry(rows[i], true).0, Entry(rows[i], true).1;
      assert es[..i + 1][..i] == es[..i];
      assert es[..i + 1][i] == (recipient, (key, qty));
      var inner := Get(orders, recipient, []);
      assert Group(es[..i + 1]) == Put(Group(es[..i]), recipient, Add(inner, key, qty));
      orders := Put(orders, recipient, Add(inner, key, qty));
      i := i + 1;
    }
    assert es[..i] == es;
  }

  /** A key built from a space-free capacity other than "200ml" does not end in " 200ml". */
  lemma KeyNot200(name: string, cap: string)
    requires cap != "" && cap != "200ml" && ' ' !in cap
    ensures !EndsWith(name + " " + cap, " 200ml")
  {
    var k := name + " " + cap;
    var n, sep := |k|, |name|;
    if n >= 6 {
      var s := k[n - 6..];
      if n - 6 > sep {
        assert s[0] == cap[n - 6 - sep - 1];
      } else if n - 6 == sep {
        assert s[1..] == cap;
      } else {
        assert s[sep - (n - 6)] == ' ';
      }
    }
  }

  lemma LabelNot200(cat: Category)
    ensures !EndsWith(cat.Label(), " 200ml")
  {
    if cat == RiceYogurt {
      assert cat.Label()[|cat.Label()| - 1] == '트';
    }
  }

  /** Box mode never keys a row under a 200ml capacity. */
  lemma BoxKeyNot200(row: Row)
    ensures !EndsWith(RowKey(row, true), " 200ml")
  {
    var cap := ParseOptionInfo(row.optionText).capacity;
    var std := RowCapacity(row, true);
    var cat := Final(row.optionText, row.productName);
    ParseShape(row.optionText);
    if cap != "" {
      assert forall i :: 0 <= i < |cap| ==> cap[i] != ' ';
      StandardizeNoSpace(cap, true);
      BoxModeMerges200(cap);
    }
    if std == "" {
      LabelNot200(cat);
    } else {
      KeyNot200(cat.Label(), std);
    }
  }

  /** No recipient's dictionary has a key ending in " 200ml": those bottles are counted as 240ml. */
  lemma OrdersHaveNo200(rows: seq<Row>, r: string)
    ensures forall k :: k in Keys(Get(Orders(rows), r, [])) ==> !EndsWith(k, " 200ml")
  {
    OrdersGet(rows, r);
    var mine := RowsOf(rows, r);
    TotalsKeys(mine, true);
    forall k | k in Keys(Get(Orders(rows), r, []))
      ensures !EndsWith(k, " 200ml")
    {
      var i :| 0 <= i < |mine| && RowKey(mine[i], true) == k;
      BoxKeyNot200(mine[i]);
    }
  }
}
