/**
 * Re-order detection on the customer page: each orderer of the current
 * shipment is looked up in the customer file, by name first and then by the
 * last four digits of the phone number; a match becomes a re-order entry with
 * the number of items in the customer's order history.
 */
module Reorder {
  import opened Wrappers
  import opened Text
  import opened Security

  /** A row of the customer file, every cell already turned into text by `str()`. */
  datatype CustomerRecord = CustomerRecord(name: string, phone: string, history: string)

  /** An orderer of the current shipment. */
  datatype DailyCustomer = DailyCustomer(ordererName: string, ordererPhone: string, recipientName: string, productInfo: string)

  /**
   * The phone test written inline in the page: both raw strings of length four
   * or more, both digit strings of length four or more, and equal last four
   * digits.
   */
  predicate InlinePhoneMatch(stored: string, current: string)
  {
    && |stored| >= 4 && |current| >= 4
    && |DigitsOnly(stored)| >= 4 && |DigitsOnly(current)| >= 4
    && Last(DigitsOnly(stored), 4) == Last(DigitsOnly(current), 4)
  }

  /** The inline test decides exactly what `match_phone_number` decides. */
  lemma InlineIsMatchPhone(stored: string, current: string)
    ensures InlinePhoneMatch(stored, current) <==> MatchPhone(stored, current)
  {
    assert |DigitsOnly(stored)| <= |stored|;
    assert |DigitsOnly(current)| <= |current|;
  }

  function CustomerRowOf(record: CustomerRecord): CustomerRow
  {
    CustomerRow(record.name, record.phone)
  }

  function CustomerRows(records: seq<CustomerRecord>): (rows: seq<CustomerRow>)
    ensures |rows| == |records|
    ensures forall i :: 0 <= i < |records| ==> rows[i] == CustomerRowOf(records[i])
  {
    seq(|records|, i requires 0 <= i < |records| => CustomerRowOf(records[i]))
  }

  /** The record the search loop settles on: that of the first row `find_matching_customer` would return. */
  function MatchOf(daily: DailyCustomer, records: seq<CustomerRecord>): Option<CustomerRecord>
  {
    match FirstMatch(CustomerRows(records), daily.ordererName, daily.ordererPhone)
    case Some(j) => Some(records[j])
    case None => None
  }

  /** The search loop that breaks on the first matching customer row. */
  method FindReorderMatch(daily: DailyCustomer, records: seq<CustomerRecord>) returns (matched: Option<CustomerRecord>)
    ensures matched == MatchOf(daily, records)
  {
    ghost var rows := CustomerRows(records);
    matched := None;
    var i := 0;
    while i < |records|
      invariant 0 <= i <= |records|
      invariant forall k :: 0 <= k < i ==> !Matches(rows[k], daily.ordererName, daily.ordererPhone)
    {
      var storedName := records[i].name;
      var storedPhone := records[i].phone;
      if storedName == daily.ordererName {
        matched := Some(records[i]);
        break;
      }
      InlineIsMatchPhone(storedPhone, daily.ordererPhone);
      if |storedPhone| >= 4 && |daily.ordererPhone| >= 4 {
        var storedDigits := DigitsOnly(storedPhone);
        var currentDigits := DigitsOnly(daily.ordererPhone);
        if |storedDigits| >= 4 && |currentDigits| >= 4 {
          if Last(storedDigits, 4) == Last(currentDigits, 4) {
            matched := Some(records[i]);
            break;
          }
        }
      }
      i := i + 1;
    }
  }

  /** A re-order customer is found exactly when some customer row matches by name or by phone. */
  lemma MatchOfIff(daily: DailyCustomer, records: seq<CustomerRecord>)
    ensures MatchOf(daily, records).Some? <==>
      exists j :: 0 <= j < |records| && (records[j].name == daily.ordererName || MatchPhone(records[j].phone, daily.ordererPhone))
  {
    var rows := CustomerRows(records);
    if exists j :: 0 <= j < |records| && (records[j].name == daily.ordererName || MatchPhone(records[j].phone, daily.ordererPhone)) {
      var j :| 0 <= j < |records| && (records[j].name == daily.ordererName || MatchPhone(records[j].phone, daily.ordererPhone));
      assert Matches(rows[j], daily.ordererName, daily.ordererPhone);
    }
  }

  /** `len(order_history.split(','))`, or 1 for an empty history or the text of a missing cell. */
  function OrderCount(history: string): (n: nat)
    ensures n >= 1
  {
    if history != "" && history != "nan" then |SplitOn(history, ',')| else 1
  }

  /** The count is that of the comma-separated items, which make up the history again. */
  lemma OrderCountItems(history: string)
    requires history != "" && history != "nan"
    ensures OrderCount(history) == Count(history, ',') + 1
    ensures Join(SplitOn(history, ','), ",") == history
  {
    SplitJoin(history, ',');
  }

  /** An entry of `reorder_customers`, reduced to the fields this part computes. */
  datatype ReorderEntry = ReorderEntry(customer: CustomerRecord, displayName: string, recipientName: string, orderCount: nat, currentOrder: string)

  function EntryOf(daily: DailyCustomer, customer: CustomerRecord): ReorderEntry
  {
    ReorderEntry(customer, daily.ordererName, daily.recipientName, OrderCount(customer.history), daily.productInfo)
  }

  /** The entry the loop appends for one orderer, if that orderer matched a customer row. */
  function EntryFor(records: seq<CustomerRecord>, daily: DailyCustomer): Option<ReorderEntry>
  {
    match MatchOf(daily, records)
    case Some(c) => Some(EntryOf(daily, c))
    case None => None
  }

  /** The values `f` gives for the elements of `ds`, in order, skipping `None`. */
  function Collect<D, T>(ds: seq<D>, f: D -> Option<T>): (ts: seq<T>)
    ensures |ts| <= |ds|
    decreases |ds|
  {
    if ds == [] then []
    else
      var before := Collect(ds[..|ds| - 1], f);
      match f(ds[|ds| - 1])
      case Some(t) => before + [t]
      case None => before
  }

  lemma {:induction false} CollectIff<D, T>(ds: seq<D>, f: D -> Option<T>, t: T)
    ensures t in Collect(ds, f) <==> exists i :: 0 <= i < |ds| && f(ds[i]) == Some(t)
    decreases |ds|
  {
    if ds != [] {
      var n := |ds| - 1;
      var init := ds[..n];
      CollectIff(init, f, t);
      assert forall i :: 0 <= i < n ==> init[i] == ds[i];
      if f(ds[n]) == Some(t) {
        assert 0 <= n < |ds| && f(ds[n]) == Some(t);
      }
    }
  }

  /** The list after the loop over the orderers: one entry per orderer that matched, in order. */
  function Reorders(dailies: seq<DailyCustomer>, records: seq<CustomerRecord>): (rs: seq<ReorderEntry>)
    ensures |rs| <= |dailies|
  {
    Collect(dailies, d => EntryFor(records, d))
  }

  /** The loop over `daily_customers`. */
  method CollectReorders(dailies: seq<DailyCustomer>, records: seq<CustomerRecord>) returns (reorders: seq<ReorderEntry>)
    ensures reorders == Reorders(dailies, records)
  {
    reorders := [];
    var i := 0;
    while i < |dailies|
      invariant 0 <= i <= |dailies|
      invariant reorders == Reorders(dailies[..i], records)
    {
      var daily := dailies[i];
      assert dailies[..i + 1][..i] == dailies[..i];
      var matched := FindReorderMatch(daily, records);
      if matched.Some? {
        var customer := matched.value;
        var history := customer.history;
        var orderCount := if history != "" && history != "nan" then |SplitOn(history, ',')| else 1;
        reorders := reorders + [ReorderEntry(customer, daily.ordererName, daily.recipientName, orderCount, daily.productInfo)];
      }
      i := i + 1;
    }
    assert dailies[..|dailies|] == dailies;
  }

  /** Every entry comes from one orderer and the customer row that orderer matched, and every matched orderer has one. */
  lemma ReordersIff(dailies: seq<DailyCustomer>, records: seq<CustomerRecord>, e: ReorderEntry)
    ensures e in Reorders(dailies, records) <==>
      exists i :: 0 <= i < |dailies| && MatchOf(dailies[i], records).Some? && e == EntryOf(dailies[i], MatchOf(dailies[i], records).value)
  {
    CollectIff(dailies, d => EntryFor(records, d), e);
  }
}
