/**
 * The stock page: product keys are split into a name and a capacity, the
 * "출고 현황 반영" button subtracts the shipped totals from the latest stock
 * entry (never going below zero), and both that button and the manual form
 * push a new entry onto the head of the stock history.
 */
module Stock {
  import opened Wrappers
  import opened Text
  import opened Dict
  import opened Sorting
  import opened Classify
  import opened OptionParse
  import opened Capacity
  import opened Aggregate

  /** The fifteen products the stock page always lists, shipped or not. */
  const Additional: seq<string> := [
    "단호박식혜 1.5L", "단호박식혜 1L", "단호박식혜 240ml",
    "식혜 1.5L", "식혜 1L", "식혜 240ml",
    "수정과 500ml",
    "플레인 쌀요거트 1L", "플레인 쌀요거트 200ml",
    "밥알없는 단호박식혜 1.5L", "밥알없는 단호박식혜 1L", "밥알없는 단호박식혜 240ml",
    "밥알없는 식혜 1.5L", "밥알없는 식혜 1L", "밥알없는 식혜 240ml"]

  /**
   * `parts = key.strip().split()`: with two words or more and a last word that
   * begins with a capacity token (`re.match`), the name is the other words
   * joined by single spaces and the capacity is the last word; otherwise the
   * whole key is the name and the capacity is empty.
   */
  function SplitKey(key: string): (r: (string, string))
    ensures r.1 != "" ==> CapLen(r.1) > 0 && NoSpace(r.1) && r.1 != []
  {
    var parts := Words(key);
    if |parts| >= 2 && CapLen(parts[|parts| - 1]) > 0 then
      (Join(parts[..|parts| - 1], " "), parts[|parts| - 1])
    else (key, "")
  }

  /** The key of the stock inputs, f"{product_name}|{capacity}". */
  function InputKey(key: string): string
  {
    SplitKey(key).0 + "|" + SplitKey(key).1
  }

  /** Words that `split()` gives back unchanged. */
  predicate GoodWords(ws: seq<string>)
  {
    forall i :: 0 <= i < |ws| ==> |ws[i]| > 0 && NoSpace(ws[i])
  }

  /** A name of whitespace-separated words followed by a capacity word splits back into the two. */
  lemma SplitJoined(ws: seq<string>, cap: string)
    requires |ws| >= 1 && GoodWords(ws)
    requires NoSpace(cap) && CapLen(cap) > 0
    ensures SplitKey(Join(ws, " ") + " " + cap) == (Join(ws, " "), cap)
  {
    var name := Join(ws, " ");
    assert |cap| > 0;
    WordsConcat(name, cap);
    WordsOfJoin(ws);
    WordsOfWord(cap);
    var parts := Words(name + " " + cap);
    assert parts == ws + [cap];
    assert parts[..|parts| - 1] == ws;
  }

  /** A key whose words end in no capacity token is all name. */
  lemma SplitUnsplit(ws: seq<string>)
    requires |ws| >= 1 && GoodWords(ws) && CapLen(ws[|ws| - 1]) == 0
    ensures SplitKey(Join(ws, " ")) == (Join(ws, " "), "")
  {
    WordsOfJoin(ws);
  }

  /** The words of each category name. */
  function LabelWords(cat: Category): (ws: seq<string>)
    ensures |ws| >= 1 && GoodWords(ws) && Join(ws, " ") == cat.Label()
    ensures CapLen(ws[|ws| - 1]) == 0
  {
    match cat
    case Pumpkin => ["단호박식혜"]
    case Sikhye => ["식혜"]
    case Sujeonggwa => ["수정과"]
    case RiceYogurt => assert Join(["플레인", "쌀요거트"], " ") == "플레인" + " " + "쌀요거트"; ["플레인", "쌀요거트"]
    case Other => ["기타"]
  }

  lemma TokenWord(ds: string, fs: string, unit: string)
    requires TokenParts(ds, fs, unit)
    ensures NoSpace(Token(ds, fs, unit)) && CapLen(Token(ds, fs, unit)) > 0
  {
    var t := Token(ds, fs, unit);
    CapLenToken(ds, fs, unit, "");
    assert t + "" == t;
  }

  lemma CanonicalCapLen(cap: string)
    requires Canonical(cap)
    ensures NoSpace(cap) && CapLen(cap) > 0
  {
    if cap == "1.5L" {
      assert Token("1", "5", "L") == cap;
      TokenWord("1", "5", "L");
    } else if cap == "1L" {
      assert Token("1", "", "L") == cap;
      TokenWord("1", "", "L");
    } else if cap == "500ml" {
      assert Token("500", "", "ml") == cap;
      TokenWord("500", "", "ml");
    } else if cap == "240ml" {
      assert Token("240", "", "ml") == cap;
      TokenWord("240", "", "ml");
    } else {
      assert Token("200", "", "ml") == cap;
      TokenWord("200", "", "ml");
    }
  }

  /**
   * Aggregation keys with a canonical capacity split back into the category
   * and the capacity; keys without a capacity are all name.
   */
  lemma SplitProductKey(cat: Category, cap: string)
    requires cap == "" || Canonical(cap)
    ensures SplitKey(ProductKey(cat, cap)) == (cat.Label(), cap)
    ensures InputKey(ProductKey(cat, cap)) == cat.Label() + "|" + cap
  {
    var ws := LabelWords(cat);
    if cap == "" {
      SplitUnsplit(ws);
    } else {
      CanonicalCapLen(cap);
      SplitJoined(ws, cap);
      assert ProductKey(cat, cap) == cat.Label() + " " + cap;
    }
  }

  /** A lower-cased capacity that is not canonical, as "2l", stays part of the name. */
  lemma SplitLowerCapacity()
    ensures SplitKey("식혜 2l") == ("식혜 2l", "")
  {
    assert "식혜 2l" == Join(["식혜", "2l"], " ");
    assert DigitRun("2l") == 1;
    assert UnitLen("l") == 0;
    SplitUnsplit(["식혜", "2l"]);
  }

  /** A two-word name such as "밥알없는 단호박식혜" followed by a canonical capacity keeps both words in the name. */
  lemma SplitTwoWords(a: string, b: string, cap: string)
    requires |a| > 0 && |b| > 0 && NoSpace(a) && NoSpace(b) && Canonical(cap)
    ensures InputKey(a + " " + b + " " + cap) == a + " " + b + "|" + cap
  {
    CanonicalCapLen(cap);
    var ws := [a, b];
    assert Join(ws, " ") == a + " " + b;
    SplitJoined(ws, cap);
  }

  /** `sorted(set(shipment keys) | set(additional_products))`. */
  function Universe(shipment: Dict<string, int>): (ks: seq<string>)
    ensures Distinct(ks) && Sorted(ks)
    ensures forall k :: k in ks <==> k in Keys(shipment) || k in Additional
  {
    var all := Keys(shipment) + Additional;
    SortDistinct(Dedup(all));
    var ks := Sort(Dedup(all));
    assert forall k :: k in ks <==> k in multiset(ks);
    assert forall k :: k in Dedup(all) <==> k in multiset(Dedup(all));
    ks
  }

  /** `max(0, x)`. */
  function Floor0(x: int): (r: nat)
    ensures r >= x
  {
    if x > 0 then x else 0
  }

  /** `max(0, current_qty - shipment_qty)` for one product key, absent keys reading as 0. */
  function Remaining(key: string, latest: Dict<string, int>, shipment: Dict<string, int>): nat
  {
    Floor0(Get(latest, InputKey(key), 0) - Get(shipment, key, 0))
  }

  /** The assignments `updated_stock[input_key] = final_qty`, one per product key, in order. */
  function Updates(keys: seq<string>, latest: Dict<string, int>, shipment: Dict<string, int>): (es: seq<(string, int)>)
    ensures |es| == |keys|
    ensures forall i :: 0 <= i < |keys| ==> es[i] == (InputKey(keys[i]), Remaining(keys[i], latest, shipment) as int)
  {
    seq(|keys|, i requires 0 <= i < |keys| => (InputKey(keys[i]), Remaining(keys[i], latest, shipment) as int))
  }

  /** The dictionary `updated_stock` after the loop. */
  function Reflect(keys: seq<string>, latest: Dict<string, int>, shipment: Dict<string, int>): Dict<string, int>
  {
    Assign(Updates(keys, latest, shipment))
  }

  /** The loop that fills `updated_stock`. */
  method UpdatedStock(keys: seq<string>, latest: Dict<string, int>, shipment: Dict<string, int>)
    returns (updated: Dict<string, int>)
    ensures updated == Reflect(keys, latest, shipment)
  {
    ghost var es := Updates(keys, latest, shipment);
    updated := [];
    var i := 0;
    while i < |keys|
      invariant 0 <= i <= |keys|
      invariant updated == Assign(es[..i])
    {
      var key := keys[i];
      var (name, capacity) := SplitKey(key);
      var inputKey := name + "|" + capacity;
      var currentQty := Get(latest, inputKey, 0);
      var shipmentQty := Get(shipment, key, 0);
      var finalQty := if currentQty - shipmentQty > 0 then currentQty - shipmentQty else 0;
      assert es[..i + 1][..i] == es[..i];
      assert es[..i + 1][i] == (inputKey, finalQty);
      updated := Put(updated, inputKey, finalQty);
      i := i + 1;
    }
    assert es[..|keys|] == es;
  }

  /** Every product key gets exactly one entry: the keys are distinct and are exactly the input keys of the product keys. */
  lemma ReflectCoverage(keys: seq<string>, latest: Dict<string, int>, shipment: Dict<string, int>)
    ensures Distinct(Keys(Reflect(keys, latest, shipment)))
    ensures forall ik :: ik in Keys(Reflect(keys, latest, shipment)) <==> exists k :: k in keys && InputKey(k) == ik
  {
    var es := Updates(keys, latest, shipment);
    var ks := Keys(es);
    assert |ks| == |keys| && forall i :: 0 <= i < |keys| ==> ks[i] == InputKey(keys[i]);
    AssignKeys(es);
    var r := Reflect(keys, latest, shipment);
    assert Distinct(Keys(r));
    forall k | k in keys
      ensures InputKey(k) in Keys(r)
    {
      var i :| 0 <= i < |keys| && keys[i] == k;
      assert ks[i] == InputKey(k);
    }
    forall ik | ik in Keys(r)
      ensures exists k :: k in keys && InputKey(k) == ik
    {
      var i :| 0 <= i < |ks| && ks[i] == ik;
      assert keys[i] in keys;
    }
  }

  /** On the page itself every shipped product and every fixed product gets an entry. */
  lemma ReflectCoversUniverse(latest: Dict<string, int>, shipment: Dict<string, int>, k: string)
    requires k in Keys(shipment) || k in Additional
    ensures InputKey(k) in Keys(Reflect(Universe(shipment), latest, shipment))
  {
    ReflectCoverage(Universe(shipment), latest, shipment);
  }

  /** The entry of a product key is its floored difference, unless a later key shares its input key. */
  lemma ReflectValue(keys: seq<string>, latest: Dict<string, int>, shipment: Dict<string, int>, j: int)
    requires 0 <= j < |keys|
    requires forall i :: j < i < |keys| ==> InputKey(keys[i]) != InputKey(keys[j])
    ensures Get(Reflect(keys, latest, shipment), InputKey(keys[j]), 0)
         == Floor0(Get(latest, InputKey(keys[j]), 0) - Get(shipment, keys[j], 0))
  {
    var es := Updates(keys, latest, shipment);
    AssignLast(es, j, 0);
  }

  /** Distinct input keys: each entry is exactly `max(0, current - shipped)`. */
  lemma ReflectValueDistinct(keys: seq<string>, latest: Dict<string, int>, shipment: Dict<string, int>, j: int)
    requires 0 <= j < |keys|
    requires forall a, b :: 0 <= a < b < |keys| ==> InputKey(keys[a]) != InputKey(keys[b])
    ensures Get(Reflect(keys, latest, shipment), InputKey(keys[j]), 0) == Remaining(keys[j], latest, shipment)
  {
    ReflectValue(keys, latest, shipment, j);
  }

  /** Stock is never negative after the reflection. */
  lemma ReflectNonNegative(keys: seq<string>, latest: Dict<string, int>, shipment: Dict<string, int>)
    ensures forall i :: 0 <= i < |Reflect(keys, latest, shipment)| ==> Reflect(keys, latest, shipment)[i].1 >= 0
  {
    AssignNonNegative(Updates(keys, latest, shipment));
  }

  /** With non-negative shipments, no entry exceeds the stock it was computed from. */
  lemma ReflectNoIncrease(keys: seq<string>, latest: Dict<string, int>, shipment: Dict<string, int>, ik: string)
    requires forall k :: k in keys ==> Get(shipment, k, 0) >= 0
    requires ik in Keys(Reflect(keys, latest, shipment))
    ensures Get(Reflect(keys, latest, shipment), ik, 0) <= Floor0(Get(latest, ik, 0))
  {
    var es := Updates(keys, latest, shipment);
    AssignFrom(es, ik, 0);
    var j :| 0 <= j < |es| && es[j].0 == ik && Get(Assign(es), ik, 0) == es[j].1;
    assert keys[j] in keys;
  }

  /** One element of `이력`: the timestamp, the stock per input key and whether it came from the shipment reflection. */
  datatype StockEntry = StockEntry(timestamp: string, inputs: Dict<string, int>, reflected: bool)

  /** The stored stock document: the history (newest first) and the latest entry. */
  class StockStore {
    var history: seq<StockEntry>
    var latest: Option<StockEntry>

    /** `stock_results if stock_results else {}`: a document loaded as it is. */
    constructor (history0: seq<StockEntry>, latest0: Option<StockEntry>)
      ensures history == history0 && latest == latest0
    {
      history := history0;
      latest := latest0;
    }

    /** `current_stock["최근입력"]["입력용"]`, or the empty dictionary without a latest entry. */
    function LatestInputs(): Dict<string, int>
      reads this
    {
      if latest.Some? then latest.value.inputs else []
    }

    /** `current_stock["이력"].insert(0, entry)` and `current_stock["최근입력"] = entry`. */
    method Push(entry: StockEntry)
      modifies this
      ensures history == [entry] + old(history)
      ensures |history| == |old(history)| + 1 && history[1..] == old(history)
      ensures latest == Some(entry) && latest == Some(history[0])
    {
      history := [entry] + history;
      latest := Some(entry);
    }

    /** The "출고 현황 반영" button: subtract the shipment from the latest entry and push the result, marked as reflected. */
    method ReflectShipment(shipment: Dict<string, int>, timestamp: string)
      modifies this
      ensures history == [StockEntry(timestamp, Reflect(Universe(shipment), old(LatestInputs()), shipment), true)] + old(history)
      ensures latest == Some(history[0]) && history[0].reflected
      ensures forall k :: k in Keys(shipment) || k in Additional ==> InputKey(k) in Keys(history[0].inputs)
    {
      var keys := Universe(shipment);
      var updated := UpdatedStock(keys, LatestInputs(), shipment);
      ReflectCoverage(keys, LatestInputs(), shipment);
      Push(StockEntry(timestamp, updated, true));
    }

    /** The "재고 저장" button: push the form's inputs, marked as manual. */
    method RecordManual(stockInput: Dict<string, int>, timestamp: string)
      modifies this
      ensures history == [StockEntry(timestamp, stockInput, false)] + old(history)
      ensures latest == Some(history[0]) && !history[0].reflected
    {
      Push(StockEntry(timestamp, stockInput, false));
    }
  }
}
