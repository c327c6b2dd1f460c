/**
 * `get_product_color`: the colour of a product card is decided by the first
 * keyword of a fixed, ordered list that occurs in the lower-cased product
 * name; "식혜" does not count in a name that also says "단호박".
 */
module Colors {
  import opened Text

  const Default := "#808080"

  /** The keyword table, in the order the dictionary literal lists it. */
  const ColorMap: seq<(string, string)> := [
    ("단호박식혜", "#FFD700"),
    ("수정과", "#D2B48C"),
    ("식혜", "#654321"),
    ("쌀요거트", "#F5F5F5"),
    ("플레인", "#F5F5F5")]

  /** The test inside the loop. */
  predicate Hit(keyword: string, name: string)
  {
    Contains(name, keyword) && !(keyword == "식혜" && Contains(name, "단호박"))
  }

  /** The loop with early return, written as a recursion over the remaining table. */
  function FirstColor(table: seq<(string, string)>, name: string): (color: string)
    ensures color == Default || exists i :: 0 <= i < |table| && color == table[i].1
    decreases |table|
  {
    if table == [] then Default
    else if Hit(table[0].0, name) then table[0].1
    else FirstColor(table[1..], name)
  }

  function ProductColor(productName: string): string
  {
    FirstColor(ColorMap, Lower(productName))
  }

  /** Reference definition: the index of the first keyword that hits, if any. */
  lemma {:induction false} FirstColorIndex(table: seq<(string, string)>, name: string, i: int)
    requires 0 <= i < |table| && Hit(table[i].0, name)
    requires forall j :: 0 <= j < i ==> !Hit(table[j].0, name)
    ensures FirstColor(table, name) == table[i].1
    decreases i
  {
    if i > 0 {
      assert forall j :: 0 <= j < i - 1 ==> table[1..][j] == table[j + 1];
      FirstColorIndex(table[1..], name, i - 1);
    }
  }

  /** With no keyword hitting, the default is returned. */
  lemma {:induction false} FirstColorNone(table: seq<(string, string)>, name: string)
    requires forall j :: 0 <= j < |table| ==> !Hit(table[j].0, name)
    ensures FirstColor(table, name) == Default
    decreases |table|
  {
    if table != [] {
      assert forall j :: 0 <= j < |table| - 1 ==> table[1..][j] == table[j + 1];
      FirstColorNone(table[1..], name);
    }
  }

  /** The result is one of the five mapped colours or the default. */
  lemma ColorRange(productName: string)
    ensures ProductColor(productName) in {"#FFD700", "#D2B48C", "#654321", "#F5F5F5", Default}
  {
    var c := ProductColor(productName);
    if c != Default {
      var i :| 0 <= i < |ColorMap| && c == ColorMap[i].1;
    }
  }

  /** A name containing "단호박식혜" is always gold. */
  lemma PumpkinGold(productName: string)
    requires Contains(productName, "단호박식혜")
    ensures ProductColor(productName) == "#FFD700"
  {
    ContainsLower(productName, "단호박식혜");
    FirstColorIndex(ColorMap, Lower(productName), 0);
  }

  /** The brown of plain 식혜 never goes to a name that mentions 단호박. */
  lemma NoBrownForPumpkin(productName: string)
    requires Contains(productName, "단호박")
    ensures ProductColor(productName) != "#654321"
  {
    ContainsLower(productName, "단호박");
    NoBrownIn(Lower(productName));
  }

  lemma NoBrownIn(name: string)
    requires Contains(name, "단호박")
    ensures FirstColor(ColorMap, name) != "#654321"
  {
    var t := ColorMap;
    if Hit(t[0].0, name) {
      FirstColorIndex(t, name, 0);
    } else if Hit(t[1].0, name) {
      FirstColorIndex(t, name, 1);
    } else if Hit(t[3].0, name) {
      FirstColorIndex(t, name, 3);
    } else if Hit(t[4].0, name) {
      FirstColorIndex(t, name, 4);
    } else {
      assert !Hit(t[2].0, name);
      FirstColorNone(t, name);
    }
  }

  /** 수정과 is tested before 식혜: a name with both, and without 단호박식혜, is tan. */
  lemma SujeonggwaFirst(productName: string)
    requires Contains(productName, "수정과") && !Contains(productName, "단호박식혜")
    ensures ProductColor(productName) == "#D2B48C"
  {
    ContainsLower(productName, "수정과");
    ContainsLower(productName, "단호박식혜");
    FirstColorIndex(ColorMap, Lower(productName), 1);
  }

  /** Plain 식혜: brown when the name has 식혜 but neither 단호박 nor 수정과. */
  lemma SikhyeBrown(productName: string)
    requires Contains(productName, "식혜") && !Contains(productName, "단호박") && !Contains(productName, "수정과")
    ensures ProductColor(productName) == "#654321"
  {
    var name := Lower(productName);
    ContainsLower(productName, "식혜");
    ContainsLower(productName, "단호박");
    ContainsLower(productName, "수정과");
    ContainsLower(productName, "단호박식혜");
    if Contains(name, "단호박식혜") {
      ContainsTrans(name, "단호박식혜", "단호박");
    }
    FirstColorIndex(ColorMap, name, 2);
  }

  /** A name with none of the keywords is grey. */
  lemma DefaultGrey(productName: string)
    requires !Contains(productName, "단호박식혜") && !Contains(productName, "수정과") && !Contains(productName, "식혜")
    requires !Contains(productName, "쌀요거트") && !Contains(productName, "플레인")
    ensures ProductColor(productName) == Default
  {
    ContainsLower(productName, "단호박식혜");
    ContainsLower(productName, "수정과");
    ContainsLower(productName, "식혜");
    ContainsLower(productName, "쌀요거트");
    ContainsLower(productName, "플레인");
    FirstColorNone(ColorMap, Lower(productName));
  }
}
