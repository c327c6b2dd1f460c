/**
 * Product classification from free text (`extract_product_from_option`,
 * `extract_product_from_name` and the option-first choice between them).
 * Both classifiers lower-case the text and then test Korean keywords in a
 * fixed priority order.
 */
module Classify {
  import opened Wrappers
  import opened Text

  datatype Category = Pumpkin | Sikhye | Sujeonggwa | RiceYogurt | Other {
    /** The category name used in product keys. */
    function Label(): string
    {
      match this
      case Pumpkin => "단호박식혜"
      case Sikhye => "식혜"
      case Sujeonggwa => "수정과"
      case RiceYogurt => "플레인 쌀요거트"
      case Other => "기타"
    }
  }

  /** `extract_product_from_option`: a missing cell is "기타"; otherwise the first keyword test that succeeds decides. */
  function FromOption(optionText: Option<string>): Category
  {
    match optionText
    case None => Other
    case Some(raw) =>
      var t := Lower(raw);
      if Contains(t, "단호박식혜") then Pumpkin
      else if Contains(t, "일반식혜") || (Contains(t, "식혜") && !Contains(t, "단호박")) then Sikhye
      else if Contains(t, "수정과") then Sujeonggwa
      else if Contains(t, "쌀요거트") || Contains(t, "요거트") || Contains(t, "플레인") then RiceYogurt
      else Other
  }

  /** The stripped group of `\[서로\s+([^\]]+)\]` when a match starts at the beginning of `t`. */
  function BracketAt(t: string): Option<string>
  {
    StartsWithIff(t, "[서로");
    if !StartsWith(t, "[서로") then None
    else
      var u := t[3..];
      var e := RunUntil(u, ']');
      if e == |u| then None
      else
        var seg := u[..e];
        if |seg| >= 2 && IsSpace(seg[0]) then
          var g := SpaceRun(seg);
          Some(Strip(if g == |seg| then seg[|seg| - 1..] else seg[g..]))
        else None
  }

  /** `re.search` of the bracket pattern: the leftmost start position that matches. */
  function BracketSearch(t: string): Option<string>
    decreases |t|
  {
    if BracketAt(t).Some? then BracketAt(t)
    else if t == [] then None
    else BracketSearch(t[1..])
  }

  /** The keyword tests applied to the bracket content. */
  function BracketCategory(key: string): Category
  {
    if Contains(key, "단호박식혜") then Pumpkin
    else if Contains(key, "진하고 깊은 식혜") || Contains(key, "식혜") then Sikhye
    else if Contains(key, "수정과") then Sujeonggwa
    else if Contains(key, "쌀요거트") then RiceYogurt
    else Other
  }

  /** `extract_product_from_name`: the `[서로 X]` content first, then only the yogurt words on the whole name. */
  function FromName(productName: Option<string>): Category
  {
    match productName
    case None => Other
    case Some(raw) =>
      var t := Lower(raw);
      var inBracket := match BracketSearch(t) case None => Other case Some(key) => BracketCategory(key);
      if inBracket != Other then inBracket
      else if Contains(t, "쌀요거트") || Contains(t, "요거트") || Contains(t, "플레인") then RiceYogurt
      else Other
  }

  /** `option_product if option_product != "기타" else name_product`. */
  function Final(optionText: Option<string>, productName: Option<string>): (c: Category)
    ensures c == Other <==> FromOption(optionText) == Other && FromName(productName) == Other
    ensures FromOption(optionText) != Other ==> c == FromOption(optionText)
  {
    var fromOption := FromOption(optionText);
    if fromOption != Other then fromOption else FromName(productName)
  }

  /** None of the keywords contains an ASCII letter, so lower-casing never changes a keyword test. */
  lemma KeywordsUnaffectedByLower(raw: string)
    ensures Contains(Lower(raw), "단호박식혜") <==> Contains(raw, "단호박식혜")
    ensures Contains(Lower(raw), "일반식혜") <==> Contains(raw, "일반식혜")
    ensures Contains(Lower(raw), "식혜") <==> Contains(raw, "식혜")
    ensures Contains(Lower(raw), "단호박") <==> Contains(raw, "단호박")
    ensures Contains(Lower(raw), "수정과") <==> Contains(raw, "수정과")
    ensures Contains(Lower(raw), "쌀요거트") <==> Contains(raw, "쌀요거트")
    ensures Contains(Lower(raw), "요거트") <==> Contains(raw, "요거트")
    ensures Contains(Lower(raw), "플레인") <==> Contains(raw, "플레인")
    ensures Contains(Lower(raw), "[서로") <==> Contains(raw, "[서로")
  {
    SikhyeKeywordsUnaffected(raw);
    OtherKeywordsUnaffected(raw);
  }

  lemma SikhyeKeywordsUnaffected(raw: string)
    ensures Contains(Lower(raw), "단호박식혜") <==> Contains(raw, "단호박식혜")
    ensures Contains(Lower(raw), "일반식혜") <==> Contains(raw, "일반식혜")
    ensures Contains(Lower(raw), "식혜") <==> Contains(raw, "식혜")
    ensures Contains(Lower(raw), "단호박") <==> Contains(raw, "단호박")
  {
    ContainsLower(raw, "단호박식혜");
    ContainsLower(raw, "일반식혜");
    ContainsLower(raw, "식혜");
    ContainsLower(raw, "단호박");
  }

  lemma OtherKeywordsUnaffected(raw: string)
    ensures Contains(Lower(raw), "수정과") <==> Contains(raw, "수정과")
    ensures Contains(Lower(raw), "쌀요거트") <==> Contains(raw, "쌀요거트")
    ensures Contains(Lower(raw), "요거트") <==> Contains(raw, "요거트")
    ensures Contains(Lower(raw), "플레인") <==> Contains(raw, "플레인")
    ensures Contains(Lower(raw), "[서로") <==> Contains(raw, "[서로")
  {
    ContainsLower(raw, "수정과");
    ContainsLower(raw, "쌀요거트");
    ContainsLower(raw, "요거트");
    ContainsLower(raw, "플레인");
    ContainsLower(raw, "[서로");
  }

  /** Compound keywords contain their parts. */
  lemma KeywordParts(raw: string)
    ensures Contains(raw, "단호박식혜") ==> Contains(raw, "단호박") && Contains(raw, "식혜")
    ensures Contains(raw, "일반식혜") ==> Contains(raw, "식혜")
    ensures Contains(raw, "쌀요거트") ==> Contains(raw, "요거트")
  {
    assert Contains("단호박식혜", "단호박") && Contains("단호박식혜", "식혜");
    assert Contains("일반식혜", "식혜") && Contains("쌀요거트", "요거트");
    if Contains(raw, "단호박식혜") {
      ContainsTrans(raw, "단호박식혜", "단호박");
      ContainsTrans(raw, "단호박식혜", "식혜");
    }
    if Contains(raw, "일반식혜") {
      ContainsTrans(raw, "일반식혜", "식혜");
    }
    if Contains(raw, "쌀요거트") {
      ContainsTrans(raw, "쌀요거트", "요거트");
    }
  }

  /** "단호박식혜" anywhere wins, although the text then also contains "식혜". */
  lemma OptionPumpkinWins(raw: string)
    requires Contains(raw, "단호박식혜")
    ensures FromOption(Some(raw)) == Pumpkin
    ensures Contains(raw, "식혜")
  {
    KeywordsUnaffectedByLower(raw);
    KeywordParts(raw);
  }

  /** "식혜" is chosen exactly when there is no "단호박식혜" and either "일반식혜" or a "식혜" without any "단호박". */
  lemma OptionSikhyeIff(raw: string)
    ensures FromOption(Some(raw)) == Sikhye <==>
      !Contains(raw, "단호박식혜") &&
      (Contains(raw, "일반식혜") || (Contains(raw, "식혜") && !Contains(raw, "단호박")))
    ensures FromOption(Some(raw)) == Sikhye ==> Contains(raw, "식혜")
  {
    KeywordsUnaffectedByLower(raw);
    KeywordParts(raw);
  }

  /** A "식혜" without "단호박" is "식혜" whatever else the text says: the test runs before "수정과" and the yogurt words. */
  lemma OptionSikhyeBeforeOthers(raw: string)
    requires Contains(raw, "식혜") && !Contains(raw, "단호박")
    ensures FromOption(Some(raw)) == Sikhye
  {
    KeywordsUnaffectedByLower(raw);
    KeywordParts(raw);
  }

  /** "기타" exactly when no test succeeds. */
  lemma OptionOtherIff(raw: string)
    ensures FromOption(Some(raw)) == Other <==>
      !Contains(raw, "단호박식혜") && !Contains(raw, "일반식혜") &&
      !(Contains(raw, "식혜") && !Contains(raw, "단호박")) &&
      !Contains(raw, "수정과") && !Contains(raw, "요거트") && !Contains(raw, "플레인")
    ensures !Contains(raw, "식혜") && !Contains(raw, "수정과") && !Contains(raw, "요거트") && !Contains(raw, "플레인")
      ==> FromOption(Some(raw)) == Other
  {
    KeywordsUnaffectedByLower(raw);
    KeywordParts(raw);
  }

  /** A bracket match is only found where the text contains "[서로". */
  lemma {:induction false} BracketNeedsTag(t: string)
    ensures BracketSearch(t).Some? ==> Contains(t, "[서로")
    decreases |t|
  {
    if BracketAt(t).None? && t != [] {
      BracketNeedsTag(t[1..]);
    }
  }

  /** On "[서로 X]…", with X not starting with a space and free of "]", the scanner returns X stripped. */
  lemma BracketAtForm(x: string, s: string)
    requires |x| >= 1 && !IsSpace(x[0])
    requires forall i :: 0 <= i < |x| ==> x[i] != ']'
    ensures BracketAt("[서로 " + x + "]" + s) == Some(Strip(x))
  {
    var t := "[서로 " + x + "]" + s;
    assert t[..3] == "[서로";
    StartsWithIff(t, "[서로");
    var u := t[3..];
    assert u == " " + x + "]" + s;
    assert u[|x| + 1] == ']';
    assert forall i :: 0 <= i < |x| + 1 ==> u[i] != ']' by {
      forall i | 0 <= i < |x| + 1 ensures u[i] != ']' {
        if i > 0 { assert u[i] == x[i - 1]; }
      }
    }
    RunUntilAt(u, ']', |x| + 1);
    var seg := u[..|x| + 1];
    assert seg == " " + x;
    SpaceRunPrefix(" ", x);
    assert seg[1..] == x;
  }

  /**
   * A product name that starts with a bracket tag "[서로 X]" (X free of
   * upper-case letters) is classified by the stripped X whenever X names a
   * category.
   */
  lemma NameBracketForm(x: string, s: string)
    requires |x| >= 1 && !IsSpace(x[0])
    requires forall i :: 0 <= i < |x| ==> x[i] != ']' && !('A' <= x[i] <= 'Z')
    ensures BracketSearch(Lower("[서로 " + x + "]" + s)) == Some(Strip(x))
    ensures BracketCategory(Strip(x)) != Other ==> FromName(Some("[서로 " + x + "]" + s)) == BracketCategory(Strip(x))
  {
    var p := "[서로 " + x + "]";
    LowerConcat(p, s);
    LowerNoUpper(p);
    assert "[서로 " + x + "]" + s == p + s;
    assert Lower(p + s) == "[서로 " + x + "]" + Lower(s);
    BracketAtForm(x, Lower(s));
  }

  /** "[서로 단호박식혜] 1L" is 단호박식혜. */
  lemma ExampleNameBracket()
    ensures FromName(Some("[서로 단호박식혜] 1L")) == Pumpkin
  {
    var x := "단호박식혜";
    assert "[서로 단호박식혜] 1L" == "[서로 " + x + "]" + " 1L";
    NameBracketForm(x, " 1L");
    StripExample();
    assert BracketCategory(x) == Pumpkin by {
      assert StartsWith(x, x) by { StartsWithIff(x, x); }
    }
  }

  lemma StripExample()
    ensures Strip("단호박식혜") == "단호박식혜"
  {
    var x := "단호박식혜";
    assert SpaceRun(x) == 0;
    assert x[0..] == x;
  }

  /** Only a `[서로 …]` tag can make a product name 단호박식혜, 식혜 or 수정과. */
  lemma NameNeedsTag(raw: string)
    ensures FromName(Some(raw)) in {Pumpkin, Sikhye, Sujeonggwa} ==> Contains(raw, "[서로")
  {
    BracketNeedsTag(Lower(raw));
    KeywordsUnaffectedByLower(raw);
  }

  /** Outside a `[서로 …]` bracket only the yogurt words are recognised: a name with neither yields "기타". */
  lemma NameWithoutBracket(raw: string)
    requires !Contains(raw, "[서로") && !Contains(raw, "요거트") && !Contains(raw, "플레인")
    ensures FromName(Some(raw)) == Other
  {
    KeywordsUnaffectedByLower(raw);
    KeywordParts(raw);
    if BracketSearch(Lower(raw)).Some? {
      BracketNeedsTag(Lower(raw));
    }
  }

  /** The bracket content is tested before the whole name. */
  lemma NameBracketFirst(raw: string, key: string)
    requires BracketSearch(Lower(raw)) == Some(key) && BracketCategory(key) != Other
    ensures FromName(Some(raw)) == BracketCategory(key)
  {
  }

  /** "단호박식혜 240ml" is 단호박식혜 although it also contains "식혜". */
  lemma ExamplePumpkin()
    ensures FromOption(Some("단호박식혜 240ml")) == Pumpkin
  {
    assert Contains("단호박식혜 240ml", "단호박식혜");
    OptionPumpkinWins("단호박식혜 240ml");
  }

  /** A bracketless name that mentions only 식혜 is "기타". */
  lemma ExampleNameSikhyeOnly()
    ensures FromName(Some("진하고 깊은 식혜 1L")) == Other
  {
    var name := "진하고 깊은 식혜 1L";
    assert '[' !in name && '요' !in name && '플' !in name;
    if Contains(name, "[서로") { ContainsChars(name, "[서로", 0); }
    if Contains(name, "요거트") { ContainsChars(name, "요거트", 0); }
    if Contains(name, "플레인") { ContainsChars(name, "플레인", 0); }
    NameWithoutBracket("진하고 깊은 식혜 1L");
  }
}
