/**
 * `parse_option_info`: the bottle count and the capacity token of an option
 * text. `parse_option_info` tries five regular expressions with `re.search`, in a
 * fixed order, and returns on the first that finds a match. Each is written
 * here as a scanner `MatchAt(p, t)` that says whether pattern `p` matches at
 * the start of the text `t`; `Search` tries every start position from the
 * left, as `re.search` does.
 *
 * The capacity token `\d+(?:\.\d+)?(?:ml|L)` is case-sensitive (no IGNORECASE
 * flag): only "ml" and "L" end it. Greedy matching of this token never needs
 * to backtrack (after a shorter digit run the next character is a digit,
 * which neither ".", "m" nor "L" is), so the scanner is deterministic.
 */
module OptionParse {
  import opened Wrappers
  import opened Text

  /** The pair `(quantity, capacity)` that `parse_option_info` returns. */
  datatype OptionInfo = OptionInfo(multiplier: int, capacity: string)

  /** The five patterns, in the order `parse_option_info` tries them. */
  datatype Pattern =
    | CountComma     // (\d+)개,\s*(CAP)         "5개, 240ml"
    | BareComma      // (\d+),\s*(CAP)           "2, 1L"
    | LabelledBottle // 용량\s*:\s*(CAP)\s*(\d+)병  "용량 : 1L 2병"
    | Bottle         // (CAP)\s*(\d+)병           "500ml 3병"
    | CapacityOnly   // (CAP)                    "플레인 쌀요거트 1L"

  /** Length of the unit `ml|L` at the start of `t`, 0 if none. */
  function UnitLen(t: string): (n: nat)
    ensures n <= |t|
  {
    if |t| >= 2 && t[0] == 'm' && t[1] == 'l' then 2
    else if |t| >= 1 && t[0] == 'L' then 1
    else 0
  }

  /** Characters a capacity token is made of. */
  predicate CapChar(c: char)
  {
    IsDigit(c) || c == '.' || c == 'm' || c == 'l' || c == 'L'
  }

  /** Length of the capacity token `\d+(?:\.\d+)?(?:ml|L)` at the start of `t`, 0 if none. */
  function CapLen(t: string): (n: nat)
    ensures n <= |t|
    ensures n > 0 ==> IsDigit(t[0])
    ensures forall i :: 0 <= i < n ==> CapChar(t[i])
  {
    var d := DigitRun(t);
    if d == 0 then 0
    else
      var frac := t[d..];
      var f := if |frac| > 0 && frac[0] == '.' then DigitRun(frac[1..]) else 0;
      if f > 0 && UnitLen(frac[1 + f..]) > 0 then d + 1 + f + UnitLen(frac[1 + f..])
      else if UnitLen(frac) > 0 then d + UnitLen(frac)
      else 0
  }

  /** `\s*(CAP)` at the start of `u`: the token after any whitespace. */
  function SpacedCap(u: string): (r: Option<string>)
  {
    var x := u[SpaceRun(u)..];
    var c := CapLen(x);
    if c > 0 then Some(x[..c]) else None
  }

  /** `\s*(\d+)병` at the start of `y`: the bottle count after any whitespace. */
  function SpacedBottles(y: string): (r: Option<nat>)
  {
    var z := y[SpaceRun(y)..];
    var d := DigitRun(z);
    if d > 0 && d < |z| && z[d] == '병' then Some(DigitsValue(z[..d])) else None
  }

  /** `(\d+)개,\s*(CAP)` at the start of `t`. */
  function MatchCountComma(t: string): (r: Option<OptionInfo>)
  {
    var d := DigitRun(t);
    if d > 0 && d + 1 < |t| && t[d] == '개' && t[d + 1] == ',' && SpacedCap(t[d + 2..]).Some? then
      Some(OptionInfo(DigitsValue(t[..d]), SpacedCap(t[d + 2..]).value))
    else None
  }

  /** `(\d+),\s*(CAP)` at the start of `t`. */
  function MatchBareComma(t: string): (r: Option<OptionInfo>)
  {
    var d := DigitRun(t);
    if d > 0 && d < |t| && t[d] == ',' && SpacedCap(t[d + 1..]).Some? then
      Some(OptionInfo(DigitsValue(t[..d]), SpacedCap(t[d + 1..]).value))
    else None
  }

  /** Where `(CAP)` would start after a leading `용량\s*:\s*`, if `t` begins that way. */
  function LabelledStart(t: string): (k: Option<nat>)
    ensures k.Some? ==> k.value <= |t|
  {
    if |t| >= 2 && t[0] == '용' && t[1] == '량' then
      var w := SpaceRun(t[2..]);
      if 2 + w < |t| && t[2 + w] == ':' then Some(3 + w + SpaceRun(t[3 + w..])) else None
    else None
  }

  /** `용량\s*:\s*(CAP)\s*(\d+)병` at the start of `t`. */
  function MatchLabelledBottle(t: string): (r: Option<OptionInfo>)
  {
    match LabelledStart(t)
    case Some(k) => MatchBottle(t[k..])
    case None => None
  }

  /** `(CAP)\s*(\d+)병` at the start of `t`. */
  function MatchBottle(t: string): (r: Option<OptionInfo>)
  {
    var c := CapLen(t);
    if c > 0 && SpacedBottles(t[c..]).Some? then Some(OptionInfo(SpacedBottles(t[c..]).value, t[..c])) else None
  }

  /** `(CAP)` at the start of `t`, with count 1. */
  function MatchCapacityOnly(t: string): (r: Option<OptionInfo>)
  {
    var c := CapLen(t);
    if c > 0 then Some(OptionInfo(1, t[..c])) else None
  }

  /** The match of pattern `p` at the start of `t`, if any. */
  function MatchAt(p: Pattern, t: string): (r: Option<OptionInfo>)
  {
    match p
    case CountComma => MatchCountComma(t)
    case BareComma => MatchBareComma(t)
    case LabelledBottle => MatchLabelledBottle(t)
    case Bottle => MatchBottle(t)
    case CapacityOnly => MatchCapacityOnly(t)
  }

  /** `re.search`: the match at the leftmost start position. */
  function Search(p: Pattern, t: string): Option<OptionInfo>
    decreases |t|
  {
    if MatchAt(p, t).Some? then MatchAt(p, t)
    else if t == [] then None
    else Search(p, t[1..])
  }

  /** `parse_option_info`: a missing cell gives (1, ""); otherwise the first pattern that matches, else (1, ""). */
  function ParseOptionInfo(optionText: Option<string>): OptionInfo
  {
    match optionText
    case None => OptionInfo(1, "")
    case Some(t) =>
      if Search(CountComma, t).Some? then Search(CountComma, t).value
      else if Search(BareComma, t).Some? then Search(BareComma, t).value
      else if Search(LabelledBottle, t).Some? then Search(LabelledBottle, t).value
      else if Search(Bottle, t).Some? then Search(Bottle, t).value
      else if Search(CapacityOnly, t).Some? then Search(CapacityOnly, t).value
      else OptionInfo(1, "")
  }

  /** A capacity token is a non-empty text of capacity characters starting with a digit. */
  predicate IsCapToken(c: string)
  {
    |c| > 0 && IsDigit(c[0]) && forall i :: 0 <= i < |c| ==> CapChar(c[i])
  }

  /** A capacity token starting at position `k` of `t` (where `x` is the rest of `t`) occurs in `t`. */
  lemma TokenAt(t: string, k: nat, x: string)
    requires k <= |t| && x == t[k..] && CapLen(x) > 0
    ensures IsCapToken(x[..CapLen(x)])
    ensures Contains(t, x[..CapLen(x)])
    ensures exists k' :: 0 <= k' <= |t| && CapLen(t[k'..]) > 0
  {
    var tok := x[..CapLen(x)];
    assert t[k..k + |tok|] == tok;
    ContainsAt(t, tok, k);
  }

  /** The token found by `SpacedCap(t[j..])` occurs in `t` at a token start. */
  lemma SpacedCapShape(t: string, j: nat)
    requires j <= |t| && SpacedCap(t[j..]).Some?
    ensures IsCapToken(SpacedCap(t[j..]).value)
    ensures Contains(t, SpacedCap(t[j..]).value)
    ensures exists k :: 0 <= k <= |t| && CapLen(t[k..]) > 0
  {
    var u := t[j..];
    var w := SpaceRun(u);
    DropDrop(t, j, w);
    TokenAt(t, j + w, u[w..]);
  }

  lemma DropDrop(t: string, j: nat, w: nat)
    requires j + w <= |t|
    ensures t[j..][w..] == t[j + w..]
  {
  }

  /** What every match yields: a capacity token found in the text, and a non-negative count. */
  ghost predicate GoodMatch(t: string, r: OptionInfo)
  {
    && IsCapToken(r.capacity)
    && Contains(t, r.capacity)
    && r.multiplier >= 0
    && exists k :: 0 <= k <= |t| && CapLen(t[k..]) > 0
  }

  lemma CountCommaShape(t: string)
    requires MatchCountComma(t).Some?
    ensures GoodMatch(t, MatchCountComma(t).value)
  {
    SpacedCapShape(t, DigitRun(t) + 2);
  }

  lemma BareCommaShape(t: string)
    requires MatchBareComma(t).Some?
    ensures GoodMatch(t, MatchBareComma(t).value)
  {
    SpacedCapShape(t, DigitRun(t) + 1);
  }

  lemma BottleShape(t: string)
    requires MatchBottle(t).Some?
    ensures GoodMatch(t, MatchBottle(t).value)
  {
    TokenAt(t, 0, t);
  }

  lemma LabelledBottleShape(t: string)
    requires MatchLabelledBottle(t).Some?
    ensures GoodMatch(t, MatchLabelledBottle(t).value)
  {
    var k := LabelledStart(t).value;
    TokenAt(t, k, t[k..]);
  }

  lemma CapacityOnlyShape(t: string)
    requires MatchCapacityOnly(t).Some?
    ensures GoodMatch(t, MatchCapacityOnly(t).value)
  {
    TokenAt(t, 0, t);
  }

  /** A single match yields a capacity token found in the text, and a non-negative count. */
  lemma MatchAtShape(p: Pattern, t: string)
    requires MatchAt(p, t).Some?
    ensures GoodMatch(t, MatchAt(p, t).value)
  {
    match p
    case CountComma => CountCommaShape(t);
    case BareComma => BareCommaShape(t);
    case LabelledBottle => LabelledBottleShape(t);
    case Bottle => BottleShape(t);
    case CapacityOnly => CapacityOnlyShape(t);
  }

  /** Every search hit is a good match for the whole text. */
  lemma {:induction false} SearchShape(p: Pattern, t: string)
    requires Search(p, t).Some?
    ensures GoodMatch(t, Search(p, t).value)
    decreases |t|
  {
    if MatchAt(p, t).Some? {
      MatchAtShape(p, t);
    } else {
      SearchShape(p, t[1..]);
      ContainsSuffix(t, 1, Search(p, t).value.capacity);
      var k :| 0 <= k <= |t[1..]| && CapLen(t[1..][k..]) > 0;
      assert t[1..][k..] == t[k + 1..];
    }
  }

  /** The capacity returned is "" or a capacity token that occurs in the input; no capacity means count 1. */
  lemma ParseShape(optionText: Option<string>)
    ensures var r := ParseOptionInfo(optionText);
      && r.multiplier >= 0
      && (r.capacity == "" || (optionText.Some? && IsCapToken(r.capacity) && Contains(optionText.value, r.capacity)))
      && (r.capacity == "" ==> r.multiplier == 1)
  {
    if optionText.Some? {
      var t := optionText.value;
      if Search(CountComma, t).Some? { SearchShape(CountComma, t); }
      else if Search(BareComma, t).Some? { SearchShape(BareComma, t); }
      else if Search(LabelledBottle, t).Some? { SearchShape(LabelledBottle, t); }
      else if Search(Bottle, t).Some? { SearchShape(Bottle, t); }
      else if Search(CapacityOnly, t).Some? { SearchShape(CapacityOnly, t); }
    }
  }

  /** Text in which no position starts a capacity token gives (1, ""). */
  lemma NoCapacityToken(t: string)
    requires forall k :: 0 <= k <= |t| ==> CapLen(t[k..]) == 0
    ensures ParseOptionInfo(Some(t)) == OptionInfo(1, "")
  {
    if Search(CountComma, t).Some? { SearchShape(CountComma, t); }
    if Search(BareComma, t).Some? { SearchShape(BareComma, t); }
    if Search(LabelledBottle, t).Some? { SearchShape(LabelledBottle, t); }
    if Search(Bottle, t).Some? { SearchShape(Bottle, t); }
    if Search(CapacityOnly, t).Some? { SearchShape(CapacityOnly, t); }
  }

  /** The characters each pattern cannot match without. */
  function Anchor(p: Pattern): char
  {
    match p
    case CountComma => '개'
    case BareComma => ','
    case LabelledBottle => '용'
    case Bottle => '병'
    case CapacityOnly => '0'
  }

  /** Every pattern but the bare capacity needs its anchor character in the text. */
  lemma MatchAtAnchor(p: Pattern, t: string)
    requires p != CapacityOnly && MatchAt(p, t).Some?
    ensures Anchor(p) in t
  {
    match p
    case CountComma => assert t[DigitRun(t)] == '개';
    case BareComma => assert t[DigitRun(t)] == ',';
    case LabelledBottle => assert t[0] == '용';
    case Bottle =>
      var y := t[CapLen(t)..];
      var z := y[SpaceRun(y)..];
      assert z[DigitRun(z)] == '병';
      assert z[DigitRun(z)] == t[CapLen(t) + SpaceRun(y) + DigitRun(z)];
  }

  lemma {:induction false} SearchAnchor(p: Pattern, t: string)
    requires p != CapacityOnly && Search(p, t).Some?
    ensures Anchor(p) in t
    decreases |t|
  {
    if MatchAt(p, t).Some? {
      MatchAtAnchor(p, t);
    } else {
      SearchAnchor(p, t[1..]);
      assert Anchor(p) in t[1..];
    }
  }

  /** All patterns but the labelled one start with a digit. */
  lemma MatchAtDigit(p: Pattern, t: string)
    requires p != LabelledBottle && MatchAt(p, t).Some?
    ensures |t| > 0 && IsDigit(t[0])
  {
  }

  /** `re.search` passes over a prefix without digits for the patterns that start with a digit. */
  lemma {:induction false} SearchSkip(p: Pattern, pre: string, t: string)
    requires p != LabelledBottle
    requires forall i :: 0 <= i < |pre| ==> !IsDigit(pre[i])
    ensures Search(p, pre + t) == Search(p, t)
    decreases |pre|
  {
    if pre == [] {
      assert pre + t == t;
    } else {
      if MatchAt(p, pre + t).Some? {
        MatchAtDigit(p, pre + t);
        assert false;
      }
      assert (pre + t)[1..] == pre[1..] + t;
      SearchSkip(p, pre[1..], t);
    }
  }

  /** A capacity token written out: digits, an optional fraction, and the unit `ml` or `L`. */
  function Token(ds: string, fs: string, unit: string): string
  {
    if fs == [] then ds + unit else ds + "." + fs + unit
  }

  predicate TokenParts(ds: string, fs: string, unit: string)
  {
    |ds| > 0 && AllDigits(ds) && AllDigits(fs) && (unit == "ml" || unit == "L")
  }

  lemma UnitLenOf(unit: string, rest: string)
    requires unit == "ml" || unit == "L"
    ensures UnitLen(unit + rest) == |unit|
  {
    assert (unit + rest)[0] == unit[0];
    if unit == "ml" { assert (unit + rest)[1] == 'l'; }
  }

  /** An integer token `D unit`: the scanner stops right after the unit. */
  lemma CapLenPlain(ds: string, unit: string, rest: string)
    requires |ds| > 0 && AllDigits(ds) && (unit == "ml" || unit == "L")
    ensures CapLen(ds + unit + rest) == |ds| + |unit|
  {
    var t := ds + unit + rest;
    assert t == ds + (unit + rest);
    assert (unit + rest)[0] == unit[0];
    DigitRunPrefix(ds, unit + rest);
    var frac := t[|ds|..];
    assert frac == unit + rest;
    UnitLenOf(unit, rest);
  }

  /** A decimal token `D.F unit`: the scanner takes the fraction and the unit. */
  lemma CapLenFrac(ds: string, fs: string, unit: string, rest: string)
    requires |ds| > 0 && AllDigits(ds) && |fs| > 0 && AllDigits(fs) && (unit == "ml" || unit == "L")
    ensures CapLen(ds + "." + fs + unit + rest) == |ds| + 1 + |fs| + |unit|
  {
    var t := ds + "." + fs + unit + rest;
    var tail := unit + rest;
    assert tail[0] == unit[0];
    assert t == ds + ("." + (fs + tail));
    DigitRunPrefix(ds, "." + (fs + tail));
    var frac := t[|ds|..];
    assert frac == "." + (fs + tail);
    assert frac[1..] == fs + tail;
    DigitRunPrefix(fs, tail);
    assert frac[1..][|fs|..] == tail;
    assert frac[1 + |fs|..] == tail;
    UnitLenOf(unit, rest);
  }

  /** The capacity scanner takes exactly a written-out token, whatever follows it. */
  lemma CapLenToken(ds: string, fs: string, unit: string, rest: string)
    requires TokenParts(ds, fs, unit)
    ensures CapLen(Token(ds, fs, unit) + rest) == |Token(ds, fs, unit)|
    ensures (Token(ds, fs, unit) + rest)[..|Token(ds, fs, unit)|] == Token(ds, fs, unit)
    ensures IsCapToken(Token(ds, fs, unit))
  {
    if fs == [] {
      CapLenPlain(ds, unit, rest);
    } else {
      CapLenFrac(ds, fs, unit, rest);
    }
    var t := Token(ds, fs, unit);
    assert (t + rest)[..|t|] == t;
    assert t[..|t|] == t;
    assert CapLen(t + rest) == |t|;
  }

  /** A token has none of the anchor characters of the other patterns. */
  lemma TokenChars(cap: string)
    requires IsCapToken(cap)
    ensures '개' !in cap && ',' !in cap && '용' !in cap && '병' !in cap
  {
  }

  /** `\s*(CAP)` takes the spaces and then exactly the token. */
  lemma SpacedCapOf(sp: string, ds: string, fs: string, unit: string, rest: string)
    requires AllSpace(sp) && TokenParts(ds, fs, unit)
    ensures SpacedCap(sp + Token(ds, fs, unit) + rest) == Some(Token(ds, fs, unit))
  {
    var cap := Token(ds, fs, unit);
    var u := sp + cap + rest;
    assert u == sp + (cap + rest);
    assert (cap + rest)[0] == ds[0];
    SpaceRunPrefix(sp, cap + rest);
    assert u[|sp|..] == cap + rest;
    CapLenToken(ds, fs, unit, rest);
  }

  /** `(\d+)` takes exactly the decimal digits of `n` when a non-digit follows. */
  lemma DecimalPrefix(n: nat, rest: string)
    requires rest == [] || !IsDigit(rest[0])
    ensures DigitRun(Decimal(n) + rest) == |Decimal(n)|
    ensures (Decimal(n) + rest)[..|Decimal(n)|] == Decimal(n)
    ensures DigitsValue(Decimal(n)) == n
  {
    DigitRunPrefix(Decimal(n), rest);
    DecimalRoundTrip(n);
    assert (Decimal(n) + rest)[..|Decimal(n)|] == Decimal(n);
  }

  /** `(\d+)개,` followed by text `u` whose `\s*(CAP)` matches. */
  lemma CountCommaParts(num: string, u: string)
    requires |num| > 0 && AllDigits(num) && SpacedCap(u).Some?
    ensures MatchCountComma(num + "개," + u) == Some(OptionInfo(DigitsValue(num), SpacedCap(u).value))
  {
    var t := num + "개," + u;
    var after := "개," + u;
    assert t == num + after;
    DigitRunPrefix(num, after);
    var d := |num|;
    assert t[d] == '개' && t[d + 1] == ',';
    assert t[d + 2..] == u;
    assert t[..d] == num;
  }

  /** Format "N개, CAP": the first pattern matches at the start. */
  lemma CountCommaMatch(n: nat, sp: string, ds: string, fs: string, unit: string, rest: string)
    requires AllSpace(sp) && TokenParts(ds, fs, unit)
    ensures MatchCountComma(Decimal(n) + "개," + sp + Token(ds, fs, unit) + rest)
         == Some(OptionInfo(n, Token(ds, fs, unit)))
  {
    var num, cap := Decimal(n), Token(ds, fs, unit);
    var u := sp + cap + rest;
    var t := num + "개," + sp + cap + rest;
    assert t == num + "개," + u;
    SpacedCapOf(sp, ds, fs, unit, rest);
    CountCommaParts(num, u);
    DecimalRoundTrip(n);
    assert MatchCountComma(t) == Some(OptionInfo(n, cap));
  }

  /** Format "N개, CAP": the count and the capacity come back, whatever follows. */
  lemma CountCommaFormat(n: nat, sp: string, ds: string, fs: string, unit: string, rest: string)
    requires AllSpace(sp) && TokenParts(ds, fs, unit)
    ensures ParseOptionInfo(Some(Decimal(n) + "개," + sp + Token(ds, fs, unit) + rest))
         == OptionInfo(n, Token(ds, fs, unit))
  {
    CountCommaMatch(n, sp, ds, fs, unit, rest);
  }

  /** Text free of every anchor character: no pattern but the bare capacity can match in it. */
  predicate NoAnchor(s: string)
  {
    '개' !in s && ',' !in s && '용' !in s && '병' !in s
  }

  lemma NoAnchorParts(ds: string, fs: string, unit: string, sp: string, n: nat)
    requires TokenParts(ds, fs, unit) && AllSpace(sp)
    ensures NoAnchor(Token(ds, fs, unit)) && NoAnchor(sp) && NoAnchor(Decimal(n))
  {
    CapLenToken(ds, fs, unit, []);
    TokenChars(Token(ds, fs, unit));
  }

  /** `(\d+),` followed by text `u` whose `\s*(CAP)` matches. */
  lemma BareCommaParts(num: string, u: string)
    requires |num| > 0 && AllDigits(num) && SpacedCap(u).Some?
    ensures MatchBareComma(num + "," + u) == Some(OptionInfo(DigitsValue(num), SpacedCap(u).value))
  {
    var t := num + "," + u;
    assert t == num + ("," + u);
    DigitRunPrefix(num, "," + u);
    assert t[|num|] == ',';
    assert t[|num| + 1..] == u;
    assert t[..|num|] == num;
  }

  /** Format "N, CAP": when nothing after it has the character 개, the count and capacity come back. */
  lemma BareCommaFormat(n: nat, sp: string, ds: string, fs: string, unit: string, rest: string)
    requires AllSpace(sp) && TokenParts(ds, fs, unit) && '개' !in rest
    ensures ParseOptionInfo(Some(Decimal(n) + "," + sp + Token(ds, fs, unit) + rest))
         == OptionInfo(n, Token(ds, fs, unit))
  {
    var num, cap := Decimal(n), Token(ds, fs, unit);
    var u := sp + cap + rest;
    var t := num + "," + sp + cap + rest;
    assert t == num + "," + u;
    SpacedCapOf(sp, ds, fs, unit, rest);
    BareCommaParts(num, u);
    DecimalRoundTrip(n);
    assert MatchBareComma(t) == Some(OptionInfo(n, cap));
    NoAnchorParts(ds, fs, unit, sp, n);
    assert '개' !in t;
    if Search(CountComma, t).Some? {
      SearchAnchor(CountComma, t);
    }
  }

  /** `\s*(\d+)병` takes the spaces, the digits and the character 병. */
  lemma SpacedBottlesOf(sp: string, num: string, rest: string)
    requires AllSpace(sp) && |num| > 0 && AllDigits(num)
    ensures SpacedBottles(sp + num + "병" + rest) == Some(DigitsValue(num))
  {
    var tail := num + ("병" + rest);
    var y := sp + num + "병" + rest;
    assert y == sp + tail;
    assert tail[0] == num[0];
    SpaceRunPrefix(sp, tail);
    assert y[|sp|..] == tail;
    DigitRunPrefix(num, "병" + rest);
    assert tail[|num|] == '병';
    assert tail[..|num|] == num;
  }

  /** `(CAP)\s*(\d+)병` for a written-out token and count. */
  lemma BottleMatch(ds: string, fs: string, unit: string, sp: string, m: nat, rest: string)
    requires TokenParts(ds, fs, unit) && AllSpace(sp)
    ensures MatchBottle(Token(ds, fs, unit) + sp + Decimal(m) + "병" + rest)
         == Some(OptionInfo(m, Token(ds, fs, unit)))
  {
    var cap, num := Token(ds, fs, unit), Decimal(m);
    var y := sp + num + "병" + rest;
    var t := cap + sp + num + "병" + rest;
    assert t == cap + y;
    CapLenToken(ds, fs, unit, y);
    assert t[|cap|..] == y;
    SpacedBottlesOf(sp, num, rest);
    DecimalRoundTrip(m);
    assert MatchBottle(t) == Some(OptionInfo(m, cap));
  }

  /** `용량\s*:\s*` followed by text `b` on which `(CAP)\s*(\d+)병` matches. */
  lemma LabelledParts(sp1: string, sp2: string, b: string)
    requires AllSpace(sp1) && AllSpace(sp2) && |b| > 0 && IsDigit(b[0])
    ensures MatchLabelledBottle("용량" + sp1 + ":" + sp2 + b) == MatchBottle(b)
  {
    var t := "용량" + sp1 + ":" + sp2 + b;
    var n1 := |sp1|;
    assert t[2..] == sp1 + (":" + sp2 + b);
    SpaceRunPrefix(sp1, ":" + sp2 + b);
    assert t[2 + n1] == ':';
    assert t[3 + n1..] == sp2 + b;
    SpaceRunPrefix(sp2, b);
    assert LabelledStart(t) == Some(3 + n1 + |sp2|);
    assert t[3 + n1 + |sp2|..] == b;
  }

  /** Format "용량 : CAP N병": the third pattern matches at the start. */
  lemma LabelledMatch(sp1: string, sp2: string, ds: string, fs: string, unit: string, sp3: string, m: nat, rest: string)
    requires AllSpace(sp1) && AllSpace(sp2) && AllSpace(sp3) && TokenParts(ds, fs, unit)
    ensures MatchLabelledBottle("용량" + sp1 + ":" + sp2 + Token(ds, fs, unit) + sp3 + Decimal(m) + "병" + rest)
         == Some(OptionInfo(m, Token(ds, fs, unit)))
  {
    var cap, num := Token(ds, fs, unit), Decimal(m);
    var h := "용량" + sp1 + ":" + sp2;
    var b := cap + sp3 + num + "병" + rest;
    var t := "용량" + sp1 + ":" + sp2 + cap + sp3 + num + "병" + rest;
    assert t == h + cap + sp3 + num + "병" + rest;
    assert t == h + b;
    assert b[0] == ds[0];
    LabelledParts(sp1, sp2, b);
    BottleMatch(ds, fs, unit, sp3, m, rest);
  }

  /** Without 개 or a comma, a labelled match at the start decides the result. */
  lemma ParseByLabelled(t: string)
    requires '개' !in t && ',' !in t && MatchLabelledBottle(t).Some?
    ensures ParseOptionInfo(Some(t)) == MatchLabelledBottle(t).value
  {
    if Search(CountComma, t).Some? { SearchAnchor(CountComma, t); }
    if Search(BareComma, t).Some? { SearchAnchor(BareComma, t); }
  }

  lemma LabelledNoComma(sp1: string, sp2: string, cap: string, sp3: string, num: string, rest: string)
    requires NoAnchor(sp1) && NoAnchor(sp2) && NoAnchor(cap) && NoAnchor(sp3) && NoAnchor(num)
    requires '개' !in rest && ',' !in rest
    ensures var t := "용량" + sp1 + ":" + sp2 + cap + sp3 + num + "병" + rest;
      '개' !in t && ',' !in t
  {
    var t1 := "용량" + sp1 + ":" + sp2;
    assert '개' !in t1 && ',' !in t1;
    var t2 := t1 + cap + sp3;
    assert '개' !in t2 && ',' !in t2;
  }

  /** Format "용량 : CAP N병": the count and the capacity come back when nothing after it has 개 or a comma. */
  lemma LabelledFormat(sp1: string, sp2: string, ds: string, fs: string, unit: string, sp3: string, m: nat, rest: string)
    requires AllSpace(sp1) && AllSpace(sp2) && AllSpace(sp3) && TokenParts(ds, fs, unit)
    requires '개' !in rest && ',' !in rest
    ensures ParseOptionInfo(Some("용량" + sp1 + ":" + sp2 + Token(ds, fs, unit) + sp3 + Decimal(m) + "병" + rest))
         == OptionInfo(m, Token(ds, fs, unit))
  {
    NoAnchorParts(ds, fs, unit, sp1, m);
    NoAnchorParts(ds, fs, unit, sp2, m);
    NoAnchorParts(ds, fs, unit, sp3, m);
    LabelledNoComma(sp1, sp2, Token(ds, fs, unit), sp3, Decimal(m), rest);
    LabelledMatch(sp1, sp2, ds, fs, unit, sp3, m, rest);
    ParseByLabelled("용량" + sp1 + ":" + sp2 + Token(ds, fs, unit) + sp3 + Decimal(m) + "병" + rest);
  }

  /** Format "CAP N병" after a text without digits: the count and the capacity come back. */
  lemma BottleFormat(pre: string, ds: string, fs: string, unit: string, sp: string, m: nat, rest: string)
    requires forall i :: 0 <= i < |pre| ==> !IsDigit(pre[i])
    requires TokenParts(ds, fs, unit) && AllSpace(sp)
    requires '개' !in pre + rest && ',' !in pre + rest && '용' !in pre + rest
    ensures ParseOptionInfo(Some(pre + Token(ds, fs, unit) + sp + Decimal(m) + "병" + rest))
         == OptionInfo(m, Token(ds, fs, unit))
  {
    var cap, num := Token(ds, fs, unit), Decimal(m);
    var b := cap + sp + num + "병" + rest;
    var t := pre + cap + sp + num + "병" + rest;
    assert t == pre + b;
    BottleMatch(ds, fs, unit, sp, m, rest);
    SearchSkip(Bottle, pre, b);
    NoAnchorParts(ds, fs, unit, sp, m);
    assert '개' !in t && ',' !in t && '용' !in t;
    if Search(CountComma, t).Some? { SearchAnchor(CountComma, t); }
    if Search(BareComma, t).Some? { SearchAnchor(BareComma, t); }
    if Search(LabelledBottle, t).Some? { SearchAnchor(LabelledBottle, t); }
  }

  /** A bare capacity after a text without digits, with no anchor anywhere: count 1 and that capacity. */
  lemma CapacityOnlyFormat(pre: string, ds: string, fs: string, unit: string, rest: string)
    requires forall i :: 0 <= i < |pre| ==> !IsDigit(pre[i])
    requires TokenParts(ds, fs, unit) && NoAnchor(pre) && NoAnchor(rest)
    ensures ParseOptionInfo(Some(pre + Token(ds, fs, unit) + rest)) == OptionInfo(1, Token(ds, fs, unit))
  {
    var cap := Token(ds, fs, unit);
    var b := cap + rest;
    var t := pre + cap + rest;
    assert t == pre + b;
    CapLenToken(ds, fs, unit, rest);
    assert MatchCapacityOnly(b) == Some(OptionInfo(1, cap));
    SearchSkip(CapacityOnly, pre, b);
    NoAnchorParts(ds, fs, unit, [], 0);
    assert NoAnchor(t);
    if Search(CountComma, t).Some? { SearchAnchor(CountComma, t); }
    if Search(BareComma, t).Some? { SearchAnchor(BareComma, t); }
    if Search(LabelledBottle, t).Some? { SearchAnchor(LabelledBottle, t); }
    if Search(Bottle, t).Some? { SearchAnchor(Bottle, t); }
  }

  /** The formats the parser is written for, as concrete option texts. */
  lemma ExampleCountComma()
    ensures ParseOptionInfo(Some("5개, 240ml")) == OptionInfo(5, "240ml")
  {
    var cap, num := Token("240", "", "ml"), Decimal(5);
    assert cap == "240ml" && num == "5";
    assert num + "개," + " " + cap + "" == "5개, 240ml";
    CountCommaFormat(5, " ", "240", "", "ml", "");
  }

  /** A count of zero is passed through: the order line then contributes nothing. */
  lemma ExampleZeroCount()
    ensures ParseOptionInfo(Some("0개, 240ml")) == OptionInfo(0, "240ml")
  {
    var cap, num := Token("240", "", "ml"), Decimal(0);
    assert cap == "240ml" && num == "0";
    assert num + "개," + " " + cap + "" == "0개, 240ml";
    CountCommaFormat(0, " ", "240", "", "ml", "");
  }

  lemma ExampleBareComma()
    ensures ParseOptionInfo(Some("2, 1L")) == OptionInfo(2, "1L")
  {
    var cap, num := Token("1", "", "L"), Decimal(2);
    assert cap == "1L" && num == "2";
    assert num + "," + " " + cap + "" == "2, 1L";
    BareCommaFormat(2, " ", "1", "", "L", "");
  }

  lemma ExampleLabelled()
    ensures ParseOptionInfo(Some("용량 : 1L 2병")) == OptionInfo(2, "1L")
  {
    var cap, num := Token("1", "", "L"), Decimal(2);
    assert cap == "1L" && num == "2";
    assert "용량" + " " + ":" + " " + cap + " " + num + "병" + "" == "용량 : 1L 2병";
    LabelledFormat(" ", " ", "1", "", "L", " ", 2, "");
  }

  lemma ExampleBottle()
    ensures ParseOptionInfo(Some("500ml 3병")) == OptionInfo(3, "500ml")
  {
    var cap, num := Token("500", "", "ml"), Decimal(3);
    assert cap == "500ml" && num == "3";
    assert "" + cap + " " + num + "병" + "" == "500ml 3병";
    BottleFormat("", "500", "", "ml", " ", 3, "");
  }

  lemma ExampleCapacityOnly()
    ensures ParseOptionInfo(Some("플레인 쌀요거트 1.5L")) == OptionInfo(1, "1.5L")
  {
    var cap := Token("1", "5", "L");
    assert cap == "1.5L";
    assert "플레인 쌀요거트 " + cap + "" == "플레인 쌀요거트 1.5L";
    CapacityOnlyFormat("플레인 쌀요거트 ", "1", "5", "L", "");
  }
}
