/**
 * `standardize_capacity` and `standardize_capacity_for_box`: a capacity token
 * is lower-cased and, when it begins with one of the known sizes, replaced by
 * that size's canonical spelling. Box calculation counts 200ml bottles as
 * 240ml ones. The tests are `re.match`, i.e. prefix tests on the lower-cased
 * text.
 */
module Capacity {
  import opened Text

  /** The canonical spellings the standardiser can produce from a known size. */
  predicate Canonical(c: string)
  {
    c == "1.5L" || c == "1L" || c == "500ml" || c == "240ml" || c == "200ml"
  }

  /** Whether the lower-cased text begins with one of the known sizes. */
  predicate KnownPrefix(c: string)
  {
    StartsWith(c, "1.5l") || StartsWith(c, "1l") || StartsWith(c, "1000ml")
    || StartsWith(c, "500ml") || StartsWith(c, "240ml") || StartsWith(c, "200ml")
  }

  /** `standardize_capacity(capacity, for_box)`. */
  function Standardize(capacity: string, forBox: bool): string
  {
    if capacity == "" then "" else FromLower(Lower(capacity), forBox)
  }

  /** The prefix tests on the lower-cased text `c`. */
  function FromLower(c: string, forBox: bool): string
  {
    if StartsWith(c, "1.5l") then "1.5L"
    else if StartsWith(c, "1l") || StartsWith(c, "1000ml") then "1L"
    else if StartsWith(c, "500ml") then "500ml"
    else if StartsWith(c, "240ml") then "240ml"
    else if StartsWith(c, "200ml") then (if forBox then "240ml" else "200ml")
    else c
  }

  /** `standardize_capacity_for_box`. */
  function ForBox(capacity: string): string
  {
    Standardize(capacity, true)
  }

  /** The result is empty exactly for empty input, canonical after a known prefix, and the lower-cased input otherwise. */
  lemma StandardizeShape(capacity: string, forBox: bool)
    ensures var r := Standardize(capacity, forBox);
      && (r == "" <==> capacity == "")
      && (capacity != "" && KnownPrefix(Lower(capacity)) ==> Canonical(r))
      && (capacity != "" && !KnownPrefix(Lower(capacity)) ==> r == Lower(capacity))
  {
  }

  /**
   * The value for each known size. No two of the six prefixes can both start
   * the same text, so each size decides the result whatever order the tests
   * run in: "1.5l" gives "1.5L", "1l" and "1000ml" give "1L", "500ml" and
   * "240ml" give themselves, and "200ml" gives "240ml" in box mode only.
   */
  lemma StandardizeValue(capacity: string, forBox: bool)
    ensures var l, r := Lower(capacity), Standardize(capacity, forBox);
      && (StartsWith(l, "1.5l") ==> r == "1.5L")
      && (StartsWith(l, "1l") || StartsWith(l, "1000ml") ==> r == "1L")
      && (StartsWith(l, "500ml") ==> r == "500ml")
      && (StartsWith(l, "240ml") ==> r == "240ml")
      && (StartsWith(l, "200ml") ==> r == if forBox then "240ml" else "200ml")
  {
    var l := Lower(capacity);
    StartsWithIff(l, "1.5l");
    StartsWithIff(l, "1l");
    StartsWithIff(l, "1000ml");
    StartsWithIff(l, "500ml");
    StartsWithIff(l, "240ml");
    StartsWithIff(l, "200ml");
  }

  /** The result is never longer than the input: a known size is replaced by a spelling no longer than its prefix. */
  lemma StandardizeNoLonger(capacity: string, forBox: bool)
    ensures |Standardize(capacity, forBox)| <= |capacity|
  {
    StandardizeValue(capacity, forBox);
    var l := Lower(capacity);
    if capacity != "" && KnownPrefix(l) {
      StartsWithIff(l, "1.5l");
      StartsWithIff(l, "1l");
      StartsWithIff(l, "1000ml");
      StartsWithIff(l, "500ml");
      StartsWithIff(l, "240ml");
      StartsWithIff(l, "200ml");
    }
  }

  /** "1000ml", in any case, is the one-litre size. */
  lemma Example1000ml(forBox: bool)
    ensures Standardize("1000ml", forBox) == "1L"
    ensures Standardize("1000ML", forBox) == "1L"
  {
    assert Lower("1000ML") == "1000ml";
    StandardizeValue("1000ml", forBox);
    StandardizeValue("1000ML", forBox);
    assert StartsWith("1000ml", "1000ml");
  }

  /** Canonical spellings are fixed points of both modes but one: box mode turns "200ml" into "240ml". */
  lemma CanonicalFixed(c: string, forBox: bool)
    requires Canonical(c)
    ensures Standardize(c, forBox) == if forBox && c == "200ml" then "240ml" else c
  {
    var l := Lower(c);
    if c == "1.5L" {
      assert l == "1.5l";
      assert StartsWith(l, "1.5l");
    } else if c == "1L" {
      assert l == "1l";
      assert !StartsWith(l, "1.5l") && StartsWith(l, "1l");
    } else if c == "500ml" {
      assert l == "500ml";
      assert !StartsWith(l, "1.5l") && !StartsWith(l, "1l") && !StartsWith(l, "1000ml") && StartsWith(l, "500ml");
    } else if c == "240ml" {
      assert l == "240ml";
      assert !StartsWith(l, "1.5l") && !StartsWith(l, "1l") && !StartsWith(l, "1000ml") && !StartsWith(l, "500ml");
      assert StartsWith(l, "240ml");
    } else {
      assert l == "200ml";
      assert !StartsWith(l, "1.5l") && !StartsWith(l, "1l") && !StartsWith(l, "1000ml") && !StartsWith(l, "500ml");
      assert !StartsWith(l, "240ml") && StartsWith(l, "200ml");
    }
  }

  /** Standardising twice gives the same as once, in either mode. */
  lemma StandardizeIdempotent(capacity: string, forBox: bool)
    ensures Standardize(Standardize(capacity, forBox), forBox) == Standardize(capacity, forBox)
  {
    var r := Standardize(capacity, forBox);
    if capacity != "" {
      var c := Lower(capacity);
      if KnownPrefix(c) {
        CanonicalFixed(r, forBox);
      } else {
        LowerIdempotent(capacity);
      }
    }
  }

  /** Box mode never produces "200ml", and differs from shipment mode only by turning it into "240ml". */
  lemma BoxModeMerges200(capacity: string)
    ensures ForBox(capacity) != "200ml"
    ensures ForBox(capacity) == if Standardize(capacity, false) == "200ml" then "240ml" else Standardize(capacity, false)
  {
    if capacity != "" && Lower(capacity) == "200ml" {
      StartsWithIff(Lower(capacity), "200ml");
    }
  }

  /** Upper and lower case spellings of a capacity standardise alike. */
  lemma StandardizeCaseInsensitive(a: string, b: string, forBox: bool)
    requires Lower(a) == Lower(b)
    ensures Standardize(a, forBox) == Standardize(b, forBox)
  {
    if a == "" || b == "" {
      assert |a| == |Lower(a)| == |Lower(b)| == |b|;
    }
  }

  /** A capacity without spaces standardises to one without spaces. */
  lemma StandardizeNoSpace(capacity: string, forBox: bool)
    requires ' ' !in capacity
    ensures ' ' !in Standardize(capacity, forBox)
  {
    var l, r := Lower(capacity), Standardize(capacity, forBox);
    StandardizeShape(capacity, forBox);
    if r == l {
      assert forall i :: 0 <= i < |capacity| ==> capacity[i] != ' ';
      assert forall i :: 0 <= i < |l| ==> l[i] != ' ';
    } else if r != "" {
      assert Canonical(r);
      CanonicalNoSpace(r);
    }
  }

  lemma CanonicalNoSpace(c: string)
    requires Canonical(c)
    ensures ' ' !in c
  {
  }
}
