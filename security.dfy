/**
 * Privacy helpers: masking of names, phone numbers and addresses, matching a
 * stored customer by name or by the last four digits of the phone number.
 * Every input is the text of a cell; the empty text stands for a missing one.
 */
module Security {
  import opened Wrappers
  import opened Text

  const Mask: char := '○'

  /** `'○' * n`. */
  function Circles(n: nat): (r: string)
    ensures |r| == n && forall i :: 0 <= i < n ==> r[i] == Mask
  {
    seq(n, i => Mask)
  }

  /** `mask_name`: the empty name is "알 수 없음"; a longer name keeps its first character and hides the rest. */
  function MaskName(name: string): (r: string)
    ensures name == "" ==> r == "알 수 없음"
    ensures |name| == 1 ==> r == name
    ensures |name| >= 2 ==> |r| == |name| && r[0] == name[0] && forall i :: 1 <= i < |r| ==> r[i] == Mask
  {
    if name == "" then "알 수 없음"
    else if |name| >= 2 then [name[0]] + Circles(|name| - 1)
    else name
  }

  /** Masking a masked name changes nothing. */
  lemma MaskNameIdempotent(name: string)
    requires name != ""
    ensures MaskName(MaskName(name)) == MaskName(name)
  {
    if |name| >= 2 {
      var m := MaskName(name);
      assert MaskName(m) == [m[0]] + Circles(|m| - 1);
      assert [m[0]] + Circles(|m| - 1) == m;
    }
  }

  /** `mask_phone`: at most the first three and the last four digits survive. */
  function MaskPhone(phone: string): (r: string)
    ensures r == "****" || (|r| == 9 && r[..5] == "****-") || (|r| == 13 && r[3..9] == "-****-")
  {
    if phone == "" then "****"
    else
      var digits := DigitsOnly(phone);
      if |digits| >= 8 then digits[..3] + "-****-" + Last(digits, 4)
      else if |digits| >= 4 then "****-" + Last(digits, 4)
      else "****"
  }

  lemma DigitsOfMaskedPhone(phone: string)
    ensures var digits := DigitsOnly(phone);
      DigitsOnly(MaskPhone(phone)) ==
        if phone != "" && |digits| >= 8 then digits[..3] + Last(digits, 4)
        else if phone != "" && |digits| >= 4 then Last(digits, 4)
        else ""
  {
    var digits := DigitsOnly(phone);
    assert DigitsOnly("****") == "";
    assert DigitsOnly("-****-") == "";
    if phone != "" && |digits| >= 8 {
      DigitsOnlyOfDigits(digits[..3]);
      DigitsOnlyOfDigits(Last(digits, 4));
      DigitsOnlyConcat(digits[..3] + "-****-", Last(digits, 4));
      DigitsOnlyConcat(digits[..3], "-****-");
    } else if phone != "" && |digits| >= 4 {
      DigitsOnlyOfDigits(Last(digits, 4));
      DigitsOnlyConcat("****-", Last(digits, 4));
      assert DigitsOnly("****-") == "";
    }
  }

  /** A masked phone number shows at most seven digits of the original. */
  lemma MaskPhoneHides(phone: string)
    ensures |DigitsOnly(MaskPhone(phone))| <= 7
  {
    DigitsOfMaskedPhone(phone);
  }

  /** `match_phone_number`: both present, both with four digits or more, and the same last four digits. */
  predicate MatchPhone(stored: string, current: string)
  {
    && stored != "" && current != ""
    && |DigitsOnly(stored)| >= 4 && |DigitsOnly(current)| >= 4
    && Last(DigitsOnly(stored), 4) == Last(DigitsOnly(current), 4)
  }

  lemma MatchPhoneSymmetric(a: string, b: string)
    ensures MatchPhone(a, b) <==> MatchPhone(b, a)
  {
  }

  /** Masking keeps the last four digits: a masked phone number still matches the original. */
  lemma MaskedPhoneMatches(phone: string)
    requires |DigitsOnly(phone)| >= 4
    ensures MatchPhone(MaskPhone(phone), phone)
  {
    DigitsOfMaskedPhone(phone);
    var digits := DigitsOnly(phone);
    var md := DigitsOnly(MaskPhone(phone));
    if |digits| >= 8 {
      assert Last(md, 4) == Last(digits, 4);
    }
    assert MaskPhone(phone) != "";
  }

  /** The characters after which `mask_address` cuts: 동, 읍, 면, 가, 리. */
  predicate IsMarker(c: char)
  {
    c == '동' || c == '읍' || c == '면' || c == '가' || c == '리'
  }

  /**
   * The lazy `.+?(?:동|읍|면|가|리)` part with `.+` after it, tried from a start
   * position: the length of group 1 for the first marker at index `e` or later,
   * where no line break can be crossed (`.` does not match "\n").
   */
  function LazyEnd(t: string, e: nat): (r: Option<nat>)
    requires 1 <= e
    ensures r.Some? ==> 2 <= r.value < |t| && IsMarker(t[r.value - 1])
    decreases |t| - e
  {
    if e >= |t| || t[e] == '\n' then None
    else if IsMarker(t[e]) && e + 1 < |t| && t[e + 1] != '\n' then Some(e + 1)
    else LazyEnd(t, e + 1)
  }

  /** The length of group 1 when `(.+?(?:동|읍|면|가|리))(.+)` matches at the start of `t`. */
  function AddressAt(t: string): (r: Option<nat>)
    ensures r.Some? ==> 2 <= r.value < |t| && IsMarker(t[r.value - 1])
  {
    if |t| >= 1 && t[0] != '\n' then LazyEnd(t, 1) else None
  }

  /** `re.search` of the address pattern: group 1 at the leftmost start that matches. */
  function AddressSearch(t: string): (r: Option<string>)
    ensures r.Some? ==> 2 <= |r.value| < |t| && IsMarker(r.value[|r.value| - 1]) && Contains(t, r.value)
    decreases |t|
  {
    if AddressAt(t).Some? then
      ContainsSlice(t, 0, AddressAt(t).value);
      assert t[0..AddressAt(t).value] == t[..AddressAt(t).value];
      Some(t[..AddressAt(t).value])
    else if t == [] then None
    else
      var r := AddressSearch(t[1..]);
      if r.Some? then ContainsSuffix(t, 1, r.value); r else r
  }

  /** `mask_address`. */
  function MaskAddress(address: string): (r: string)
    ensures address != "" ==> |r| <= |address| + 3
  {
    if address == "" then "주소 미확인"
    else
      match AddressSearch(address)
      case Some(g) => g + " ○○○"
      case None => if |address| > 10 then address[..10] + "..." else address
  }

  /** Whatever the address, the masked form keeps only a part of it that ends in a marker, or at most ten characters of it. */
  lemma MaskAddressShape(address: string)
    requires address != ""
    ensures var r := MaskAddress(address);
      || (|address| <= 10 && r == address)
      || (|address| > 10 && r == address[..10] + "...")
      || (|r| >= 6 && r[|r| - 4..] == " ○○○" && IsMarker(r[|r| - 5]) && Contains(address, r[..|r| - 4]))
  {
    var r := MaskAddress(address);
    var s := AddressSearch(address);
    if s.Some? {
      assert r == s.value + " ○○○";
      assert r[..|r| - 4] == s.value;
      assert r[|r| - 4..] == " ○○○";
    }
  }

  /** Text without line breaks. */
  predicate OneLine(t: string)
  {
    forall i :: 0 <= i < |t| ==> t[i] != '\n'
  }

  lemma {:induction false} LazyEndFirst(t: string, e0: nat, e: nat)
    requires OneLine(t) && 1 <= e0 <= e && e + 1 < |t| && IsMarker(t[e])
    requires forall j :: e0 <= j < e ==> !(IsMarker(t[j]) && j + 1 < |t|)
    ensures LazyEnd(t, e0) == Some(e + 1)
    decreases e - e0
  {
    if e0 < e {
      LazyEndFirst(t, e0 + 1, e);
    }
  }

  lemma {:induction false} LazyEndNone(t: string, e0: nat)
    requires OneLine(t) && 1 <= e0
    requires forall j :: e0 <= j < |t| - 1 ==> !IsMarker(t[j])
    ensures LazyEnd(t, e0) == None
    decreases |t| - e0
  {
    if e0 < |t| {
      LazyEndNone(t, e0 + 1);
    }
  }

  lemma {:induction false} AddressSearchNone(t: string)
    requires OneLine(t)
    requires forall j :: 1 <= j < |t| - 1 ==> !IsMarker(t[j])
    ensures AddressSearch(t) == None
    decreases |t|
  {
    if |t| >= 1 {
      LazyEndNone(t, 1);
      AddressSearchNone(t[1..]);
    }
  }

  /**
   * On one line: when the first marker with a character after it sits at
   * index `e >= 1`, the address is cut right after it.
   */
  lemma MaskAddressAt(address: string, e: nat)
    requires OneLine(address) && 1 <= e && e + 1 < |address| && IsMarker(address[e])
    requires forall j :: 1 <= j < e ==> !IsMarker(address[j])
    ensures MaskAddress(address) == address[..e + 1] + " ○○○"
  {
    LazyEndFirst(address, 1, e);
  }

  /** On one line with no marker between the first and the last character, the address is shown truncated to ten characters. */
  lemma MaskAddressPlain(address: string)
    requires OneLine(address) && address != ""
    requires forall j :: 1 <= j < |address| - 1 ==> !IsMarker(address[j])
    ensures MaskAddress(address) == if |address| > 10 then address[..10] + "..." else address
  {
    AddressSearchNone(address);
  }

  /** The record `mask_customer_info` reads; a missing key reads as "". */
  datatype CustomerInfo = CustomerInfo(ordererName: string, ordererPhone: string, recipientName: string, orderInfo: string)

  /** The four-key record `mask_customer_info` returns. */
  datatype MaskedInfo = MaskedInfo(ordererName: string, ordererPhone: string, recipientName: string, orderInfo: string)

  function MaskCustomerInfo(info: CustomerInfo): (m: MaskedInfo)
    ensures m.orderInfo == info.orderInfo
    ensures m.ordererName == MaskName(info.ordererName) && m.recipientName == MaskName(info.recipientName)
    ensures m.ordererPhone == MaskPhone(info.ordererPhone)
  {
    MaskedInfo(MaskName(info.ordererName), MaskPhone(info.ordererPhone), MaskName(info.recipientName), info.orderInfo)
  }

  /** The masked record can still be matched against the stored phone number. */
  lemma MaskedInfoUsable(info: CustomerInfo)
    requires |DigitsOnly(info.ordererPhone)| >= 4
    ensures MatchPhone(MaskCustomerInfo(info).ordererPhone, info.ordererPhone)
  {
    MaskedPhoneMatches(info.ordererPhone);
  }

  /** A row of the customer file, reduced to the two columns matching reads. */
  datatype CustomerRow = CustomerRow(name: string, phone: string)

  predicate Matches(row: CustomerRow, ordererName: string, ordererPhone: string)
  {
    row.name == ordererName || MatchPhone(row.phone, ordererPhone)
  }

  /** Reference definition: the index of the first matching row. */
  function FirstMatch(rows: seq<CustomerRow>, ordererName: string, ordererPhone: string): (r: Option<nat>)
    ensures r.Some? ==>
      && r.value < |rows| && Matches(rows[r.value], ordererName, ordererPhone)
      && forall j :: 0 <= j < r.value ==> !Matches(rows[j], ordererName, ordererPhone)
    ensures r.None? ==> forall j :: 0 <= j < |rows| ==> !Matches(rows[j], ordererName, ordererPhone)
    decreases |rows|
  {
    if rows == [] then None
    else if Matches(rows[0], ordererName, ordererPhone) then Some(0)
    else
      match FirstMatch(rows[1..], ordererName, ordererPhone)
      case Some(i) => Some(i + 1)
      case None => None
  }

  /** `find_matching_customer`: the first row that matches by name or by phone, or None. */
  method FindMatchingCustomer(ordererName: string, ordererPhone: string, rows: seq<CustomerRow>) returns (found: Option<CustomerRow>)
    ensures found.Some? <==> exists j :: 0 <= j < |rows| && Matches(rows[j], ordererName, ordererPhone)
    ensures found == match FirstMatch(rows, ordererName, ordererPhone)
      case Some(j) => Some(rows[j])
      case None => None
  {
    var i := 0;
    while i < |rows|
      invariant 0 <= i <= |rows|
      invariant forall k :: 0 <= k < i ==> !Matches(rows[k], ordererName, ordererPhone)
    {
      var row := rows[i];
      if row.name == ordererName {
        return Some(row);
      }
      if MatchPhone(row.phone, ordererPhone) {
        return Some(row);
      }
      i := i + 1;
    }
    return None;
  }
}
