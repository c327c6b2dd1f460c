/**
 * Python dictionaries as insertion-ordered association lists. The dashboard
 * uses them only in four ways: `d.get(k, default)`, `d[k] = v` (which keeps the
 * position of an existing key and appends a new one), `d[k] += v` on a
 * `defaultdict(int)`, and iteration in insertion order.
 */
module Dict {

  type Dict<K, V> = seq<(K, V)>

  function Keys<K, V>(d: Dict<K, V>): (ks: seq<K>)
    ensures |ks| == |d|
    ensures forall i :: 0 <= i < |d| ==> ks[i] == d[i].0
    decreases |d|
  {
    if d == [] then [] else [d[0].0] + Keys(d[1..])
  }

  predicate Distinct<K(==)>(ks: seq<K>)
  {
    forall i, j :: 0 <= i < j < |ks| ==> ks[i] != ks[j]
  }

  /** `d.get(k, default)`. */
  function Get<K(==), V>(d: Dict<K, V>, k: K, default: V): V
    decreases |d|
  {
    if d == [] then default
    else if d[0].0 == k then d[0].1
    else Get(d[1..], k, default)
  }

  /** `d[k] = v`: an existing key keeps its position, a new key goes last. */
  function Put<K(==), V>(d: Dict<K, V>, k: K, v: V): (r: Dict<K, V>)
    ensures |r| == if k in Keys(d) then |d| else |d| + 1
    decreases |d|
  {
    if d == [] then [(k, v)]
    else if d[0].0 == k then [(k, v)] + d[1..]
    else [d[0]] + Put(d[1..], k, v)
  }

  /** `d[k] += v` on a `defaultdict(int)`. */
  function Add<K(==)>(d: Dict<K, int>, k: K, v: int): Dict<K, int>
  {
    Put(d, k, Get(d, k, 0) + v)
  }

  /** `sum(d.values())`. */
  function Sum<K>(d: Dict<K, int>): int
    decreases |d|
  {
    if d == [] then 0 else d[0].1 + Sum(d[1..])
  }

  /** `len([k for k, v in d.items() if v > 0])`. */
  function CountPositive<K>(d: Dict<K, int>): (n: nat)
    ensures n <= |d|
    decreases |d|
  {
    if d == [] then 0 else (if d[0].1 > 0 then 1 else 0) + CountPositive(d[1..])
  }

  lemma {:induction false} GetMissing<K, V>(d: Dict<K, V>, k: K, default: V)
    requires k !in Keys(d)
    ensures Get(d, k, default) == default
    decreases |d|
  {
    if d != [] {
      assert Keys(d)[1..] == Keys(d[1..]);
      GetMissing(d[1..], k, default);
    }
  }

  /** After `d[k] = v`, `k` reads `v` and every other key reads what it read before. */
  lemma {:induction false} GetPut<K, V>(d: Dict<K, V>, k: K, v: V, k': K, default: V)
    ensures Get(Put(d, k, v), k', default) == if k' == k then v else Get(d, k', default)
    decreases |d|
  {
    if d != [] && d[0].0 != k {
      GetPut(d[1..], k, v, k', default);
    }
  }

  /** `d[k] = v` adds exactly the key `k`. */
  lemma {:induction false} KeysPut<K, V>(d: Dict<K, V>, k: K, v: V)
    ensures forall k' :: k' in Keys(Put(d, k, v)) <==> k' == k || k' in Keys(d)
    decreases |d|
  {
    if d != [] && d[0].0 != k {
      KeysPut(d[1..], k, v);
      assert Keys(Put(d, k, v)) == [d[0].0] + Keys(Put(d[1..], k, v));
      assert Keys(d) == [d[0].0] + Keys(d[1..]);
    } else if d != [] {
      assert Keys(Put(d, k, v)) == [k] + Keys(d[1..]);
      assert Keys(d) == [k] + Keys(d[1..]);
    }
  }

  /** `d[k] = v` cannot create a duplicate key. */
  lemma {:induction false} DistinctPut<K, V>(d: Dict<K, V>, k: K, v: V)
    requires Distinct(Keys(d))
    ensures Distinct(Keys(Put(d, k, v)))
    decreases |d|
  {
    if d != [] && d[0].0 != k {
      assert Keys(d) == [d[0].0] + Keys(d[1..]);
      assert Distinct(Keys(d[1..]));
      DistinctPut(d[1..], k, v);
      KeysPut(d[1..], k, v);
      var r := Put(d, k, v);
      assert Keys(r) == [d[0].0] + Keys(Put(d[1..], k, v));
      assert d[0].0 !in Keys(d[1..]);
    } else if d != [] {
      assert Keys(Put(d, k, v)) == [k] + Keys(d[1..]);
      assert Keys(d) == [k] + Keys(d[1..]);
    } else {
      assert Keys(Put(d, k, v)) == [k];
    }
  }

  /** Overwriting one value changes the total by the difference. */
  lemma {:induction false} SumPut<K>(d: Dict<K, int>, k: K, v: int)
    ensures Sum(Put(d, k, v)) == Sum(d) - Get(d, k, 0) + v
    decreases |d|
  {
    if d != [] && d[0].0 != k {
      SumPut(d[1..], k, v);
    }
  }

  /** `d[k] += v` raises the total by exactly `v`. */
  lemma SumAdd<K>(d: Dict<K, int>, k: K, v: int)
    ensures Sum(Add(d, k, v)) == Sum(d) + v
  {
    SumPut(d, k, Get(d, k, 0) + v);
  }

  /** With non-negative values, the total is at least the number of positive entries, and is zero exactly when none is positive. */
  lemma {:induction false} CountPositiveBound<K>(d: Dict<K, int>)
    requires forall i :: 0 <= i < |d| ==> d[i].1 >= 0
    ensures CountPositive(d) <= Sum(d)
    ensures CountPositive(d) == 0 <==> Sum(d) == 0
    decreases |d|
  {
    if d != [] {
      CountPositiveBound(d[1..]);
    }
  }

  /** The keys of `d` that read a positive value. */
  ghost function PositiveKeys<K>(d: Dict<K, int>): set<K>
  {
    set k | k in Keys(d) && Get(d, k, 0) > 0
  }

  /** With distinct keys, the positive entries counted are exactly the keys that read a positive value. */
  lemma {:induction false} CountPositiveKeys<K>(d: Dict<K, int>)
    requires Distinct(Keys(d))
    ensures CountPositive(d) == |PositiveKeys(d)|
    decreases |d|
  {
    if d != [] {
      var rest := d[1..];
      assert Keys(d) == [d[0].0] + Keys(rest);
      assert Distinct(Keys(rest));
      CountPositiveKeys(rest);
      assert d[0].0 !in Keys(rest) by {
        forall i | 0 <= i < |rest|
          ensures Keys(rest)[i] != d[0].0
        {
          assert Keys(d)[i + 1] == Keys(rest)[i];
        }
      }
      PositiveKeysCons(d);
    } else {
      assert PositiveKeys(d) == {};
    }
  }

  /** The positive keys of a dictionary are those of its tail, plus its first key when that reads a positive value. */
  lemma PositiveKeysCons<K>(d: Dict<K, int>)
    requires d != [] && d[0].0 !in Keys(d[1..])
    ensures PositiveKeys(d) == PositiveKeys(d[1..]) + (if d[0].1 > 0 then {d[0].0} else {})
    ensures d[0].0 !in PositiveKeys(d[1..])
  {
    var rest := d[1..];
    assert Keys(d) == [d[0].0] + Keys(rest);
    forall k
      ensures k in PositiveKeys(d) <==> k in PositiveKeys(rest) + (if d[0].1 > 0 then {d[0].0} else {})
    {
      assert k in Keys(d) <==> k == d[0].0 || k in Keys(rest);
      if k != d[0].0 {
        assert Get(d, k, 0) == Get(rest, k, 0);
      }
    }
  }

  /** With non-negative values, every key reads a non-negative value, 0 when absent. */
  lemma {:induction false} GetNonNegative<K>(d: Dict<K, int>, k: K)
    requires forall i :: 0 <= i < |d| ==> d[i].1 >= 0
    ensures Get(d, k, 0) >= 0
    decreases |d|
  {
    if d != [] && d[0].0 != k {
      GetNonNegative(d[1..], k);
    }
  }

  /** The dictionary built by `d[k] += v` for each pair of `es` in turn, starting empty. */
  function Tally<K(==)>(es: seq<(K, int)>): Dict<K, int>
    decreases |es|
  {
    if es == [] then [] else Add(Tally(es[..|es| - 1]), es[|es| - 1].0, es[|es| - 1].1)
  }

  /** Adding non-negative quantities only ever gives non-negative totals. */
  lemma {:induction false} TallyNonNegative<K>(es: seq<(K, int)>)
    requires forall i :: 0 <= i < |es| ==> es[i].1 >= 0
    ensures forall i :: 0 <= i < |Tally(es)| ==> Tally(es)[i].1 >= 0
    decreases |es|
  {
    if es != [] {
      var before := Tally(es[..|es| - 1]);
      var last := es[|es| - 1];
      TallyNonNegative(es[..|es| - 1]);
      GetNonNegative(before, last.0);
      PutNonNegative(before, last.0, Get(before, last.0, 0) + last.1);
    }
  }

  /** Reference definition: the values paired with `k` in `es`, added up. */
  function SumFor<K(==)>(es: seq<(K, int)>, k: K): int
    decreases |es|
  {
    if es == [] then 0
    else SumFor(es[..|es| - 1], k) + (if es[|es| - 1].0 == k then es[|es| - 1].1 else 0)
  }

  /** Reference definition: all values of `es`, added up. */
  function SumAll<K>(es: seq<(K, int)>): int
    decreases |es|
  {
    if es == [] then 0 else SumAll(es[..|es| - 1]) + es[|es| - 1].1
  }

  lemma GetAdd<K>(d: Dict<K, int>, k: K, v: int, k': K)
    ensures Get(Add(d, k, v), k', 0) == Get(d, k', 0) + (if k' == k then v else 0)
  {
    GetPut(d, k, Get(d, k, 0) + v, k', 0);
  }

  /** Tallying one more pair adds its value under its key. */
  lemma TallySnoc<K>(es: seq<(K, int)>, k: K, v: int)
    ensures Tally(es + [(k, v)]) == Add(Tally(es), k, v)
    ensures SumFor(es + [(k, v)], k) == SumFor(es, k) + v
  {
    assert (es + [(k, v)])[..|es|] == es;
  }

  lemma SumForSnoc<K>(es: seq<(K, int)>, x: (K, int), k: K)
    ensures SumFor(es + [x], k) == SumFor(es, k) + (if x.0 == k then x.1 else 0)
  {
    assert (es + [x])[..|es|] == es;
  }

  /** Each key of a tally holds the sum of the values paired with it. */
  lemma {:induction false} TallyGet<K>(es: seq<(K, int)>, k: K)
    ensures Get(Tally(es), k, 0) == SumFor(es, k)
    decreases |es|
  {
    if es != [] {
      TallyGet(es[..|es| - 1], k);
      GetAdd(Tally(es[..|es| - 1]), es[|es| - 1].0, es[|es| - 1].1, k);
    }
  }

  /** The keys of a sequence of pairs grow by the key of the pair appended last. */
  lemma KeysSnoc<K, V>(es: seq<(K, V)>)
    requires es != []
    ensures Keys(es) == Keys(es[..|es| - 1]) + [es[|es| - 1].0]
  {
  }

  /** A tally has distinct keys, and holds exactly the keys carried by the pairs. */
  lemma {:induction false} TallyKeys<K>(es: seq<(K, int)>)
    ensures Distinct(Keys(Tally(es)))
    ensures forall k :: k in Keys(Tally(es)) <==> k in Keys(es)
    decreases |es|
  {
    if es != [] {
      var init, last := es[..|es| - 1], es[|es| - 1];
      var before := Tally(init);
      TallyKeys(init);
      var v := Get(before, last.0, 0) + last.1;
      assert Tally(es) == Put(before, last.0, v);
      DistinctPut(before, last.0, v);
      KeysPut(before, last.0, v);
      KeysSnoc(es);
    }
  }

  /** A tally neither loses nor invents quantity. */
  lemma {:induction false} TallyConserve<K>(es: seq<(K, int)>)
    ensures Sum(Tally(es)) == SumAll(es)
    decreases |es|
  {
    if es != [] {
      TallyConserve(es[..|es| - 1]);
      SumAdd(Tally(es[..|es| - 1]), es[|es| - 1].0, es[|es| - 1].1);
    }
  }

  /** The nested dictionary built by `d[r][k] = d[r].get(k, 0) + v` for each `(r, (k, v))` of `es` in turn. */
  function Group<R(==), K(==)>(es: seq<(R, (K, int))>): Dict<R, Dict<K, int>>
    decreases |es|
  {
    if es == [] then []
    else
      var g, last := Group(es[..|es| - 1]), es[|es| - 1];
      Put(g, last.0, Add(Get(g, last.0, []), last.1.0, last.1.1))
  }

  /** The inner pairs of `es` whose outer key is `r`, in order. */
  function Select<R(==), K>(es: seq<(R, (K, int))>, r: R): (s: seq<(K, int)>)
    ensures |s| <= |es|
    decreases |es|
  {
    if es == [] then []
    else Select(es[..|es| - 1], r) + (if es[|es| - 1].0 == r then [es[|es| - 1].1] else [])
  }

  /** A non-empty sequence is its prefix followed by its last element. */
  lemma LastSplit<T>(s: seq<T>)
    requires s != []
    ensures s == s[..|s| - 1] + [s[|s| - 1]]
  {
  }

  lemma SelectSnoc<R, K>(es: seq<(R, (K, int))>, x: (R, (K, int)), r: R)
    ensures Select(es + [x], r) == if x.0 == r then Select(es, r) + [x.1] else Select(es, r)
  {
    assert (es + [x])[..|es|] == es;
    assert Select(es, r) + [] == Select(es, r);
  }

  /** Every inner dictionary is the tally of the pairs filed under its outer key. */
  lemma {:induction false} GroupGet<R, K>(es: seq<(R, (K, int))>, r: R)
    ensures Get(Group(es), r, []) == Tally(Select(es, r))
    decreases |es|
  {
    if es != [] {
      var init, last := es[..|es| - 1], es[|es| - 1];
      var g := Group(init);
      GroupGet(init, r);
      GetPut(g, last.0, Add(Get(g, last.0, []), last.1.0, last.1.1), r, []);
      if last.0 == r {
        var s := Select(init, r);
        assert Select(es, r) == s + [last.1];
        assert (s + [last.1])[..|s|] == s;
      } else {
        assert Select(es, r) == Select(init, r) + [];
        assert Select(es, r) == Select(init, r);
        assert Get(Group(es), r, []) == Get(g, r, []);
      }
    }
  }

  /** The outer keys are distinct, and are exactly the outer keys that occur in `es`. */
  lemma {:induction false} GroupKeys<R, K>(es: seq<(R, (K, int))>)
    ensures Distinct(Keys(Group(es)))
    ensures forall r :: r in Keys(Group(es)) <==> r in Keys(es)
    decreases |es|
  {
    if es != [] {
      var init, last := es[..|es| - 1], es[|es| - 1];
      var g := Group(init);
      GroupKeys(init);
      var inner := Add(Get(g, last.0, []), last.1.0, last.1.1);
      DistinctPut(g, last.0, inner);
      KeysPut(g, last.0, inner);
      KeysSnoc(es);
    }
  }

  /** The grand total of a nested dictionary: the totals of its inner dictionaries, added up. */
  function SumNested<R, K>(g: Dict<R, Dict<K, int>>): int
    decreases |g|
  {
    if g == [] then 0 else Sum(g[0].1) + SumNested(g[1..])
  }

  /** All inner values of `es`, added up. */
  function SumInner<R, K>(es: seq<(R, (K, int))>): int
    decreases |es|
  {
    if es == [] then 0 else SumInner(es[..|es| - 1]) + es[|es| - 1].1.1
  }

  lemma {:induction false} SumNestedPut<R, K>(g: Dict<R, Dict<K, int>>, r: R, inner: Dict<K, int>)
    ensures SumNested(Put(g, r, inner)) == SumNested(g) - Sum(Get(g, r, [])) + Sum(inner)
    decreases |g|
  {
    if g != [] && g[0].0 != r {
      SumNestedPut(g[1..], r, inner);
    }
  }

  /** Grouping neither loses nor invents quantity. */
  lemma {:induction false} GroupConserve<R, K>(es: seq<(R, (K, int))>)
    ensures SumNested(Group(es)) == SumInner(es)
    decreases |es|
  {
    if es != [] {
      var init, last := es[..|es| - 1], es[|es| - 1];
      var g := Group(init);
      GroupConserve(init);
      SumAdd(Get(g, last.0, []), last.1.0, last.1.1);
      SumNestedPut(g, last.0, Add(Get(g, last.0, []), last.1.0, last.1.1));
    }
  }

  /** Two positive entries make the count at least two. */
  lemma {:induction false} CountPositiveTwo<K>(d: Dict<K, int>, i: int, j: int)
    requires 0 <= i < j < |d| && d[i].1 > 0 && d[j].1 > 0
    ensures CountPositive(d) >= 2
    decreases |d|
  {
    if i > 0 {
      CountPositiveTwo(d[1..], i - 1, j - 1);
    } else {
      CountPositiveOne(d[1..], j - 1);
    }
  }

  lemma {:induction false} CountPositiveOne<K>(d: Dict<K, int>, j: int)
    requires 0 <= j < |d| && d[j].1 > 0
    ensures CountPositive(d) >= 1
    decreases |d|
  {
    if j > 0 {
      CountPositiveOne(d[1..], j - 1);
    }
  }

  /** With a single positive entry the count is exactly one. */
  lemma {:induction false} CountPositiveOnly<K>(d: Dict<K, int>, j: int)
    requires 0 <= j < |d| && d[j].1 > 0
    requires forall i :: 0 <= i < |d| && i != j ==> d[i].1 <= 0
    ensures CountPositive(d) == 1
    decreases |d|
  {
    if j > 0 {
      CountPositiveOnly(d[1..], j - 1);
    } else {
      CountPositiveNone(d[1..]);
    }
  }

  lemma {:induction false} CountPositiveNone<K>(d: Dict<K, int>)
    requires forall i :: 0 <= i < |d| ==> d[i].1 <= 0
    ensures CountPositive(d) == 0
    decreases |d|
  {
    if d != [] {
      CountPositiveNone(d[1..]);
    }
  }

  /** The dictionary built by `d[k] = v` for each pair of `es` in turn, starting empty. */
  function Assign<K(==), V>(es: seq<(K, V)>): Dict<K, V>
    decreases |es|
  {
    if es == [] then [] else Put(Assign(es[..|es| - 1]), es[|es| - 1].0, es[|es| - 1].1)
  }

  /** Every key of `es` is assigned once: the keys are distinct and are exactly those of the pairs. */
  lemma {:induction false} AssignKeys<K, V>(es: seq<(K, V)>)
    ensures Distinct(Keys(Assign(es)))
    ensures forall k :: k in Keys(Assign(es)) <==> k in Keys(es)
    decreases |es|
  {
    if es != [] {
      var init, last := es[..|es| - 1], es[|es| - 1];
      AssignKeys(init);
      DistinctPut(Assign(init), last.0, last.1);
      KeysPut(Assign(init), last.0, last.1);
      KeysSnoc(es);
    }
  }

  /** The last assignment to a key wins. */
  lemma {:induction false} AssignLast<K, V>(es: seq<(K, V)>, j: int, default: V)
    requires 0 <= j < |es|
    requires forall i :: j < i < |es| ==> es[i].0 != es[j].0
    ensures Get(Assign(es), es[j].0, default) == es[j].1
    decreases |es|
  {
    var init, last := es[..|es| - 1], es[|es| - 1];
    GetPut(Assign(init), last.0, last.1, es[j].0, default);
    if j < |es| - 1 {
      assert init[j] == es[j];
      AssignLast(init, j, default);
    }
  }

  /** Assigning only non-negative values gives a dictionary of non-negative values. */
  lemma {:induction false} AssignNonNegative<K>(es: seq<(K, int)>)
    requires forall i :: 0 <= i < |es| ==> es[i].1 >= 0
    ensures forall i :: 0 <= i < |Assign(es)| ==> Assign(es)[i].1 >= 0
    decreases |es|
  {
    if es != [] {
      AssignNonNegative(es[..|es| - 1]);
      PutNonNegative(Assign(es[..|es| - 1]), es[|es| - 1].0, es[|es| - 1].1);
    }
  }

  lemma {:induction false} PutNonNegative<K>(d: Dict<K, int>, k: K, v: int)
    requires v >= 0 && forall i :: 0 <= i < |d| ==> d[i].1 >= 0
    ensures forall i :: 0 <= i < |Put(d, k, v)| ==> Put(d, k, v)[i].1 >= 0
    decreases |d|
  {
    if d != [] && d[0].0 != k {
      PutNonNegative(d[1..], k, v);
    }
  }

  /** Each assigned key holds the value of one of the pairs carrying it. */
  lemma {:induction false} AssignFrom<K, V>(es: seq<(K, V)>, k: K, default: V)
    requires k in Keys(Assign(es))
    ensures exists j :: 0 <= j < |es| && es[j].0 == k && Get(Assign(es), k, default) == es[j].1
    decreases |es|
  {
    var init, last := es[..|es| - 1], es[|es| - 1];
    GetPut(Assign(init), last.0, last.1, k, default);
    if k != last.0 {
      KeysPut(Assign(init), last.0, last.1);
      AssignFrom(init, k, default);
      var j :| 0 <= j < |init| && init[j].0 == k && Get(Assign(init), k, default) == init[j].1;
      assert es[j] == init[j];
    }
  }
}
