/**
 * Grouping of a sequence of keys the way a Python dict (or defaultdict) built
 * by a loop groups them: keys in first-seen order, one count per key.
 */
module Grouping {

  /** No element occurs twice. */
  predicate NoDup<K(==)>(s: seq<K>) {
    forall i, j :: 0 <= i < j < |s| ==> s[i] != s[j]
  }

  /** The keys of s, without repeats, in the order they first occur
      (the key order of a dict filled from s, and `list(dict.fromkeys(s))`). */
  function Distinct<K(==)>(s: seq<K>): seq<K>
    decreases |s|
  {
    if |s| == 0 then []
    else
      var d := Distinct(s[..|s| - 1]);
      if s[|s| - 1] in d then d else d + [s[|s| - 1]]
  }

  /** Number of occurrences of k in s. */
  function Count<K(==)>(s: seq<K>, k: K): nat
    decreases |s|
  {
    if |s| == 0 then 0
    else Count(s[..|s| - 1], k) + (if s[|s| - 1] == k then 1 else 0)
  }

  /** Sum of the weights w[i] at the positions where s[i] == k. */
  function SumWhere<K(==)>(s: seq<K>, w: seq<int>, k: K): int
    requires |s| == |w|
    decreases |s|
  {
    if |s| == 0 then 0
    else SumWhere(s[..|s| - 1], w[..|w| - 1], k) + (if s[|s| - 1] == k then w[|w| - 1] else 0)
  }

  function Sum(w: seq<int>): int
    decreases |w|
  {
    if |w| == 0 then 0 else Sum(w[..|w| - 1]) + w[|w| - 1]
  }

  /** Index of the first occurrence of x in s. */
  function FirstIndex<K(==)>(s: seq<K>, x: K): (i: nat)
    requires x in s
    ensures i < |s| && s[i] == x
    ensures forall j :: 0 <= j < i ==> s[j] != x
  {
    if s[0] == x then 0 else 1 + FirstIndex(s[1..], x)
  }

  /** One key of a tally with the number of times it was seen. */
  datatype Entry<K> = Entry(key: K, count: nat)

  /** The counts of a defaultdict(int) incremented once per key of s, as items in dict order. */
  function TallyOf<K(==)>(s: seq<K>): seq<Entry<K>> {
    var d := Distinct(s);
    seq(|d|, j requires 0 <= j < |d| => Entry(d[j], Count(s, d[j])))
  }

  function Keys<K>(t: seq<Entry<K>>): seq<K> {
    seq(|t|, j requires 0 <= j < |t| => t[j].key)
  }

  function TallySum<K>(t: seq<Entry<K>>): int
    decreases |t|
  {
    if |t| == 0 then 0 else TallySum(t[..|t| - 1]) + t[|t| - 1].count
  }

  /** Sum, over the given keys, of their counts in s. */
  function CountOver<K(==)>(s: seq<K>, keys: seq<K>): int
    decreases |keys|
  {
    if |keys| == 0 then 0 else CountOver(s, keys[..|keys| - 1]) + Count(s, keys[|keys| - 1])
  }

  /** Sum, over the given keys, of the weights attached to them in s. */
  function SumOver<K(==)>(s: seq<K>, w: seq<int>, keys: seq<K>): int
    requires |s| == |w|
    decreases |keys|
  {
    if |keys| == 0 then 0 else SumOver(s, w, keys[..|keys| - 1]) + SumWhere(s, w, keys[|keys| - 1])
  }

  // ---------------------------------------------------------------------------
  // Distinct

  lemma NoDupAppend<K>(a: seq<K>, b: seq<K>)
    requires NoDup(a) && NoDup(b) && forall x :: x in a ==> x !in b
    ensures NoDup(a + b)
  {
    forall i, j | 0 <= i < j < |a + b| ensures (a + b)[i] != (a + b)[j] {
      if j >= |a| && i < |a| {
        assert (a + b)[i] in a && (a + b)[j] in b;
      }
    }
  }

  /** Distinct keeps exactly the elements of s, each once. */
  lemma {:induction false} DistinctSpec<K>(s: seq<K>)
    ensures NoDup(Distinct(s))
    ensures forall x :: x in Distinct(s) <==> x in s
    decreases |s|
  {
    if |s| > 0 {
      var p := s[..|s| - 1];
      DistinctSpec(p);
      assert s == p + [s[|s| - 1]];
      forall x ensures x in s <==> x in p || x == s[|s| - 1] {
        assert x in s <==> x in p + [s[|s| - 1]];
      }
    }
  }

  /** Distinct lists its keys in the order of their first occurrence in s. */
  lemma {:induction false} DistinctFirstSeenOrder<K>(s: seq<K>, i: nat, j: nat)
    requires i < j < |Distinct(s)|
    ensures Distinct(s)[i] in s && Distinct(s)[j] in s
    ensures FirstIndex(s, Distinct(s)[i]) < FirstIndex(s, Distinct(s)[j])
    decreases |s|
  {
    DistinctSpec(s);
    var p := s[..|s| - 1];
    var x := s[|s| - 1];
    DistinctSpec(p);
    var d := Distinct(s);
    var a, b := d[i], d[j];
    assert forall y :: y in p ==> FirstIndex(s, y) == FirstIndex(p, y) by {
      forall y | y in p ensures FirstIndex(s, y) == FirstIndex(p, y) {
        FirstIndexOfPrefix(s, |s| - 1, y);
      }
    }
    if x in Distinct(p) {
      DistinctFirstSeenOrder(p, i, j);
    } else if j < |Distinct(p)| {
      DistinctFirstSeenOrder(p, i, j);
    } else {
      assert d == Distinct(p) + [x];
      assert b == x && a in Distinct(p);
      assert FirstIndex(s, a) < |p|;
      assert x !in p;
      assert FirstIndex(s, b) == |s| - 1 by {
        forall t | 0 <= t < |s| - 1 ensures s[t] != x { assert s[t] == p[t]; }
        FirstIndexIs(s, |s| - 1);
      }
    }
  }

  /** Every element of s occurs in c, and s lists them in the order of their first
      occurrence in c. */
  predicate FirstSeenOrdered<K(==)>(s: seq<K>, c: seq<K>) {
    && (forall i :: 0 <= i < |s| ==> s[i] in c)
    && (forall i, j :: 0 <= i < j < |s| ==> FirstIndex(c, s[i]) < FirstIndex(c, s[j]))
  }

  /** The keys of a dict filled from c come in their first-seen order in c. */
  lemma DistinctOrdered<K>(c: seq<K>)
    ensures FirstSeenOrdered(Distinct(c), c)
  {
    DistinctSpec(c);
    forall i, j | 0 <= i < j < |Distinct(c)|
      ensures FirstIndex(c, Distinct(c)[i]) < FirstIndex(c, Distinct(c)[j])
    {
      DistinctFirstSeenOrder(c, i, j);
    }
  }

  lemma {:induction false} FirstIndexOfPrefix<K>(s: seq<K>, n: nat, y: K)
    requires n <= |s| && y in s[..n]
    ensures y in s && FirstIndex(s, y) == FirstIndex(s[..n], y)
  {
    var i := FirstIndex(s[..n], y);
    FirstIndexIs(s, i);
  }

  /** The first index is the only position holding x with no x before it. */
  lemma {:induction false} FirstIndexIs<K>(s: seq<K>, i: nat)
    requires i < |s| && forall t :: 0 <= t < i ==> s[t] != s[i]
    ensures FirstIndex(s, s[i]) == i
  {
  }

  /** Pushing one more key onto s. */
  lemma {:induction false} DistinctSnoc<K>(s: seq<K>, x: K)
    ensures Distinct(s + [x]) == if x in s then Distinct(s) else Distinct(s) + [x]
  {
    assert (s + [x])[..|s|] == s;
    DistinctSpec(s);
  }

  lemma {:induction false} CountSnoc<K>(s: seq<K>, x: K, k: K)
    ensures Count(s + [x], k) == Count(s, k) + (if x == k then 1 else 0)
  {
    assert (s + [x])[..|s|] == s;
  }

  lemma {:induction false} SumWhereSnoc<K>(s: seq<K>, w: seq<int>, x: K, v: int, k: K)
    requires |s| == |w|
    ensures SumWhere(s + [x], w + [v], k) == SumWhere(s, w, k) + (if x == k then v else 0)
  {
    assert (s + [x])[..|s|] == s;
    assert (w + [v])[..|w|] == w;
  }

  lemma {:induction false} SumSnoc(w: seq<int>, v: int)
    ensures Sum(w + [v]) == Sum(w) + v
  {
    assert (w + [v])[..|w|] == w;
  }

  // ---------------------------------------------------------------------------
  // Totals: the groups of s account for all of s

  /** A key that does not occur has count 0 and no weight. */
  lemma {:induction false} AbsentKey<K>(s: seq<K>, w: seq<int>, k: K)
    requires |s| == |w| && k !in s
    ensures Count(s, k) == 0 && SumWhere(s, w, k) == 0
    decreases |s|
  {
    if |s| > 0 {
      assert s[..|s| - 1] + [s[|s| - 1]] == s;
      assert k !in s[..|s| - 1];
      AbsentKey(s[..|s| - 1], w[..|w| - 1], k);
    }
  }

  /** Adding one occurrence of x raises the sum of counts over distinct keys by one
      exactly when x is among those keys. */
  lemma {:induction false} CountOverSnoc<K>(s: seq<K>, x: K, keys: seq<K>)
    requires NoDup(keys)
    ensures CountOver(s + [x], keys) == CountOver(s, keys) + (if x in keys then 1 else 0)
    decreases |keys|
  {
    if |keys| > 0 {
      var ks := keys[..|keys| - 1];
      var last := keys[|keys| - 1];
      assert keys == ks + [last];
      assert NoDup(ks);
      CountOverSnoc(s, x, ks);
      CountSnoc(s, x, last);
      assert x in keys <==> x in ks || x == last;
      assert x in ks ==> x != last;
    }
  }

  lemma {:induction false} SumOverSnoc<K>(s: seq<K>, w: seq<int>, x: K, v: int, keys: seq<K>)
    requires |s| == |w| && NoDup(keys)
    ensures SumOver(s + [x], w + [v], keys) == SumOver(s, w, keys) + (if x in keys then v else 0)
    decreases |keys|
  {
    if |keys| > 0 {
      var ks := keys[..|keys| - 1];
      var last := keys[|keys| - 1];
      assert keys == ks + [last];
      assert NoDup(ks);
      SumOverSnoc(s, w, x, v, ks);
      SumWhereSnoc(s, w, x, v, last);
      assert x in keys <==> x in ks || x == last;
      assert x in ks ==> x != last;
    }
  }

  lemma {:induction false} CountOverAppendKey<K>(s: seq<K>, keys: seq<K>, k: K)
    ensures CountOver(s, keys + [k]) == CountOver(s, keys) + Count(s, k)
  {
    assert (keys + [k])[..|keys|] == keys;
  }

  lemma {:induction false} SumOverAppendKey<K>(s: seq<K>, w: seq<int>, keys: seq<K>, k: K)
    requires |s| == |w|
    ensures SumOver(s, w, keys + [k]) == SumOver(s, w, keys) + SumWhere(s, w, k)
  {
    assert (keys + [k])[..|keys|] == keys;
  }

  /** The per-key counts over the distinct keys of s add up to |s|. */
  lemma {:induction false} CountsTotal<K>(s: seq<K>)
    ensures CountOver(s, Distinct(s)) == |s|
    decreases |s|
  {
    if |s| > 0 {
      var p := s[..|s| - 1];
      var x := s[|s| - 1];
      assert s == p + [x];
      CountsTotal(p);
      DistinctSpec(p);
      DistinctSnoc(p, x);
      CountOverSnoc(p, x, Distinct(p));
      if x !in p {
        CountOverAppendKey(s, Distinct(p), x);
        AbsentKey(p, seq(|p|, _ => 0), x);
        CountSnoc(p, x, x);
      }
    }
  }

  /** The per-key weight sums over the distinct keys of s add up to the total weight. */
  lemma {:induction false} SumsTotal<K>(s: seq<K>, w: seq<int>)
    requires |s| == |w|
    ensures SumOver(s, w, Distinct(s)) == Sum(w)
    decreases |s|
  {
    if |s| > 0 {
      var p := s[..|s| - 1];
      var x := s[|s| - 1];
      var wp := w[..|w| - 1];
      var v := w[|w| - 1];
      assert s == p + [x] && w == wp + [v];
      SumsTotal(p, wp);
      DistinctSpec(p);
      DistinctSnoc(p, x);
      SumOverSnoc(p, wp, x, v, Distinct(p));
      SumSnoc(wp, v);
      if x !in p {
        SumOverAppendKey(s, w, Distinct(p), x);
        AbsentKey(p, wp, x);
        SumWhereSnoc(p, wp, x, v, x);
      }
    }
  }

  // ---------------------------------------------------------------------------
  // Tallies

  lemma {:induction false} TallySumIsCountOver<K>(s: seq<K>, t: seq<Entry<K>>, keys: seq<K>)
    requires |t| == |keys|
    requires forall j :: 0 <= j < |t| ==> t[j].count == Count(s, keys[j])
    ensures TallySum(t) == CountOver(s, keys)
    decreases |t|
  {
    if |t| > 0 {
      TallySumIsCountOver(s, t[..|t| - 1], keys[..|keys| - 1]);
    }
  }

  /** A tally has one entry per distinct key, in first-seen order, with that key's count,
      and its counts add up to the number of keys tallied. */
  lemma {:induction false} TallySpec<K>(s: seq<K>)
    ensures Keys(TallyOf(s)) == Distinct(s)
    ensures NoDup(Keys(TallyOf(s)))
    ensures forall k :: k in Keys(TallyOf(s)) <==> k in s
    ensures forall j :: 0 <= j < |TallyOf(s)| ==> TallyOf(s)[j].count == Count(s, TallyOf(s)[j].key) > 0
    ensures TallySum(TallyOf(s)) == |s|
  {
    var t := TallyOf(s);
    DistinctSpec(s);
    forall j | 0 <= j < |t| ensures t[j].count > 0 {
      DistinctMember(s, j);
      CountPositive(s, t[j].key);
    }
    TallySumIsCountOver(s, t, Distinct(s));
    CountsTotal(s);
  }

  lemma DistinctMember<K>(s: seq<K>, j: nat)
    requires j < |Distinct(s)|
    ensures Distinct(s)[j] in s
  {
    DistinctSpec(s);
    assert Distinct(s)[j] in Distinct(s);
  }

  lemma {:induction false} CountPositive<K>(s: seq<K>, k: K)
    requires k in s
    ensures Count(s, k) > 0
    decreases |s|
  {
    var p := s[..|s| - 1];
    assert s == p + [s[|s| - 1]];
    if s[|s| - 1] != k {
      assert k in p;
      CountPositive(p, k);
    }
  }

  // ---------------------------------------------------------------------------
  // Tables filled by a loop

  /** m maps exactly the keys of s, each to its number of occurrences: the state of a dict
      after `m[k] = m.get(k, 0) + 1` for every k of s. */
  ghost predicate CountTable<K(!new)>(s: seq<K>, m: map<K, nat>) {
    (forall k :: k in m <==> k in s) && forall k :: k in m ==> m[k] == Count(s, k)
  }

  /** m maps exactly the keys of s, each to the sum of its weights. */
  ghost predicate SumTable<K(!new)>(s: seq<K>, w: seq<int>, m: map<K, int>)
    requires |s| == |w|
  {
    (forall k :: k in m <==> k in s) && forall k :: k in m ==> m[k] == SumWhere(s, w, k)
  }

  lemma CountTableStep<K(!new)>(s: seq<K>, m: map<K, nat>, x: K)
    requires CountTable(s, m)
    ensures CountTable(s + [x], m[x := (if x in m then m[x] else 0) + 1])
  {
    forall k ensures Count(s + [x], k) == Count(s, k) + (if x == k then 1 else 0) {
      CountSnoc(s, x, k);
    }
    if x !in m {
      AbsentKey(s, seq(|s|, _ => 0), x);
    }
  }

  lemma SumTableStep<K(!new)>(s: seq<K>, w: seq<int>, m: map<K, int>, x: K, v: int)
    requires |s| == |w| && SumTable(s, w, m)
    ensures SumTable(s + [x], w + [v], m[x := (if x in m then m[x] else 0) + v])
  {
    forall k ensures SumWhere(s + [x], w + [v], k) == SumWhere(s, w, k) + (if x == k then v else 0) {
      SumWhereSnoc(s, w, x, v, k);
    }
    if x !in m {
      AbsentKey(s, w, x);
    }
  }

  /** The first-seen order, the counts and the sums after one more key x of weight v. */
  ghost predicate GroupTables<K(!new)>(s: seq<K>, w: seq<int>, order: seq<K>, counts: map<K, nat>, sums: map<K, int>)
    requires |s| == |w|
  {
    order == Distinct(s) && CountTable(s, counts) && SumTable(s, w, sums)
  }

  lemma GroupTablesStep<K(!new)>(s: seq<K>, w: seq<int>, order: seq<K>, counts: map<K, nat>, sums: map<K, int>,
                                 x: K, v: int, order': seq<K>, counts': map<K, nat>, sums': map<K, int>)
    requires |s| == |w| && GroupTables(s, w, order, counts, sums)
    requires order' == if x in counts then order else order + [x]
    requires counts' == counts[x := (if x in counts then counts[x] else 0) + 1]
    requires sums' == sums[x := (if x in sums then sums[x] else 0) + v]
    ensures GroupTables(s + [x], w + [v], order', counts', sums')
  {
    DistinctSnoc(s, x);
    CountTableStep(s, counts, x);
    SumTableStep(s, w, sums, x, v);
  }

  /** The first-seen order and the counts after one more key x. */
  lemma CountTablesStep<K(!new)>(s: seq<K>, order: seq<K>, counts: map<K, nat>, x: K,
                                 order': seq<K>, counts': map<K, nat>)
    requires order == Distinct(s) && CountTable(s, counts)
    requires order' == if x in counts then order else order + [x]
    requires counts' == counts[x := (if x in counts then counts[x] else 0) + 1]
    ensures order' == Distinct(s + [x]) && CountTable(s + [x], counts')
  {
    DistinctSnoc(s, x);
    CountTableStep(s, counts, x);
  }

  /** `counts.items()` for a dictionary whose keys were inserted in the given order. */
  function Items<K>(order: seq<K>, counts: map<K, nat>): seq<Entry<K>>
    requires forall k :: k in order ==> k in counts
  {
    seq(|order|, j requires 0 <= j < |order| => Entry(order[j], counts[order[j]]))
  }

  /** A table of first-seen order and counts holds exactly the tally of s. */
  lemma ItemsTally<K(!new)>(s: seq<K>, order: seq<K>, counts: map<K, nat>)
    requires order == Distinct(s) && CountTable(s, counts)
    ensures forall k :: k in order ==> k in counts
    ensures Items(order, counts) == TallyOf(s)
  {
    DistinctSpec(s);
  }

  /** Counts the keys of s into a map, remembering the order of first insertion,
      and returns the resulting (key, count) items in that order. */
  method Tally<K(==, !new)>(s: seq<K>) returns (t: seq<Entry<K>>)
    ensures t == TallyOf(s)
  {
    var order: seq<K> := [];
    var counts: map<K, nat> := map[];
    for i := 0 to |s|
      invariant order == Distinct(s[..i])
      invariant CountTable(s[..i], counts)
    {
      var k := s[i];
      assert s[..i + 1] == s[..i] + [k];
      DistinctSnoc(s[..i], k);
      CountTableStep(s[..i], counts, k);
      if k !in counts {
        order := order + [k];
      }
      counts := counts[k := (if k in counts then counts[k] else 0) + 1];
    }
    assert s[..|s|] == s;
    ItemsTally(s, order, counts);
    t := Items(order, counts);
  }
}
