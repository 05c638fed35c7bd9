/**
 * Repository analytics: a tracker of the repositories created in a run, with
 * counting summaries (privacy, owners, templates), naming-convention
 * statistics and a rule-based list of recommendations.
 */
module Analytics {
  import opened Wrappers
  import opened Text
  import opened Grouping

  /** One tracked repository; its creation time and free-form metadata are not modelled. */
  datatype RepoRecord = RepoRecord(name: string, owner: string, isPrivate: bool, template: Option<string>)

  /** `repo.get("template") or "none"`: a missing or empty template is grouped under "none". */
  function TemplateKey(t: Option<string>): (k: string)
    ensures t.None? || t.value == "" ==> k == "none"
    ensures t.Some? && t.value != "" ==> k == t.value
  {
    if t.None? || t.value == "" then "none" else t.value
  }

  function Names(repos: seq<RepoRecord>): (r: seq<string>)
    ensures |r| == |repos| && forall i :: 0 <= i < |repos| ==> r[i] == repos[i].name
  {
    seq(|repos|, i requires 0 <= i < |repos| => repos[i].name)
  }

  function Owners(repos: seq<RepoRecord>): (r: seq<string>)
    ensures |r| == |repos| && forall i :: 0 <= i < |repos| ==> r[i] == repos[i].owner
  {
    seq(|repos|, i requires 0 <= i < |repos| => repos[i].owner)
  }

  function TemplateKeys(repos: seq<RepoRecord>): (r: seq<string>)
    ensures |r| == |repos| && forall i :: 0 <= i < |repos| ==> r[i] == TemplateKey(repos[i].template)
  {
    seq(|repos|, i requires 0 <= i < |repos| => TemplateKey(repos[i].template))
  }

  /** `sum(1 for r in repos if r["private"])`. */
  function PrivateCount(repos: seq<RepoRecord>): (n: nat)
    ensures n <= |repos|
    decreases |repos|
  {
    if |repos| == 0 then 0
    else PrivateCount(repos[..|repos| - 1]) + (if repos[|repos| - 1].isPrivate then 1 else 0)
  }

  /** No private repository counted means all are public; all counted means all are private. */
  lemma {:induction false} PrivateCountSpec(repos: seq<RepoRecord>)
    ensures PrivateCount(repos) == 0 <==> forall i :: 0 <= i < |repos| ==> !repos[i].isPrivate
    ensures PrivateCount(repos) == |repos| <==> forall i :: 0 <= i < |repos| ==> repos[i].isPrivate
    decreases |repos|
  {
    if |repos| > 0 {
      var p := repos[..|repos| - 1];
      PrivateCountSpec(p);
      assert forall i :: 0 <= i < |p| ==> p[i] == repos[i];
    }
  }

  // ---------------------------------------------------------------------------
  // Naming conventions

  /** Kebab case: a "-" and no "_". */
  predicate IsKebab(n: string) { '-' in n && '_' !in n }

  /** Snake case: any "_". */
  predicate IsSnake(n: string) { '_' in n }

  /** From position i, `[a-zA-Z0-9]*[A-Z]` matches a prefix of n[i..]. */
  predicate CamelFrom(n: string, i: nat)
    decreases |n| - i
  {
    i < |n| && (IsUpper(n[i]) || (IsAlnum(n[i]) && CamelFrom(n, i + 1)))
  }

  /** `re.match(r"^[a-z][a-zA-Z0-9]*[A-Z]", n)`. */
  predicate IsCamel(n: string) { |n| > 0 && IsLower(n[0]) && CamelFrom(n, 1) }

  lemma {:induction false} CamelFromSpec(n: string, i: nat)
    ensures CamelFrom(n, i) <==>
      exists j :: i <= j < |n| && IsUpper(n[j]) && forall k :: i <= k < j ==> IsAlnum(n[k])
    decreases |n| - i
  {
    if i < |n| {
      if !IsUpper(n[i]) {
        CamelFromSpec(n, i + 1);
        if CamelFrom(n, i) {
          var j :| i + 1 <= j < |n| && IsUpper(n[j]) && forall k :: i + 1 <= k < j ==> IsAlnum(n[k]);
          assert forall k :: i <= k < j ==> IsAlnum(n[k]);
        }
        if j :| i <= j < |n| && IsUpper(n[j]) && forall k :: i <= k < j ==> IsAlnum(n[k]) {
          assert j != i && IsAlnum(n[i]);
          assert i + 1 <= j < |n| && IsUpper(n[j]) && forall k :: i + 1 <= k < j ==> IsAlnum(n[k]);
        }
      }
    }
  }

  /** A name is camel case exactly when it starts with a lower-case letter and
      some upper-case letter follows after letters and digits only. */
  lemma IsCamelSpec(n: string)
    ensures IsCamel(n) <==> (|n| > 0 && IsLower(n[0]) &&
      exists j :: 1 <= j < |n| && IsUpper(n[j]) && forall k :: 1 <= k < j ==> IsAlnum(n[k]))
  {
    CamelFromSpec(n, 1);
  }

  /** `sum(1 for n in names if p(n))`. */
  function CountWhere(names: seq<string>, p: string -> bool): nat
    decreases |names|
  {
    if |names| == 0 then 0
    else CountWhere(names[..|names| - 1], p) + (if p(names[|names| - 1]) then 1 else 0)
  }

  /** The count is at most the number of names, and positive exactly when some name qualifies. */
  lemma {:induction false} CountWhereSpec(names: seq<string>, p: string -> bool)
    ensures CountWhere(names, p) <= |names|
    ensures CountWhere(names, p) > 0 <==> exists i :: 0 <= i < |names| && p(names[i])
    decreases |names|
  {
    if |names| > 0 {
      var q := names[..|names| - 1];
      CountWhereSpec(q, p);
      assert forall i :: 0 <= i < |q| ==> q[i] == names[i];
      if CountWhere(q, p) > 0 {
        var i :| 0 <= i < |q| && p(q[i]);
        assert p(names[i]);
      }
    }
  }

  /** No name is both kebab and snake case, so the two counts never exceed the total. */
  lemma {:induction false} KebabSnakeBound(names: seq<string>)
    ensures CountWhere(names, IsKebab) + CountWhere(names, IsSnake) <= |names|
    decreases |names|
  {
    if |names| > 0 {
      KebabSnakeBound(names[..|names| - 1]);
    }
  }

  /** `min(names, key=len)`: the position of the first shortest name. */
  function ShortestIndex(names: seq<string>): (i: nat)
    requires |names| > 0
    ensures i < |names|
    ensures forall j :: 0 <= j < |names| ==> |names[i]| <= |names[j]|
    ensures forall j :: 0 <= j < i ==> |names[j]| > |names[i]|
    decreases |names|
  {
    if |names| == 1 then 0
    else
      var k := ShortestIndex(names[..|names| - 1]);
      if |names[|names| - 1]| < |names[k]| then |names| - 1 else k
  }

  /** `max(names, key=len)`: the position of the first longest name. */
  function LongestIndex(names: seq<string>): (i: nat)
    requires |names| > 0
    ensures i < |names|
    ensures forall j :: 0 <= j < |names| ==> |names[i]| >= |names[j]|
    ensures forall j :: 0 <= j < i ==> |names[j]| < |names[i]|
    decreases |names|
  {
    if |names| == 1 then 0
    else
      var k := LongestIndex(names[..|names| - 1]);
      if |names[|names| - 1]| > |names[k]| then |names| - 1 else k
  }

  // ---------------------------------------------------------------------------
  // Common prefixes

  /** Name n contributes prefix k: it has a "-", k is the text before the first
      one, and k has at most 10 characters. */
  predicate HasPrefix(n: string, k: string) { '-' in n && Before(n, '-') == k && |k| <= 10 }

  /** The prefixes the names contribute, in order, one per contributing name. */
  function PrefixKeys(names: seq<string>): seq<string>
    decreases |names|
  {
    if |names| == 0 then []
    else
      var n := names[|names| - 1];
      PrefixKeys(names[..|names| - 1]) + (if '-' in n && |Before(n, '-')| <= 10 then [Before(n, '-')] else [])
  }

  /** A prefix is counted exactly when some name contributes it. */
  lemma {:induction false} PrefixKeysSpec(names: seq<string>)
    ensures forall k :: k in PrefixKeys(names) <==> exists i :: 0 <= i < |names| && HasPrefix(names[i], k)
    decreases |names|
  {
    if |names| > 0 {
      var q := names[..|names| - 1];
      PrefixKeysSpec(q);
      assert forall i :: 0 <= i < |q| ==> q[i] == names[i];
      forall k | exists i :: 0 <= i < |names| && HasPrefix(names[i], k)
        ensures k in PrefixKeys(names)
      {
        var i :| 0 <= i < |names| && HasPrefix(names[i], k);
        if i < |q| {
          assert HasPrefix(q[i], k);
        }
      }
    }
  }

  /** Entries sorted by count, largest first. */
  predicate NonIncreasing<K>(t: seq<Entry<K>>) {
    forall i, j :: 0 <= i < j < |t| ==> t[i].count >= t[j].count
  }

  /** The entries of t with count c, in their order in t. */
  function WithCount<K>(t: seq<Entry<K>>, c: nat): seq<Entry<K>>
    decreases |t|
  {
    if |t| == 0 then []
    else WithCount(t[..|t| - 1], c) + (if t[|t| - 1].count == c then [t[|t| - 1]] else [])
  }

  lemma WithCountSnoc<K>(t: seq<Entry<K>>, x: Entry<K>, c: nat)
    ensures WithCount(t + [x], c) == WithCount(t, c) + (if x.count == c then [x] else [])
  {
    assert (t + [x])[..|t|] == t;
  }

  /** Places e after every entry whose count is at least e's. */
  function Insert<K>(t: seq<Entry<K>>, e: Entry<K>): seq<Entry<K>>
    decreases |t|
  {
    if |t| == 0 || t[|t| - 1].count >= e.count then t + [e]
    else Insert(t[..|t| - 1], e) + [t[|t| - 1]]
  }

  /** `sorted(t, key=count, reverse=True)`: a stable sort, largest count first. */
  function SortByCount<K>(t: seq<Entry<K>>): seq<Entry<K>>
    decreases |t|
  {
    if |t| == 0 then [] else Insert(SortByCount(t[..|t| - 1]), t[|t| - 1])
  }

  lemma {:induction false} InsertMultiset<K>(t: seq<Entry<K>>, e: Entry<K>)
    ensures multiset(Insert(t, e)) == multiset(t) + multiset{e}
    decreases |t|
  {
    if |t| > 0 && t[|t| - 1].count < e.count {
      assert t == t[..|t| - 1] + [t[|t| - 1]];
      InsertMultiset(t[..|t| - 1], e);
    }
  }

  lemma {:induction false} InsertNonIncreasing<K>(t: seq<Entry<K>>, e: Entry<K>)
    requires NonIncreasing(t)
    ensures NonIncreasing(Insert(t, e))
    decreases |t|
  {
    if |t| > 0 && t[|t| - 1].count < e.count {
      var p := t[..|t| - 1];
      var last := t[|t| - 1];
      InsertNonIncreasing(p, e);
      InsertMultiset(p, e);
      var ins := Insert(p, e);
      forall i, j | 0 <= i < j < |ins| + 1 ensures (ins + [last])[i].count >= (ins + [last])[j].count {
        if j == |ins| {
          var x := ins[i];
          assert x in multiset(p) + multiset{e};
          if x != e {
            var a :| 0 <= a < |p| && p[a] == x;
            assert t[a] == x;
          }
        }
      }
    }
  }

  lemma {:induction false} InsertStable<K>(t: seq<Entry<K>>, e: Entry<K>, c: nat)
    ensures WithCount(Insert(t, e), c) == WithCount(t, c) + (if e.count == c then [e] else [])
    decreases |t|
  {
    if |t| == 0 || t[|t| - 1].count >= e.count {
      WithCountSnoc(t, e, c);
    } else {
      var p := t[..|t| - 1];
      var last := t[|t| - 1];
      assert t == p + [last];
      InsertStable(p, e, c);
      WithCountSnoc(Insert(p, e), last, c);
      WithCountSnoc(p, last, c);
    }
  }

  /** The sort orders by count, keeps the entries, and keeps entries of equal count in their order. */
  lemma {:induction false} SortSpec<K>(t: seq<Entry<K>>)
    ensures NonIncreasing(SortByCount(t))
    ensures multiset(SortByCount(t)) == multiset(t)
    ensures forall c :: WithCount(SortByCount(t), c) == WithCount(t, c)
    decreases |t|
  {
    if |t| > 0 {
      var p := t[..|t| - 1];
      var x := t[|t| - 1];
      assert t == p + [x];
      SortSpec(p);
      InsertNonIncreasing(SortByCount(p), x);
      InsertMultiset(SortByCount(p), x);
      forall c ensures WithCount(SortByCount(t), c) == WithCount(t, c) {
        InsertStable(SortByCount(p), x, c);
        WithCountSnoc(p, x, c);
      }
    }
  }

  /** `list(t)[:n]`. */
  function Take<T>(t: seq<T>, n: nat): (r: seq<T>)
    ensures |r| == if |t| <= n then |t| else n
    ensures r == t[..|r|]
  {
    if |t| <= n then t else t[..n]
  }

  /** The five prefixes with the highest counts, largest first. */
  function CommonPrefixes(names: seq<string>): seq<Entry<string>> {
    Take(SortByCount(TallyOf(PrefixKeys(names))), 5)
  }

  lemma SortedLength<K>(t: seq<Entry<K>>)
    ensures |SortByCount(t)| == |t|
    ensures multiset(SortByCount(t)) == multiset(t)
  {
    SortSpec(t);
    assert |multiset(SortByCount(t))| == |multiset(t)|;
  }

  /** The first n entries after sorting are in order and come from t. */
  lemma TopEntries<K>(t: seq<Entry<K>>, n: nat)
    ensures |Take(SortByCount(t), n)| == if |t| <= n then |t| else n
    ensures NonIncreasing(Take(SortByCount(t), n))
    ensures forall j :: 0 <= j < |Take(SortByCount(t), n)| ==> Take(SortByCount(t), n)[j] in t
  {
    var sorted := SortByCount(t);
    var r := Take(sorted, n);
    SortSpec(t);
    SortedLength(t);
    forall j | 0 <= j < |r| ensures r[j] in t {
      assert r[j] == sorted[j];
      assert sorted[j] in multiset(t);
    }
  }

  /** No entry of t left out of the first n after sorting has a larger count than one kept. */
  lemma TopEntriesMaximal<K>(t: seq<Entry<K>>, n: nat)
    ensures forall e :: e in t && e !in Take(SortByCount(t), n) ==>
      forall j :: 0 <= j < |Take(SortByCount(t), n)| ==> e.count <= Take(SortByCount(t), n)[j].count
  {
    var sorted := SortByCount(t);
    var r := Take(sorted, n);
    SortSpec(t);
    SortedLength(t);
    forall e | e in t && e !in r ensures forall j :: 0 <= j < |r| ==> e.count <= r[j].count {
      assert e in multiset(sorted);
      var b :| 0 <= b < |sorted| && sorted[b] == e;
      assert forall j :: 0 <= j < |r| ==> r[j] == sorted[j];
      assert b >= |r|;
    }
  }

  /** At most five prefixes, largest count first, each with its true count. */
  lemma CommonPrefixesCounts(names: seq<string>)
    ensures |CommonPrefixes(names)| == if |Distinct(PrefixKeys(names))| <= 5 then |Distinct(PrefixKeys(names))| else 5
    ensures NonIncreasing(CommonPrefixes(names))
    ensures forall j :: 0 <= j < |CommonPrefixes(names)| ==>
      CommonPrefixes(names)[j].key in PrefixKeys(names) &&
      CommonPrefixes(names)[j].count == Count(PrefixKeys(names), CommonPrefixes(names)[j].key)
  {
    var ks := PrefixKeys(names);
    var t := TallyOf(ks);
    TopEntries(t, 5);
    TallySpec(ks);
    var r := CommonPrefixes(names);
    forall j | 0 <= j < |r| ensures r[j].key in ks && r[j].count == Count(ks, r[j].key) {
      var a :| 0 <= a < |t| && t[a] == r[j];
      assert t[a].key == Keys(t)[a];
    }
  }

  /** No prefix left out of the table has a larger count than one reported. */
  lemma CommonPrefixesTop(names: seq<string>)
    ensures forall k :: k in PrefixKeys(names) && k !in Keys(CommonPrefixes(names)) ==>
      forall j :: 0 <= j < |CommonPrefixes(names)| ==> Count(PrefixKeys(names), k) <= CommonPrefixes(names)[j].count
  {
    var ks := PrefixKeys(names);
    var t := TallyOf(ks);
    TopEntriesMaximal(t, 5);
    TallySpec(ks);
    var r := CommonPrefixes(names);
    forall k | k in ks && k !in Keys(r) ensures forall j :: 0 <= j < |r| ==> Count(ks, k) <= r[j].count {
      assert k in Keys(t);
      var a :| 0 <= a < |t| && Keys(t)[a] == k;
      assert forall b :: 0 <= b < |r| ==> Keys(r)[b] == r[b].key;
      assert t[a] !in r;
    }
  }

  // ---------------------------------------------------------------------------
  // Summary

  datatype NamePatterns = NamePatterns(
    kebabCaseCount: nat,
    snakeCaseCount: nat,
    camelCaseCount: nat,
    commonPrefixes: seq<Entry<string>>,
    shortestName: string,
    longestName: string)

  /** The summary dictionary: either the empty-tracker message or the statistics. */
  datatype Summary =
    | NoRepos(message: string)
    | Stats(
        totalRepos: nat,
        privateRepos: nat,
        publicRepos: nat,
        byOwner: seq<Entry<string>>,
        byTemplate: seq<Entry<string>>,
        namePatterns: Option<NamePatterns>,
        mostActiveOwner: Option<string>,
        mostUsedTemplate: Option<string>)

  const NoReposMessage := "No repositories tracked"

  /** `max(t, key=count)`: the position of the first entry with the largest count. */
  function MaxCountIndex<K>(t: seq<Entry<K>>): (i: nat)
    requires |t| > 0
    ensures i < |t|
    ensures forall j :: 0 <= j < |t| ==> t[j].count <= t[i].count
    ensures forall j :: 0 <= j < i ==> t[j].count < t[i].count
    decreases |t|
  {
    if |t| == 1 then 0
    else
      var k := MaxCountIndex(t[..|t| - 1]);
      if t[|t| - 1].count > t[k].count then |t| - 1 else k
  }

  /** The key of the first entry with the largest count, if any. */
  function MostCommon<K>(t: seq<Entry<K>>): Option<K> {
    if |t| == 0 then None else Some(t[MaxCountIndex(t)].key)
  }

  /** Over the items of a tally: absent only when nothing was counted; otherwise
      a key of maximal count, and the first seen among the keys of that count. */
  lemma MostCommonSpec<K>(s: seq<K>)
    ensures MostCommon(TallyOf(s)).None? <==> |s| == 0
    ensures MostCommon(TallyOf(s)).Some? ==>
      var k := MostCommon(TallyOf(s)).value;
      k in s &&
      (forall x :: x in s ==> Count(s, x) <= Count(s, k)) &&
      (forall x :: x in s && Count(s, x) == Count(s, k) ==> FirstIndex(s, k) <= FirstIndex(s, x))
  {
    var t := TallyOf(s);
    TallySpec(s);
    if |s| > 0 {
      assert s[0] in Keys(t);
    }
    if |t| > 0 {
      var i := MaxCountIndex(t);
      var k := t[i].key;
      assert k == Keys(t)[i];
      forall x | x in s ensures Count(s, x) <= Count(s, k) && (Count(s, x) == Count(s, k) ==> FirstIndex(s, k) <= FirstIndex(s, x)) {
        assert x in Keys(t);
        var j :| 0 <= j < |t| && Keys(t)[j] == x;
        if Count(s, x) == Count(s, k) && j != i {
          assert i < j;
          DistinctFirstSeenOrder(s, i, j);
        }
      }
    }
  }

  /** `_analyze_name_patterns` on the names: nothing for no names. */
  function NamePatternsOf(names: seq<string>): (r: Option<NamePatterns>)
    ensures r.None? <==> |names| == 0
  {
    if |names| == 0 then None
    else Some(NamePatterns(
      CountWhere(names, IsKebab),
      CountWhere(names, IsSnake),
      CountWhere(names, IsCamel),
      CommonPrefixes(names),
      names[ShortestIndex(names)],
      names[LongestIndex(names)]))
  }

  /** `get_summary` over the tracked repositories. */
  function SummaryOf(repos: seq<RepoRecord>): Summary {
    if |repos| == 0 then NoRepos(NoReposMessage)
    else
      var byOwner := TallyOf(Owners(repos));
      var byTemplate := TallyOf(TemplateKeys(repos));
      Stats(|repos|, PrivateCount(repos), |repos| - PrivateCount(repos), byOwner, byTemplate,
            NamePatternsOf(Names(repos)), MostCommon(byOwner), MostCommon(byTemplate))
  }

  /** `d.get(k, 0)` on the items of a dictionary. */
  function Lookup<K(==)>(t: seq<Entry<K>>, k: K): nat
    decreases |t|
  {
    if |t| == 0 then 0 else if t[0].key == k then t[0].count else Lookup(t[1..], k)
  }

  lemma {:induction false} LookupAt<K>(t: seq<Entry<K>>, j: nat)
    requires j < |t| && NoDup(Keys(t))
    ensures Lookup(t, t[j].key) == t[j].count
    decreases |t|
  {
    if j > 0 {
      assert Keys(t)[0] != Keys(t)[j];
      assert Keys(t[1..]) == Keys(t)[1..];
      LookupAt(t[1..], j - 1);
    }
  }

  lemma {:induction false} LookupAbsent<K>(t: seq<Entry<K>>, k: K)
    requires k !in Keys(t)
    ensures Lookup(t, k) == 0
    decreases |t|
  {
    if |t| > 0 {
      assert Keys(t)[0] == t[0].key;
      assert Keys(t[1..]) == Keys(t)[1..];
      LookupAbsent(t[1..], k);
    }
  }

  /** Looking a key up in a tally gives its number of occurrences. */
  lemma LookupTally<K>(s: seq<K>, k: K)
    ensures Lookup(TallyOf(s), k) == Count(s, k)
  {
    var t := TallyOf(s);
    TallySpec(s);
    if k in s {
      assert k in Keys(t);
      var j :| 0 <= j < |t| && Keys(t)[j] == k;
      LookupAt(t, j);
    } else {
      LookupAbsent(t, k);
      AbsentKey(s, seq(|s|, _ => 0), k);
    }
  }

  /** The counts of a non-empty summary are consistent with the records. */
  lemma SummaryCounts(repos: seq<RepoRecord>)
    ensures SummaryOf(repos).NoRepos? <==> |repos| == 0
    ensures |repos| > 0 ==>
      var s := SummaryOf(repos);
      s.totalRepos == |repos| &&
      s.privateRepos + s.publicRepos == s.totalRepos &&
      TallySum(s.byOwner) == s.totalRepos &&
      TallySum(s.byTemplate) == s.totalRepos &&
      (forall o :: o in Keys(s.byOwner) <==> o in Owners(repos)) &&
      (forall k :: k in Keys(s.byTemplate) <==> k in TemplateKeys(repos)) &&
      Lookup(s.byTemplate, "none") == Count(TemplateKeys(repos), "none")
  {
    if |repos| > 0 {
      TallySpec(Owners(repos));
      TallySpec(TemplateKeys(repos));
      LookupTally(TemplateKeys(repos), "none");
    }
  }

  // ---------------------------------------------------------------------------
  // Recommendations

  /** The recommendations `get_recommendations` can make. */
  datatype Hint = CreateRepos | AllPublic | AllPrivate | NoTemplates | MixedNaming | SpreadOwners(owners: nat)

  /** The message of each recommendation. */
  function HintText(h: Hint): string {
    match h
    case CreateRepos => "Create some repositories to get recommendations"
    case AllPublic => "\U{26A0}\U{FE0F}  All repositories are public. Consider making sensitive repositories private."
    case AllPrivate => "\U{2139}\U{FE0F}  All repositories are private. Consider open-sourcing some if appropriate."
    case NoTemplates => "\U{1F4A1} Many repositories without templates. Consider using templates for consistency."
    case MixedNaming =>
      "\U{1F4DD} Mixed naming conventions detected (kebab-case and snake_case). Consider standardizing on one convention."
    case SpreadOwners(n) =>
      "\U{1F3E2} Repositories spread across " + NatToString(n)
      + " owners. Consider consolidating under fewer organizations for easier management."
  }

  /** The privacy rule on integer counts: none private, or all private. */
  function PrivacyHint(privateCount: nat, total: nat): seq<Hint> {
    if privateCount == 0 then [AllPublic] else if privateCount == total then [AllPrivate] else []
  }

  /** `template_stats.get("none", 0) > total * 0.3`, on integers. */
  function TemplateHint(none: nat, total: nat): seq<Hint> {
    if 10 * none > 3 * total then [NoTemplates] else []
  }

  function NamingHint(kebab: nat, snake: nat): seq<Hint> {
    if kebab > 0 && snake > 0 then [MixedNaming] else []
  }

  function OwnerHint(ownerCount: nat): seq<Hint> {
    if ownerCount > 3 then [SpreadOwners(ownerCount)] else []
  }

  /** The rules for a non-empty tracker, in order, on the numbers they read. */
  function HintsFor(privateCount: nat, total: nat, none: nat, kebab: nat, snake: nat, owners: nat): seq<Hint> {
    PrivacyHint(privateCount, total) + TemplateHint(none, total) + NamingHint(kebab, snake) + OwnerHint(owners)
  }

  /** Each rule fires exactly on its condition, and the empty-tracker hint is never among them. */
  lemma HintsForSpec(privateCount: nat, total: nat, none: nat, kebab: nat, snake: nat, owners: nat)
    ensures var r := HintsFor(privateCount, total, none, kebab, snake, owners);
      |r| <= 4 && CreateRepos !in r &&
      (AllPublic in r <==> privateCount == 0) &&
      (AllPrivate in r <==> privateCount != 0 && privateCount == total) &&
      (NoTemplates in r <==> 10 * none > 3 * total) &&
      (MixedNaming in r <==> kebab > 0 && snake > 0) &&
      (forall n :: SpreadOwners(n) in r <==> n == owners && owners > 3)
  {
    var r := HintsFor(privateCount, total, none, kebab, snake, owners);
    var p := PrivacyHint(privateCount, total);
    var t := TemplateHint(none, total);
    var m := NamingHint(kebab, snake);
    var o := OwnerHint(owners);
    assert r == p + t + m + o;
    forall h ensures h in r <==> h in p || h in t || h in m || h in o {
    }
  }

  function KebabOf(patterns: Option<NamePatterns>): nat {
    if patterns.Some? then patterns.value.kebabCaseCount else 0
  }

  function SnakeOf(patterns: Option<NamePatterns>): nat {
    if patterns.Some? then patterns.value.snakeCaseCount else 0
  }

  /** The hints `get_recommendations` derives from a summary, in order. */
  function HintsOf(s: Summary): seq<Hint> {
    match s
    case NoRepos(_) => [CreateRepos]
    case Stats(total, priv, _, byOwner, byTemplate, patterns, _, _) =>
      HintsFor(priv, total, Lookup(byTemplate, "none"), KebabOf(patterns), SnakeOf(patterns), |byOwner|)
  }

  /** The hints of a tracker: the empty-tracker hint alone, or the rules applied
      to its private count, template-less count, naming counts and owners. */
  lemma HintsOfSummary(repos: seq<RepoRecord>)
    ensures |repos| == 0 ==> HintsOf(SummaryOf(repos)) == [CreateRepos]
    ensures |repos| > 0 ==> (HintsOf(SummaryOf(repos)) ==
      HintsFor(PrivateCount(repos), |repos|, Count(TemplateKeys(repos), "none"),
               CountWhere(Names(repos), IsKebab), CountWhere(Names(repos), IsSnake), |Distinct(Owners(repos))|))
  {
    if |repos| > 0 {
      TallySpec(Owners(repos));
      LookupTally(TemplateKeys(repos), "none");
    }
  }

  /** The public warning fires exactly when no repository is private, the private note exactly when all are. */
  lemma PrivacyRule(repos: seq<RepoRecord>)
    requires |repos| > 0
    ensures PrivateCount(repos) == 0 <==> forall i :: 0 <= i < |repos| ==> !repos[i].isPrivate
    ensures PrivateCount(repos) != 0 && PrivateCount(repos) == |repos| <==>
      forall i :: 0 <= i < |repos| ==> repos[i].isPrivate
  {
    PrivateCountSpec(repos);
    if forall i :: 0 <= i < |repos| ==> repos[i].isPrivate {
      assert repos[0].isPrivate;
    }
  }

  /** The naming rule's counts are both positive exactly when some name is kebab case and some is snake case. */
  lemma NamingRule(repos: seq<RepoRecord>)
    ensures CountWhere(Names(repos), IsKebab) > 0 && CountWhere(Names(repos), IsSnake) > 0 <==>
      (exists i :: 0 <= i < |repos| && IsKebab(repos[i].name)) &&
      (exists i :: 0 <= i < |repos| && IsSnake(repos[i].name))
  {
    var names := Names(repos);
    CountWhereSpec(names, IsKebab);
    CountWhereSpec(names, IsSnake);
    if exists i :: 0 <= i < |repos| && IsKebab(repos[i].name) {
      var i :| 0 <= i < |repos| && IsKebab(repos[i].name);
      assert IsKebab(names[i]);
    }
    if exists i :: 0 <= i < |repos| && IsSnake(repos[i].name) {
      var i :| 0 <= i < |repos| && IsSnake(repos[i].name);
      assert IsSnake(names[i]);
    }
  }

  /** The messages of a list of hints, in order. */
  function Texts(hs: seq<Hint>): seq<string>
    decreases |hs|
  {
    if |hs| == 0 then [] else Texts(hs[..|hs| - 1]) + [HintText(hs[|hs| - 1])]
  }

  /** `get_recommendations` as messages. */
  function RecommendationsOf(repos: seq<RepoRecord>): seq<string> {
    Texts(HintsOf(SummaryOf(repos)))
  }

  /** Appends the message of hint h to the messages of hints hs. */
  method Say(recs: seq<string>, h: Hint, ghost hs: seq<Hint>) returns (recs': seq<string>)
    requires recs == Texts(hs)
    ensures recs' == Texts(hs + [h])
  {
    assert (hs + [h])[..|hs|] == hs;
    recs' := recs + [HintText(h)];
  }

  /** Privacy: a warning when no repository is private, else a note when all are. */
  method AdvisePrivacy(recs: seq<string>, ghost hs: seq<Hint>, privateCount: nat, total: nat)
    returns (recs': seq<string>)
    requires recs == Texts(hs)
    ensures recs' == Texts(hs + PrivacyHint(privateCount, total))
  {
    recs' := recs;
    if privateCount == 0 {
      recs' := Say(recs, AllPublic, hs);
    } else if privateCount == total {
      recs' := Say(recs, AllPrivate, hs);
    } else {
      assert hs + [] == hs;
    }
  }

  /** Templates: a hint when more than 30% of the repositories have none. */
  method AdviseTemplates(recs: seq<string>, ghost hs: seq<Hint>, byTemplate: seq<Entry<string>>, total: nat)
    returns (recs': seq<string>)
    requires recs == Texts(hs)
    ensures recs' == Texts(hs + TemplateHint(Lookup(byTemplate, "none"), total))
  {
    recs' := recs;
    var none := Lookup(byTemplate, "none");
    if 10 * none > 3 * total {
      recs' := Say(recs, NoTemplates, hs);
    } else {
      assert hs + [] == hs;
    }
  }

  /** Naming: a hint when both kebab-case and snake_case names occur. */
  method AdviseNaming(recs: seq<string>, ghost hs: seq<Hint>, patterns: Option<NamePatterns>)
    returns (recs': seq<string>)
    requires recs == Texts(hs)
    ensures recs' == Texts(hs + NamingHint(KebabOf(patterns), SnakeOf(patterns)))
  {
    recs' := recs;
    if patterns.Some? {
      var kebab := patterns.value.kebabCaseCount;
      var snake := patterns.value.snakeCaseCount;
      if kebab > 0 && snake > 0 {
        recs' := Say(recs, MixedNaming, hs);
      } else {
        assert hs + [] == hs;
      }
    } else {
      assert hs + [] == hs;
    }
  }

  /** Owners: a hint naming their number when there are more than three. */
  method AdviseOwners(recs: seq<string>, ghost hs: seq<Hint>, byOwner: seq<Entry<string>>)
    returns (recs': seq<string>)
    requires recs == Texts(hs)
    ensures recs' == Texts(hs + OwnerHint(|byOwner|))
  {
    recs' := recs;
    var ownerCount := |byOwner|;
    if ownerCount > 3 {
      recs' := Say(recs, SpreadOwners(ownerCount), hs);
    } else {
      assert hs + [] == hs;
    }
  }

  /** The rules of `get_recommendations`, applied in order to a summary. */
  method Recommend(summary: Summary) returns (recs: seq<string>)
    ensures recs == Texts(HintsOf(summary))
  {
    if summary.NoRepos? {
      recs := Say([], CreateRepos, []);
      assert [] + [CreateRepos] == [CreateRepos];
      return;
    }
    var total := summary.totalRepos;
    ghost var hs: seq<Hint> := [];
    recs := [];
    recs := AdvisePrivacy(recs, hs, summary.privateRepos, total);
    hs := hs + PrivacyHint(summary.privateRepos, total);
    recs := AdviseTemplates(recs, hs, summary.byTemplate, total);
    hs := hs + TemplateHint(Lookup(summary.byTemplate, "none"), total);
    recs := AdviseNaming(recs, hs, summary.namePatterns);
    hs := hs + NamingHint(KebabOf(summary.namePatterns), SnakeOf(summary.namePatterns));
    recs := AdviseOwners(recs, hs, summary.byOwner);
    hs := hs + OwnerHint(|summary.byOwner|);
    assert [] + PrivacyHint(summary.privateRepos, total) == PrivacyHint(summary.privateRepos, total);
    assert hs == HintsOf(summary);
  }

  // ---------------------------------------------------------------------------
  // The percentage test as written

  /** `round(p / t * 100, 1)` in tenths of a percent, halves rounded to even. */
  function RoundedTenths(p: nat, t: nat): nat
    requires t > 0
  {
    var q := 1000 * p / t;
    var r := 1000 * p % t;
    if 2 * r > t || (2 * r == t && q % 2 == 1) then q + 1 else q
  }

  /** The privacy rule as written: on the rounded percentage. */
  function PrivacyHintAsWritten(privateCount: nat, total: nat): seq<Hint>
    requires total > 0
  {
    var pct := RoundedTenths(privateCount, total);
    if pct == 0 then [AllPublic] else if pct == 1000 then [AllPrivate] else []
  }

  /** With 3000 repositories of which one is private, the rounded percentage is 0.0
      and the public warning fires; with 2999 private it is 100.0 and the private note fires. */
  lemma PrivacyAsWrittenMisfires()
    ensures PrivacyHintAsWritten(1, 3000) == [AllPublic] && PrivacyHint(1, 3000) == []
    ensures PrivacyHintAsWritten(2999, 3000) == [AllPrivate] && PrivacyHint(2999, 3000) == []
  {
  }

  /** Below 2000 repositories the rounded test agrees with the integer one. */
  lemma PrivacyAsWrittenAgrees(privateCount: nat, total: nat)
    requires 0 < total < 2000 && privateCount <= total
    ensures PrivacyHintAsWritten(privateCount, total) == PrivacyHint(privateCount, total)
  {
    var a := 1000 * privateCount;
    var q := a / total;
    var r := a % total;
    assert a == q * total + r && 0 <= r < total;
    if privateCount == 0 {
      assert q == 0 && r == 0;
    } else if privateCount == total {
      if q >= 1001 {
        MulMono(1001, q, total);
      } else if q <= 999 {
        MulMono(q, 999, total);
      }
      assert q == 1000;
    } else {
      assert a <= 1000 * total - 1000;
      if q >= 1000 {
        MulMono(1000, q, total);
      }
      assert 1 <= q || r == a;
      if q == 999 {
        assert r == a - 999 * total;
      }
    }
  }

  lemma MulMono(x: nat, y: nat, t: nat)
    requires x <= y
    ensures x * t <= y * t
  {
  }

  // ---------------------------------------------------------------------------
  // The tracker

  lemma PrefixKeysSnoc(names: seq<string>, i: nat)
    requires i < |names|
    ensures PrefixKeys(names[..i + 1]) == PrefixKeys(names[..i]) +
      (if '-' in names[i] && |Before(names[i], '-')| <= 10 then [Before(names[i], '-')] else [])
  {
    assert names[..i + 1][..i] == names[..i];
  }

  /** The prefix loop of `_analyze_name_patterns`: counts the prefix of every
      name with a "-" whose prefix has at most 10 characters. */
  method CountPrefixes(names: seq<string>) returns (prefixes: seq<Entry<string>>)
    ensures prefixes == TallyOf(PrefixKeys(names))
  {
    var order: seq<string> := [];
    var counts: map<string, nat> := map[];
    for i := 0 to |names|
      invariant order == Distinct(PrefixKeys(names[..i]))
      invariant CountTable(PrefixKeys(names[..i]), counts)
    {
      var name := names[i];
      ghost var ks := PrefixKeys(names[..i]);
      PrefixKeysSnoc(names, i);
      if '-' in name && |Before(name, '-')| <= 10 {
        var prefix := Before(name, '-');
        assert PrefixKeys(names[..i + 1]) == ks + [prefix];
        ghost var order0, counts0 := order, counts;
        if prefix !in counts {
          order := order + [prefix];
        }
        counts := counts[prefix := (if prefix in counts then counts[prefix] else 0) + 1];
        CountTablesStep(ks, order0, counts0, prefix, order, counts);
      } else {
        assert PrefixKeys(names[..i + 1]) == ks;
      }
    }
    assert names[..|names|] == names;
    ItemsTally(PrefixKeys(names), order, counts);
    prefixes := Items(order, counts);
  }

  class RepositoryAnalytics {
    var repos: seq<RepoRecord>

    constructor()
      ensures repos == []
    {
      repos := [];
    }

    /** Tracks one more repository after the others. */
    method AddRepository(name: string, owner: string, isPrivate: bool, template: Option<string>)
      modifies this
      ensures repos == old(repos) + [RepoRecord(name, owner, isPrivate, template)]
    {
      repos := repos + [RepoRecord(name, owner, isPrivate, template)];
    }

    method GetSummary() returns (s: Summary)
      ensures s == SummaryOf(repos)
    {
      if |repos| == 0 {
        return NoRepos(NoReposMessage);
      }
      var total := |repos|;
      var privateCount := PrivateCount(repos);
      var publicCount := total - privateCount;
      var byOwner := Tally(Owners(repos));
      var byTemplate := Tally(TemplateKeys(repos));
      var namePatterns := AnalyzeNamePatterns();
      s := Stats(total, privateCount, publicCount, byOwner, byTemplate, namePatterns,
                 MostCommon(byOwner), MostCommon(byTemplate));
    }

    method AnalyzeNamePatterns() returns (r: Option<NamePatterns>)
      ensures r == NamePatternsOf(Names(repos))
    {
      if |repos| == 0 {
        return None;
      }
      var names := Names(repos);
      var prefixes := CountPrefixes(names);
      r := Some(NamePatterns(
        CountWhere(names, IsKebab),
        CountWhere(names, IsSnake),
        CountWhere(names, IsCamel),
        Take(SortByCount(prefixes), 5),
        names[ShortestIndex(names)],
        names[LongestIndex(names)]));
    }

    method GetRecommendations() returns (recs: seq<string>)
      ensures recs == RecommendationsOf(repos)
    {
      var summary := GetSummary();
      recs := Recommend(summary);
    }
  }
}
