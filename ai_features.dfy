/**
 * Repository name suggestions built from a free-text description, and a
 * weighted health checklist over a repository's file list with its rating
 * and recommendations, and the choice of issue template.
 */
module AiFeatures {
  import opened Text
  import Grouping

  // ---------------------------------------------------------------------------
  // Tokens

  /** Length of the run of word characters at the start of s. */
  function WordRun(s: string): (n: nat)
    ensures n <= |s|
    ensures forall i :: 0 <= i < n ==> IsWordChar(s[i])
    ensures n < |s| ==> !IsWordChar(s[n])
    decreases |s|
  {
    if |s| == 0 || !IsWordChar(s[0]) then 0 else 1 + WordRun(s[1..])
  }

  /** `re.findall(r"\b\w+\b", s)`: the maximal runs of word characters, left to right. */
  function Words(s: string): seq<string>
    decreases |s|
  {
    if |s| == 0 then []
    else if !IsWordChar(s[0]) then Words(s[1..])
    else
      var n := WordRun(s);
      [s[..n]] + Words(s[n..])
  }

  /** A non-empty string of word characters. */
  predicate IsWord(w: string) {
    |w| > 0 && forall i :: 0 <= i < |w| ==> IsWordChar(w[i])
  }

  /** Every token is a non-empty run of word characters, so none holds a space. */
  lemma {:induction false} WordsAreWords(s: string)
    ensures forall j :: 0 <= j < |Words(s)| ==> IsWord(Words(s)[j])
    decreases |s|
  {
    if |s| > 0 {
      if !IsWordChar(s[0]) {
        WordsAreWords(s[1..]);
      } else {
        var n := WordRun(s);
        WordsAreWords(s[n..]);
        assert Words(s) == [s[..n]] + Words(s[n..]);
      }
    }
  }

  /** A run of word characters stops at a following non-word character. */
  lemma {:induction false} WordRunAppend(p: string, r: string)
    requires |r| > 0 && !IsWordChar(r[0])
    ensures WordRun(p + r) == WordRun(p)
    decreases |p|
  {
    if |p| > 0 && IsWordChar(p[0]) {
      assert (p + r)[1..] == p[1..] + r;
      WordRunAppend(p[1..], r);
    }
  }

  /** A single word is one token. */
  lemma WordsOfWord(w: string)
    requires IsWord(w)
    ensures Words(w) == [w]
  {
    var n := WordRun(w);
    assert n == |w|;
    assert w[..n] == w && w[n..] == [];
  }

  /** A non-word character separates tokens: none is dropped, none is split across it. With
      `Words([]) == []` and WordsOfWord this fixes Words as the maximal runs of word characters. */
  lemma {:induction false} WordsSplit(p: string, c: char, q: string)
    requires !IsWordChar(c)
    ensures Words(p + [c] + q) == Words(p) + Words(q)
    decreases |p|
  {
    var s := p + [c] + q;
    if |p| == 0 {
      assert s[1..] == q;
    } else if !IsWordChar(p[0]) {
      assert s[1..] == p[1..] + [c] + q;
      WordsSplit(p[1..], c, q);
    } else {
      var m := WordRun(p);
      assert s == p + ([c] + q);
      WordRunAppend(p, [c] + q);
      assert s[..m] == p[..m];
      assert s[m..] == p[m..] + [c] + q;
      WordsSplit(p[m..], c, q);
    }
  }

  // ---------------------------------------------------------------------------
  // Keyword tables

  const TechKeywords: map<string, string> := map[
    "application" := "app",
    "service" := "svc",
    "library" := "lib",
    "framework" := "fw",
    "interface" := "if",
    "database" := "db",
    "microservice" := "ms",
    "api" := "api",
    "backend" := "be",
    "frontend" := "fe",
    "platform" := "platform",
    "engine" := "engine",
    "tool" := "tool",
    "utility" := "util"]

  const LanguagePrefixes: map<string, string> := map[
    "python" := "py",
    "javascript" := "js",
    "typescript" := "ts",
    "java" := "java",
    "golang" := "go",
    "rust" := "rs",
    "ruby" := "rb"]

  const CommonWords: set<string> := {"the", "a", "an", "is", "are", "for", "to", "of", "in", "and", "or", "this", "that"}

  /** Every abbreviation in the two tables is a word. */
  lemma TablesAreWords()
    ensures forall k :: k in TechKeywords ==> IsWord(TechKeywords[k])
    ensures forall k :: k in LanguagePrefixes ==> IsWord(LanguagePrefixes[k])
  {
  }

  /** The tech terms of the words, in word order; each word is looked up in the keyword table
      and, only when it is not a keyword, in the language table. */
  function TechTerms(words: seq<string>): seq<string>
    decreases |words|
  {
    if |words| == 0 then []
    else
      var w := words[|words| - 1];
      TechTerms(words[..|words| - 1])
      + (if w in TechKeywords then [TechKeywords[w]] else if w in LanguagePrefixes then [LanguagePrefixes[w]] else [])
  }

  lemma {:induction false} TechTermsAreWords(words: seq<string>)
    ensures forall j :: 0 <= j < |TechTerms(words)| ==> IsWord(TechTerms(words)[j])
    decreases |words|
  {
    TablesAreWords();
    if |words| > 0 {
      TechTermsAreWords(words[..|words| - 1]);
    }
  }

  /** The words that are not stop words and are longer than three characters, in order. */
  function Significant(words: seq<string>): seq<string>
    decreases |words|
  {
    if |words| == 0 then []
    else
      var w := words[|words| - 1];
      Significant(words[..|words| - 1]) + (if w !in CommonWords && |w| > 3 then [w] else [])
  }

  lemma {:induction false} SignificantSpec(words: seq<string>)
    ensures forall x :: x in Significant(words) <==> x in words && x !in CommonWords && |x| > 3
    decreases |words|
  {
    if |words| > 0 {
      var p := words[..|words| - 1];
      SignificantSpec(p);
      assert words == p + [words[|words| - 1]];
    }
  }

  /** The important words: the first three significant words. */
  function ImportantWords(words: seq<string>): (r: seq<string>)
    ensures |r| <= 3
  {
    var s := Significant(words);
    if |s| <= 3 then s else s[..3]
  }

  /** Important words are words of the description, longer than three characters and not
      stop words; they are the first three significant words, in order, or all of them
      when fewer exist. */
  lemma ImportantWordsSpec(words: seq<string>)
    ensures var r := ImportantWords(words);
      && |r| <= 3
      && (forall x :: x in r ==> x in words && x !in CommonWords && |x| > 3)
      && (|Significant(words)| >= 3 ==> r == Significant(words)[..3])
      && (|Significant(words)| < 3 ==> r == Significant(words))
  {
    SignificantSpec(words);
  }

  // ---------------------------------------------------------------------------
  // Suggestions

  function FirstTwo(ws: seq<string>): (r: seq<string>)
    ensures |r| == if |ws| < 2 then |ws| else 2
    ensures forall j :: 0 <= j < |r| ==> r[j] == ws[j]
  {
    if |ws| <= 2 then ws else ws[..2]
  }

  /** `"".join(w.capitalize() for w in ws)`. */
  function CamelJoin(ws: seq<string>): string
    decreases |ws|
  {
    if |ws| == 0 then "" else CamelJoin(ws[..|ws| - 1]) + Capitalize(ws[|ws| - 1])
  }

  /** The candidate names before de-duplication, in the order they are generated. */
  function Candidates(important: seq<string>, tech: seq<string>): seq<string> {
    (if |important| > 0 then [Join("-", FirstTwo(important))] else [])
    + (if |tech| > 0 && |important| > 0 then
         [important[0] + "-" + tech[0]] + (if |important| > 1 then [tech[0] + "-" + Join("-", FirstTwo(important))] else [])
       else [])
    + (if |important| > 0 then [CamelJoin(FirstTwo(important))] else [])
    + (if |important| >= 2 then [Join("_", FirstTwo(important))] else [])
  }

  /** The candidates that are non-empty and differ from the current name, in order. */
  function Keep(s: seq<string>, currentName: string): seq<string>
    decreases |s|
  {
    if |s| == 0 then []
    else
      var x := s[|s| - 1];
      Keep(s[..|s| - 1], currentName) + (if x != "" && x != currentName then [x] else [])
  }

  /** Python's `s[:count]`: a negative count drops that many elements from the end. */
  function Slice<T>(s: seq<T>, count: int): (r: seq<T>)
    ensures |r| <= |s| && r == s[..|r|]
    ensures count >= 0 ==> |r| == if count < |s| then count else |s|
    ensures count < 0 ==> |r| == if |s| + count > 0 then |s| + count else 0
  {
    if count >= 0 then (if count < |s| then s[..count] else s)
    else if |s| + count > 0 then s[..|s| + count] else []
  }

  /** What suggest_names returns. */
  function Suggestions(description: string, currentName: string, count: int): seq<string> {
    if description == "" then []
    else
      var words := Words(Lower(description));
      Slice(Keep(Grouping.Distinct(Candidates(ImportantWords(words), TechTerms(words))), currentName), count)
  }

  /** The characters a suggestion is made of. */
  predicate IsNameChars(s: string) {
    forall i :: 0 <= i < |s| ==> IsWordChar(s[i]) || s[i] == '-'
  }

  lemma {:induction false} JoinNameChars(sep: string, parts: seq<string>)
    requires sep == "-" || sep == "_"
    requires forall j :: 0 <= j < |parts| ==> IsWord(parts[j])
    ensures IsNameChars(Join(sep, parts))
    decreases |parts|
  {
    if |parts| > 1 {
      JoinNameChars(sep, parts[..|parts| - 1]);
    }
  }

  lemma {:induction false} CamelJoinNameChars(parts: seq<string>)
    requires forall j :: 0 <= j < |parts| ==> IsWord(parts[j])
    ensures IsNameChars(CamelJoin(parts))
    decreases |parts|
  {
    if |parts| > 0 {
      CamelJoinNameChars(parts[..|parts| - 1]);
      var w := parts[|parts| - 1];
      forall i | 0 <= i < |w| ensures IsWordChar(Capitalize(w)[i]) {
        CaseKeepsWordChar(w[i]);
      }
    }
  }

  lemma CandidatesNameChars(important: seq<string>, tech: seq<string>)
    requires forall j :: 0 <= j < |important| ==> IsWord(important[j])
    requires forall j :: 0 <= j < |tech| ==> IsWord(tech[j])
    ensures forall j :: 0 <= j < |Candidates(important, tech)| ==> IsNameChars(Candidates(important, tech)[j])
  {
    var two := FirstTwo(important);
    JoinNameChars("-", two);
    JoinNameChars("_", two);
    CamelJoinNameChars(two);
    if |tech| > 0 && |important| > 0 {
      assert IsNameChars(important[0] + "-" + tech[0]);
      assert IsNameChars(tech[0] + "-" + Join("-", two));
    }
  }

  lemma {:induction false} KeepSpec(s: seq<string>, currentName: string)
    ensures forall x :: x in Keep(s, currentName) <==> x in s && x != "" && x != currentName
    ensures Grouping.NoDup(s) ==> Grouping.NoDup(Keep(s, currentName))
    decreases |s|
  {
    if |s| > 0 {
      var p := s[..|s| - 1];
      KeepSpec(p, currentName);
      assert s == p + [s[|s| - 1]];
      if Grouping.NoDup(s) {
        assert Grouping.NoDup(p);
        assert s[|s| - 1] !in p;
      }
    }
  }

  /** The filter keeps the relative order of the names it keeps. */
  lemma {:induction false} KeepOrdered(s: seq<string>, currentName: string, c: seq<string>)
    requires Grouping.FirstSeenOrdered(s, c)
    ensures Grouping.FirstSeenOrdered(Keep(s, currentName), c)
    decreases |s|
  {
    if |s| > 0 {
      var p := s[..|s| - 1];
      var x := s[|s| - 1];
      assert Grouping.FirstSeenOrdered(p, c) by {
        forall i | 0 <= i < |p| ensures p[i] == s[i] { }
      }
      KeepOrdered(p, currentName, c);
      KeepSpec(p, currentName);
      var k := Keep(p, currentName);
      if x != "" && x != currentName {
        forall i | 0 <= i < |k| ensures k[i] in c && Grouping.FirstIndex(c, k[i]) < Grouping.FirstIndex(c, x) {
          assert k[i] in p;
          var t :| 0 <= t < |p| && p[t] == k[i];
          assert s[t] == k[i];
        }
        var k' := k + [x];
        forall i, j | 0 <= i < j < |k'| ensures Grouping.FirstIndex(c, k'[i]) < Grouping.FirstIndex(c, k'[j]) {
          if j < |k| {
            assert k'[i] == k[i] && k'[j] == k[j];
          } else {
            assert k'[i] == k[i] && k'[j] == x;
          }
        }
      }
    }
  }

  lemma ImportantAreWords(description: string)
    ensures forall j :: 0 <= j < |ImportantWords(Words(Lower(description)))| ==>
      IsWord(ImportantWords(Words(Lower(description)))[j])
  {
    var words := Words(Lower(description));
    WordsAreWords(Lower(description));
    ImportantWordsSpec(words);
    forall j | 0 <= j < |ImportantWords(words)| ensures IsWord(ImportantWords(words)[j]) {
      var x := ImportantWords(words)[j];
      assert x in words;
      var t :| 0 <= t < |words| && words[t] == x;
    }
  }

  /** The candidates left after de-duplication and filtering: no repeats, never the current
      name nor the empty string, each a generated candidate. */
  lemma {:induction false} FilteredCandidates(c: seq<string>, currentName: string)
    ensures var k := Keep(Grouping.Distinct(c), currentName);
      && Grouping.NoDup(k)
      && (forall x :: x in k <==> x in c && x != "" && x != currentName)
  {
    Grouping.DistinctSpec(c);
    KeepSpec(Grouping.Distinct(c), currentName);
  }

  /** A prefix keeps the absence of repeats and only drops elements. */
  lemma SlicePreserves(k: seq<string>, count: int)
    requires Grouping.NoDup(k)
    ensures Grouping.NoDup(Slice(k, count))
    ensures forall x :: x in Slice(k, count) ==> x in k
  {
    var r := Slice(k, count);
    forall x | x in r ensures x in k {
      var t :| 0 <= t < |r| && r[t] == x;
      assert k[t] == x;
    }
  }

  /** suggest_names: nothing for an empty description; otherwise at most `count` names
      (for a non-negative count), no repeats, never the current name nor the empty string,
      and every one a generated candidate. */
  lemma SuggestionsSpec(description: string, currentName: string, count: int)
    ensures var r := Suggestions(description, currentName, count);
      && (description == "" ==> r == [])
      && (count >= 0 ==> |r| <= count)
      && Grouping.NoDup(r)
      && currentName !in r && "" !in r
      && (description != "" ==>
            forall x :: x in r ==> x in Candidates(ImportantWords(Words(Lower(description))), TechTerms(Words(Lower(description)))))
  {
    if description != "" {
      var words := Words(Lower(description));
      var c := Candidates(ImportantWords(words), TechTerms(words));
      FilteredCandidates(c, currentName);
      SlicePreserves(Keep(Grouping.Distinct(c), currentName), count);
    }
  }

  /** A prefix of a first-seen-ordered list is first-seen ordered, and precedes every
      element of the list that it leaves out. */
  lemma PrefixOrdered(k: seq<string>, r: seq<string>, c: seq<string>)
    requires Grouping.FirstSeenOrdered(k, c)
    requires |r| <= |k| && r == k[..|r|]
    ensures Grouping.FirstSeenOrdered(r, c)
    ensures forall x :: x in k && x !in r ==>
      forall i :: 0 <= i < |r| ==> Grouping.FirstIndex(c, r[i]) < Grouping.FirstIndex(c, x)
  {
    assert forall i :: 0 <= i < |r| ==> r[i] == k[i];
    forall x | x in k && x !in r
      ensures forall i :: 0 <= i < |r| ==> Grouping.FirstIndex(c, r[i]) < Grouping.FirstIndex(c, x)
    {
      var m :| 0 <= m < |k| && k[m] == x;
      assert m >= |r|;
    }
  }

  /** suggest_names keeps the surviving candidates in their first-seen order and returns as
      many of them as `count` allows: for a non-negative count, the first min(count, n) of
      the n survivors, so a candidate is left out only when `count` names precede it. */
  lemma SuggestionsOrder(description: string, currentName: string, count: int)
    requires description != ""
    ensures var words := Words(Lower(description));
      var c := Candidates(ImportantWords(words), TechTerms(words));
      var k := Keep(Grouping.Distinct(c), currentName);
      var r := Suggestions(description, currentName, count);
      && Grouping.FirstSeenOrdered(r, c)
      && (count >= 0 ==> |r| == (if count < |k| then count else |k|) && r == k[..|r|])
      && (count >= 0 ==> forall x :: x in c && x != "" && x != currentName && x !in r ==>
            |r| == count && forall i :: 0 <= i < |r| ==> Grouping.FirstIndex(c, r[i]) < Grouping.FirstIndex(c, x))
  {
    var words := Words(Lower(description));
    var c := Candidates(ImportantWords(words), TechTerms(words));
    var k := Keep(Grouping.Distinct(c), currentName);
    var r := Suggestions(description, currentName, count);
    assert r == Slice(k, count);
    Grouping.DistinctOrdered(c);
    KeepOrdered(Grouping.Distinct(c), currentName, c);
    FilteredCandidates(c, currentName);
    PrefixOrdered(k, r, c);
  }

  /** Every suggestion is made only of word characters and dashes, so none holds a space. */
  lemma SuggestionsAreNames(description: string, currentName: string, count: int)
    ensures var r := Suggestions(description, currentName, count);
      forall j :: 0 <= j < |r| ==> IsNameChars(r[j])
  {
    if description != "" {
      var words := Words(Lower(description));
      var c := Candidates(ImportantWords(words), TechTerms(words));
      ImportantAreWords(description);
      TechTermsAreWords(words);
      CandidatesNameChars(ImportantWords(words), TechTerms(words));
      SuggestionsSpec(description, currentName, count);
      var r := Suggestions(description, currentName, count);
      forall j | 0 <= j < |r| ensures IsNameChars(r[j]) {
        assert r[j] in c;
        var t :| 0 <= t < |c| && c[t] == r[j];
      }
    }
  }

  /** The loop of suggest_names that collects the abbreviations of the known words. */
  method ExtractTechTerms(words: seq<string>) returns (techTerms: seq<string>)
    ensures techTerms == TechTerms(words)
  {
    techTerms := [];
    for i := 0 to |words|
      invariant techTerms == TechTerms(words[..i])
    {
      var word := words[i];
      assert words[..i + 1][..i] == words[..i];
      if word in TechKeywords {
        techTerms := techTerms + [TechKeywords[word]];
      } else if word in LanguagePrefixes {
        techTerms := techTerms + [LanguagePrefixes[word]];
      }
    }
    assert words[..|words|] == words;
  }

  /** suggest_names, building the tech terms and the candidates step by step. */
  method SuggestNames(description: string, currentName: string, count: int) returns (r: seq<string>)
    ensures r == Suggestions(description, currentName, count)
  {
    if description == "" {
      return [];
    }
    var words := Words(Lower(description));
    var techTerms := ExtractTechTerms(words);
    var important := ImportantWords(words);
    var suggestions: seq<string> := [];
    if |important| > 0 {
      suggestions := suggestions + [Join("-", FirstTwo(important))];
    }
    if |techTerms| > 0 && |important| > 0 {
      suggestions := suggestions + [important[0] + "-" + techTerms[0]];
      if |important| > 1 {
        suggestions := suggestions + [techTerms[0] + "-" + Join("-", FirstTwo(important))];
      }
    }
    if |important| > 0 {
      suggestions := suggestions + [CamelJoin(FirstTwo(important))];
    }
    if |important| >= 2 {
      suggestions := suggestions + [Join("_", FirstTwo(important))];
    }
    assert suggestions == Candidates(important, techTerms);
    suggestions := Grouping.Distinct(suggestions);
    suggestions := Keep(suggestions, currentName);
    r := Slice(suggestions, count);
  }

  // ---------------------------------------------------------------------------
  // Health score

  datatype Checks = Checks(
    hasReadme: bool,
    hasLicense: bool,
    hasGitignore: bool,
    hasContributing: bool,
    hasCodeOfConduct: bool,
    hasSecurity: bool,
    hasCi: bool,
    hasTests: bool)

  /** Some file name contains sub. */
  predicate AnyContains(files: seq<string>, sub: string) {
    exists i :: 0 <= i < |files| && Contains(files[i], sub)
  }

  function LowerAll(files: seq<string>): (r: seq<string>)
    ensures |r| == |files| && forall i :: 0 <= i < |files| ==> r[i] == Lower(files[i])
  {
    seq(|files|, i requires 0 <= i < |files| => Lower(files[i]))
  }

  /** The checks, on the lower-cased file names: substring tests, except .gitignore,
      which must be a whole entry. */
  function Evaluate(repoFiles: seq<string>): Checks {
    var files := LowerAll(repoFiles);
    Checks(
      AnyContains(files, "readme"),
      AnyContains(files, "license") || AnyContains(files, "licence"),
      ".gitignore" in files,
      AnyContains(files, "contributing"),
      AnyContains(files, "code_of_conduct") || AnyContains(files, "code-of-conduct"),
      AnyContains(files, "security"),
      AnyContains(files, ".github/workflows") || AnyContains(files, ".gitlab-ci") || AnyContains(files, "jenkinsfile"),
      AnyContains(files, "test"))
  }

  const ReadmeWeight: nat := 20
  const LicenseWeight: nat := 15
  const GitignoreWeight: nat := 10
  const ContributingWeight: nat := 10
  const CodeOfConductWeight: nat := 10
  const SecurityWeight: nat := 10
  const CiWeight: nat := 15
  const TestsWeight: nat := 10

  function Points(passed: bool, weight: nat): nat {
    if passed then weight else 0
  }

  /** The sum of the weights of the passing checks. */
  function Score(c: Checks): nat {
    Points(c.hasReadme, ReadmeWeight) + Points(c.hasLicense, LicenseWeight) + Points(c.hasGitignore, GitignoreWeight)
    + Points(c.hasContributing, ContributingWeight) + Points(c.hasCodeOfConduct, CodeOfConductWeight)
    + Points(c.hasSecurity, SecurityWeight) + Points(c.hasCi, CiWeight) + Points(c.hasTests, TestsWeight)
  }

  /** The sum of all weights. */
  function MaxScore(): nat {
    Score(Checks(true, true, true, true, true, true, true, true))
  }

  predicate AllPass(c: Checks) {
    c.hasReadme && c.hasLicense && c.hasGitignore && c.hasContributing && c.hasCodeOfConduct
    && c.hasSecurity && c.hasCi && c.hasTests
  }

  /** The weights add up to 100, so the score is a percentage: 0 when every check fails,
      100 exactly when every check passes. */
  lemma ScoreBounds(c: Checks)
    ensures MaxScore() == 100
    ensures 0 <= Score(c) <= MaxScore()
    ensures Score(c) == MaxScore() <==> AllPass(c)
    ensures Score(c) == 0 <==> c == Checks(false, false, false, false, false, false, false, false)
  {
  }

  function Rating(percentage: int): string {
    if percentage >= 90 then "Excellent"
    else if percentage >= 75 then "Good"
    else if percentage >= 50 then "Fair"
    else "Needs Improvement"
  }

  /** The four ratings split the range at 90, 75 and 50. */
  lemma RatingSpec(p: int)
    ensures Rating(p) == "Excellent" <==> p >= 90
    ensures Rating(p) == "Good" <==> 75 <= p < 90
    ensures Rating(p) == "Fair" <==> 50 <= p < 75
    ensures Rating(p) == "Needs Improvement" <==> p < 50
    ensures Rating(p) in {"Excellent", "Good", "Fair", "Needs Improvement"}
  {
  }

  /** The checks, as names. */
  datatype Item = Readme | License | Gitignore | Contributing | CodeOfConduct | Security | Ci | Tests

  function Passes(c: Checks, i: Item): bool {
    match i
    case Readme => c.hasReadme
    case License => c.hasLicense
    case Gitignore => c.hasGitignore
    case Contributing => c.hasContributing
    case CodeOfConduct => c.hasCodeOfConduct
    case Security => c.hasSecurity
    case Ci => c.hasCi
    case Tests => c.hasTests
  }

  function AdviceText(i: Item): string
    requires i != CodeOfConduct
  {
    match i
    case Readme => "Add a README.md with project description and usage instructions"
    case License => "Add a LICENSE file to clarify usage rights"
    case Gitignore => "Add a .gitignore file to exclude unnecessary files"
    case Contributing => "Add CONTRIBUTING.md to guide contributors"
    case Security => "Add SECURITY.md to document security policies"
    case Ci => "Set up CI/CD pipeline for automated testing"
    case Tests => "Add tests to ensure code quality"
  }

  /** The lengths of the messages, which tell them apart. */
  function AdviceLength(i: Item): nat {
    match i
    case Readme => 63
    case License => 42
    case Gitignore => 50
    case Contributing => 41
    case CodeOfConduct => 0
    case Security => 45
    case Ci => 43
    case Tests => 32
  }

  lemma AdviceLengthSpec(i: Item)
    requires i != CodeOfConduct
    ensures |AdviceText(i)| == AdviceLength(i)
  {
  }

  /** Different checks get different messages. */
  lemma AdviceTextInjective(i: Item, j: Item)
    requires i != CodeOfConduct && j != CodeOfConduct && i != j
    ensures AdviceText(i) != AdviceText(j)
  {
    AdviceLengthSpec(i);
    AdviceLengthSpec(j);
  }

  /** The item, when its check fails. */
  function Need(passed: bool, i: Item): seq<Item> {
    if passed then [] else [i]
  }

  /** The failing checks that carry advice, in the order the advice is given. */
  function MissingItems(c: Checks): seq<Item> {
    Need(c.hasReadme, Readme) + Need(c.hasLicense, License) + Need(c.hasGitignore, Gitignore)
    + Need(c.hasContributing, Contributing) + Need(c.hasSecurity, Security) + Need(c.hasCi, Ci)
    + Need(c.hasTests, Tests)
  }

  /** The number of failing checks other than the code of conduct. */
  function Failing(c: Checks): nat {
    Points(!c.hasReadme, 1) + Points(!c.hasLicense, 1) + Points(!c.hasGitignore, 1) + Points(!c.hasContributing, 1)
    + Points(!c.hasSecurity, 1) + Points(!c.hasCi, 1) + Points(!c.hasTests, 1)
  }

  /** The position of each check in the advice order. */
  function Rank(i: Item): nat {
    match i
    case Readme => 0
    case License => 1
    case Gitignore => 2
    case Contributing => 3
    case CodeOfConduct => 4
    case Security => 5
    case Ci => 6
    case Tests => 7
  }

  predicate Below(s: seq<Item>, n: nat) {
    forall x :: x in s ==> Rank(x) < n
  }

  /** Appending at most one item of a higher rank keeps the items distinct. */
  lemma NeedStep(acc: seq<Item>, n: seq<Item>, i: Item)
    requires Grouping.NoDup(acc) && Below(acc, Rank(i))
    requires n == [] || n == [i]
    ensures Grouping.NoDup(acc + n)
    ensures Below(acc + n, Rank(i) + 1)
  {
  }

  /** Seven pieces holding at most their own item each make a list without repetition. */
  lemma NeedChain(n1: seq<Item>, n2: seq<Item>, n3: seq<Item>, n4: seq<Item>, n5: seq<Item>, n6: seq<Item>, n7: seq<Item>)
    requires n1 == [] || n1 == [Readme]
    requires n2 == [] || n2 == [License]
    requires n3 == [] || n3 == [Gitignore]
    requires n4 == [] || n4 == [Contributing]
    requires n5 == [] || n5 == [Security]
    requires n6 == [] || n6 == [Ci]
    requires n7 == [] || n7 == [Tests]
    ensures Grouping.NoDup(n1 + n2 + n3 + n4 + n5 + n6 + n7)
  {
    NeedStep([], n1, Readme);
    assert [] + n1 == n1;
    NeedStep(n1, n2, License);
    NeedStep(n1 + n2, n3, Gitignore);
    NeedStep(n1 + n2 + n3, n4, Contributing);
    NeedStep(n1 + n2 + n3 + n4, n5, Security);
    NeedStep(n1 + n2 + n3 + n4 + n5, n6, Ci);
    NeedStep(n1 + n2 + n3 + n4 + n5 + n6, n7, Tests);
  }

  /** The missing items are the failing checks other than the code of conduct, each once. */
  lemma MissingItemsSpec(c: Checks)
    ensures |MissingItems(c)| == Failing(c)
    ensures forall i :: i in MissingItems(c) <==> i != CodeOfConduct && !Passes(c, i)
    ensures Grouping.NoDup(MissingItems(c))
  {
    NeedChain(Need(c.hasReadme, Readme), Need(c.hasLicense, License), Need(c.hasGitignore, Gitignore),
      Need(c.hasContributing, Contributing), Need(c.hasSecurity, Security), Need(c.hasCi, Ci), Need(c.hasTests, Tests));
    MissingItemsMembers(c);
    MissingItemsCount(c);
  }

  lemma MissingItemsCount(c: Checks)
    ensures |MissingItems(c)| == Failing(c)
  {
    NeedLength(c.hasReadme, Readme);
    NeedLength(c.hasLicense, License);
    NeedLength(c.hasGitignore, Gitignore);
    NeedLength(c.hasContributing, Contributing);
    NeedLength(c.hasSecurity, Security);
    NeedLength(c.hasCi, Ci);
    NeedLength(c.hasTests, Tests);
  }

  lemma NeedLength(passed: bool, i: Item)
    ensures |Need(passed, i)| == Points(!passed, 1)
  {
  }

  lemma MissingItemsMembers(c: Checks)
    ensures forall i :: i in MissingItems(c) <==> i != CodeOfConduct && !Passes(c, i)
  {
    forall i ensures i in MissingItems(c) <==> i != CodeOfConduct && !Passes(c, i) {
      NeedMember(i, c.hasReadme, Readme);
      NeedMember(i, c.hasLicense, License);
      NeedMember(i, c.hasGitignore, Gitignore);
      NeedMember(i, c.hasContributing, Contributing);
      NeedMember(i, c.hasSecurity, Security);
      NeedMember(i, c.hasCi, Ci);
      NeedMember(i, c.hasTests, Tests);
    }
  }

  lemma NeedMember(x: Item, passed: bool, i: Item)
    ensures x in Need(passed, i) <==> x == i && !passed
  {
  }

  /** The message of each item. */
  function Texts(items: seq<Item>): seq<string>
    requires CodeOfConduct !in items
  {
    seq(|items|, j requires 0 <= j < |items| => AdviceText(items[j]))
  }

  lemma TextsAppendNeed(items: seq<Item>, passed: bool, i: Item)
    requires CodeOfConduct !in items && i != CodeOfConduct
    ensures CodeOfConduct !in items + Need(passed, i)
    ensures passed ==> Texts(items + Need(passed, i)) == Texts(items)
    ensures !passed ==> Texts(items + Need(passed, i)) == Texts(items) + [AdviceText(i)]
  {
    if passed {
      assert items + Need(passed, i) == items;
    }
  }

  /** One message per failing check, in a fixed order; a missing code of conduct has none. */
  function RecommendationsOf(c: Checks): seq<string> {
    MissingItemsMembers(c);
    Texts(MissingItems(c))
  }

  /** The recommendations count the failing checks other than the code of conduct, never
      repeat, do not depend on the code-of-conduct check, are empty exactly when the other
      seven checks pass, and hold a check's message exactly when that check fails. */
  lemma RecommendationsSpec(c: Checks)
    ensures |RecommendationsOf(c)| == Failing(c)
    ensures Grouping.NoDup(RecommendationsOf(c))
    ensures RecommendationsOf(c) == RecommendationsOf(c.(hasCodeOfConduct := !c.hasCodeOfConduct))
    ensures RecommendationsOf(c) == [] <==> AllPass(c.(hasCodeOfConduct := true))
    ensures forall i :: i != CodeOfConduct ==> (AdviceText(i) in RecommendationsOf(c) <==> !Passes(c, i))
  {
    RecommendationsCount(c);
    RecommendationsNoDup(c);
    RecommendationsMention(c);
    assert MissingItems(c) == MissingItems(c.(hasCodeOfConduct := !c.hasCodeOfConduct));
  }

  lemma RecommendationsCount(c: Checks)
    ensures |RecommendationsOf(c)| == Failing(c)
    ensures RecommendationsOf(c) == [] <==> AllPass(c.(hasCodeOfConduct := true))
  {
    MissingItemsSpec(c);
  }

  lemma RecommendationsNoDup(c: Checks)
    ensures Grouping.NoDup(RecommendationsOf(c))
  {
    MissingItemsSpec(c);
    TextsNoDup(MissingItems(c));
  }

  lemma RecommendationsMention(c: Checks)
    ensures forall i :: i != CodeOfConduct ==> (AdviceText(i) in RecommendationsOf(c) <==> !Passes(c, i))
  {
    MissingItemsMembers(c);
    forall i | i != CodeOfConduct ensures AdviceText(i) in RecommendationsOf(c) <==> !Passes(c, i) {
      TextsMention(MissingItems(c), i);
    }
  }

  /** Distinct items have distinct messages. */
  lemma TextsNoDup(items: seq<Item>)
    requires CodeOfConduct !in items && Grouping.NoDup(items)
    ensures Grouping.NoDup(Texts(items))
  {
    var r := Texts(items);
    forall j, k | 0 <= j < k < |r| ensures r[j] != r[k] {
      AdviceTextInjective(items[j], items[k]);
    }
  }

  /** An item's message is among the messages exactly when the item is among the items. */
  lemma TextsMention(items: seq<Item>, i: Item)
    requires CodeOfConduct !in items && i != CodeOfConduct
    ensures AdviceText(i) in Texts(items) <==> i in items
  {
    var r := Texts(items);
    if AdviceText(i) in r {
      var j :| 0 <= j < |r| && r[j] == AdviceText(i);
      if items[j] != i {
        AdviceTextInjective(items[j], i);
      }
    }
    if i in items {
      var j :| 0 <= j < |items| && items[j] == i;
      assert r[j] == AdviceText(i);
    }
  }

  /** One test of _get_recommendations: the check's message is appended when it fails. */
  method Advise(r: seq<string>, passed: bool, i: Item, ghost items: seq<Item>) returns (r': seq<string>)
    requires i != CodeOfConduct && CodeOfConduct !in items && r == Texts(items)
    ensures CodeOfConduct !in items + Need(passed, i)
    ensures r' == Texts(items + Need(passed, i))
  {
    TextsAppendNeed(items, passed, i);
    r' := r;
    if !passed {
      r' := r' + [AdviceText(i)];
    }
  }

  /** _get_recommendations: the seven tests in order. */
  method GetRecommendations(c: Checks) returns (r: seq<string>)
    ensures r == RecommendationsOf(c)
  {
    assert [] + Need(c.hasReadme, Readme) == Need(c.hasReadme, Readme);
    r := Advise([], c.hasReadme, Readme, []);
    ghost var items := Need(c.hasReadme, Readme);
    r := Advise(r, c.hasLicense, License, items);
    items := items + Need(c.hasLicense, License);
    r := Advise(r, c.hasGitignore, Gitignore, items);
    items := items + Need(c.hasGitignore, Gitignore);
    r := Advise(r, c.hasContributing, Contributing, items);
    items := items + Need(c.hasContributing, Contributing);
    r := Advise(r, c.hasSecurity, Security, items);
    items := items + Need(c.hasSecurity, Security);
    r := Advise(r, c.hasCi, Ci, items);
    items := items + Need(c.hasCi, Ci);
    r := Advise(r, c.hasTests, Tests, items);
    items := items + Need(c.hasTests, Tests);
    assert items == MissingItems(c);
  }

  /** calculate_score's result. Since the maximum is 100, the percentage is the score. */
  datatype HealthReport = HealthReport(score: nat, maxScore: nat, percentage: int, rating: string,
                                       checks: Checks, recommendations: seq<string>)

  function CalculateScore(repoFiles: seq<string>): (h: HealthReport)
    ensures h.maxScore == 100 && 0 <= h.score <= 100 && h.percentage == h.score
    ensures h.checks == Evaluate(repoFiles)
    ensures h.score == Score(h.checks) && h.rating == Rating(h.score)
    ensures h.score == 100 <==> AllPass(h.checks)
    ensures h.rating == "Excellent" <==> h.score >= 90
    ensures h.rating == "Good" <==> 75 <= h.score < 90
    ensures h.rating == "Fair" <==> 50 <= h.score < 75
    ensures h.rating == "Needs Improvement" <==> h.score < 50
    ensures h.recommendations == RecommendationsOf(h.checks)
  {
    var c := Evaluate(repoFiles);
    ScoreBounds(c);
    var score := Score(c);
    var percentage := if MaxScore() > 0 then score * 100 / MaxScore() else 0;
    RatingSpec(percentage);
    HealthReport(score, MaxScore(), percentage, Rating(percentage), c, RecommendationsOf(c))
  }

  // ---------------------------------------------------------------------------
  // Issue templates

  /** The two issue templates; their bodies are fixed texts and are not modelled. */
  datatype IssueTemplate = GeneralIssueTemplate | ApiIssueTemplate

  function GenerateIssueTemplate(repoType: string): (t: IssueTemplate)
    ensures t == ApiIssueTemplate <==> repoType == "api"
  {
    if repoType == "api" then ApiIssueTemplate else GeneralIssueTemplate
  }
}
