/**
  * Phase 3's per-repository analysis (`analyze_repository`): three maturity criteria
  * applied in order, each returning early when it decides.
  *
  * - C4: at least 11% of the files are Terraform scripts (`.tf`).
  * - C1: at least 7 commits per month on average over the history's span.
  * - C2: the two most active author e-mails made at least 80% of the commits.
  *
  * The file walk and the Git history are inputs: the names of all files the walk
  * yields, and the commit log as the Git library lists it (newest first), with each
  * commit's author e-mail and its commit date as a whole day number.
  */
module DeepFilter {
  import opened Wrappers
  import opened Seqs
  import opened Text

  const TargetFileExtension: string := ".tf"
  const MinIacRatio: real := 0.11
  const MinMonthlyCommits: real := 7.0
  const CoreContributorThreshold: real := 0.80
  /** The average month length used to turn a span of days into months. */
  const DaysPerMonth: real := 30.44

  /** One commit: its author's e-mail and its commit day, None when the date cannot be read. */
  datatype Commit = Commit(authorEmail: string, committedDay: Option<int>)

  /** What opening the checkout as a Git repository gives: an error, or its commit log, newest first. */
  datatype History = NotARepository | Log(commits: seq<Commit>)

  /** The six result flags, all false until a criterion decides. */
  datatype Flags = Flags(c1Pass: bool, c2Pass: bool, c4Pass: bool, c4Fail: bool, c1Fail: bool, c2Fail: bool)

  // ---------------------------------------------------------------------------
  // C4: ratio of Terraform files
  // ---------------------------------------------------------------------------

  predicate IsTerraformFile(name: string) {
    EndsWith(name, TargetFileExtension)
  }

  /** The number of Terraform files among `files`. */
  function TerraformCount(files: seq<string>): (n: nat)
    ensures n <= |files|
  {
    if |files| == 0 then 0
    else TerraformCount(files[..|files| - 1]) + (if IsTerraformFile(files[|files| - 1]) then 1 else 0)
  }

  /** The file walk: every file counts, and those ending in `.tf` count as scripts. */
  method CountFiles(files: seq<string>) returns (totalFiles: nat, iacFiles: nat)
    ensures totalFiles == |files|
    ensures iacFiles == TerraformCount(files)
    ensures iacFiles <= totalFiles
  {
    totalFiles, iacFiles := 0, 0;
    var i := 0;
    while i < |files|
      invariant 0 <= i <= |files|
      invariant totalFiles == i
      invariant iacFiles == TerraformCount(files[..i])
    {
      assert files[..i + 1][..i] == files[..i];
      totalFiles := totalFiles + 1;
      if IsTerraformFile(files[i]) {
        iacFiles := iacFiles + 1;
      }
      i := i + 1;
    }
    assert files[..|files|] == files;
  }

  /** `iac_files / total_files if total_files else 0`. */
  function IacRatio(iacFiles: nat, totalFiles: nat): (r: real)
    ensures totalFiles == 0 ==> r == 0.0
    ensures iacFiles <= totalFiles ==> 0.0 <= r <= 1.0
  {
    if totalFiles > 0 then iacFiles as real / totalFiles as real else 0.0
  }

  /** C4 in whole numbers: there is a file and at least 11 in every 100 files are scripts. */
  predicate C4Holds(files: seq<string>) {
    |files| > 0 && 100 * TerraformCount(files) >= 11 * |files|
  }

  /** The ratio test passes exactly when C4 holds: no files fails, and a ratio of exactly 0.11 passes. */
  lemma C4Threshold(iacFiles: nat, totalFiles: nat)
    ensures IacRatio(iacFiles, totalFiles) >= MinIacRatio <==> totalFiles > 0 && 100 * iacFiles >= 11 * totalFiles
  {
    if totalFiles > 0 {
      QuotientAtLeast(iacFiles as real, totalFiles as real, MinIacRatio);
    }
  }

  /** For a positive divisor, a quotient reaches a bound exactly when the dividend reaches bound times divisor. */
  lemma QuotientAtLeast(a: real, t: real, c: real)
    requires t > 0.0
    ensures a / t >= c <==> a >= c * t
  {
    var r := a / t;
    assert r * t == a;
    if r >= c {
      assert (r - c) * t >= 0.0;
    } else {
      assert (c - r) * t > 0.0;
    }
  }

  // ---------------------------------------------------------------------------
  // C1: average monthly commits
  // ---------------------------------------------------------------------------

  /**
    * The history can be judged: it is a repository with at least two commits whose
    * newest and oldest commit dates can be read.
    */
  predicate Conclusive(history: History) {
    history.Log? && |history.commits| >= 2 &&
    history.commits[0].committedDay.Some? &&
    history.commits[|history.commits| - 1].committedDay.Some?
  }

  /** Whole days from the oldest commit (last in the log) to the newest (first). */
  function SpanDays(commits: seq<Commit>): int
    requires |commits| > 0 && commits[0].committedDay.Some? && commits[|commits| - 1].committedDay.Some?
  {
    commits[0].committedDay.value - commits[|commits| - 1].committedDay.value
  }

  /** `total / (days / 30.44)` when that span is positive, else 0. */
  function MonthlyRate(commitCount: nat, spanDays: int): (r: real)
    ensures r >= 0.0
    ensures spanDays <= 0 ==> r == 0.0
  {
    var months := spanDays as real / DaysPerMonth;
    if months > 0.0 then commitCount as real / months else 0.0
  }

  /** C1 in whole numbers: the span is positive and 3044 commits per 700 days at least. */
  predicate C1Holds(commits: seq<Commit>)
    requires |commits| > 0 && commits[0].committedDay.Some? && commits[|commits| - 1].committedDay.Some?
  {
    var days := SpanDays(commits);
    days > 0 && 3044 * |commits| >= 700 * days
  }

  /** The rate test passes exactly when C1 holds; a history whose dates are all one day fails. */
  lemma C1Threshold(commitCount: nat, spanDays: int)
    ensures MonthlyRate(commitCount, spanDays) >= MinMonthlyCommits <==>
            spanDays > 0 && 3044 * commitCount >= 700 * spanDays
  {
    if spanDays > 0 {
      var months := spanDays as real / DaysPerMonth;
      assert months > 0.0;
      QuotientAtLeast(commitCount as real, months, MinMonthlyCommits);
      assert months * 30.44 == spanDays as real;
    }
  }

  // ---------------------------------------------------------------------------
  // C2: share of the two most active authors
  // ---------------------------------------------------------------------------

  /** The author e-mail of every commit, in log order. */
  function Emails(commits: seq<Commit>): (r: seq<string>)
    ensures |r| == |commits|
    ensures forall i :: 0 <= i < |commits| ==> r[i] == commits[i].authorEmail
  {
    seq(|commits|, i requires 0 <= i < |commits| => commits[i].authorEmail)
  }

  /** The number of commits of the log whose author e-mail is `e`. */
  function CommitsBy(commits: seq<Commit>, e: string): nat {
    if |commits| == 0 then 0
    else CommitsBy(commits[..|commits| - 1], e) + (if commits[|commits| - 1].authorEmail == e then 1 else 0)
  }

  /** The `Counter` of the e-mails gives each author the number of commits they made. */
  lemma {:induction false} EmailsCount(commits: seq<Commit>, e: string)
    ensures Count(Emails(commits), e) == CommitsBy(commits, e)
  {
    if |commits| > 0 {
      var n := |commits| - 1;
      EmailsCount(commits[..n], e);
      assert Emails(commits)[..n] == Emails(commits[..n]);
    }
  }

  /** The sum of the counts of `authors`: `sum(counter.values())` when `authors` are the counter's keys. */
  function SumCounts(emails: seq<string>, authors: seq<string>): nat {
    if |authors| == 0 then 0
    else SumCounts(emails, authors[..|authors| - 1]) + Count(emails, authors[|authors| - 1])
  }

  /** One more commit raises the summed counts by one when its author is among the keys. */
  lemma {:induction false} SumCountsSnoc(emails: seq<string>, x: string, authors: seq<string>)
    requires NoDuplicates(authors)
    ensures SumCounts(emails + [x], authors) == SumCounts(emails, authors) + (if x in authors then 1 else 0)
  {
    if |authors| > 0 {
      var init := authors[..|authors| - 1];
      var last := authors[|authors| - 1];
      assert authors == init + [last];
      SumCountsSnoc(emails, x, init);
      CountSnoc(emails, x, last);
    }
  }

  /** The counter's values add up to the number of commits. */
  lemma {:induction false} SumCountsIsLength(emails: seq<string>)
    ensures SumCounts(emails, Distinct(emails)) == |emails|
  {
    if |emails| > 0 {
      var init := emails[..|emails| - 1];
      var x := emails[|emails| - 1];
      assert emails == init + [x];
      SumCountsIsLength(init);
      DistinctSnoc(init, x);
      SumCountsSnoc(init, x, Distinct(init));
      if x !in Distinct(init) {
        DistinctMembers(init);
        var d := Distinct(init);
        assert (d + [x])[..|d|] == d;
        CountSnoc(init, x, x);
        assert Count(init, x) == 0;
      }
    }
  }

  /** The author of `authors` with the most commits: the head of `most_common()` over those keys. */
  function MostCommon(emails: seq<string>, authors: seq<string>): (r: string)
    requires |authors| > 0
    ensures r in authors
    ensures forall a :: a in authors ==> Count(emails, a) <= Count(emails, r)
  {
    if |authors| == 1 then authors[0]
    else
      var rest := MostCommon(emails, authors[1..]);
      if Count(emails, authors[0]) >= Count(emails, rest) then authors[0] else rest
  }

  /** `authors` without `x`. */
  function Remove(authors: seq<string>, x: string): (r: seq<string>)
    ensures forall a :: a in r <==> a in authors && a != x
  {
    if |authors| == 0 then []
    else if authors[0] == x then Remove(authors[1..], x)
    else [authors[0]] + Remove(authors[1..], x)
  }

  /** The two authors ranked first and second by `most_common()`. */
  function TopTwo(emails: seq<string>): (pair: (string, string))
    requires |Distinct(emails)| >= 2
    ensures pair.0 in emails && pair.1 in emails && pair.0 != pair.1
  {
    var authors := Distinct(emails);
    DistinctMembers(emails);
    var first := MostCommon(emails, authors);
    assert authors[0] != authors[1];
    assert authors[0] in Remove(authors, first) || authors[1] in Remove(authors, first);
    var second := MostCommon(emails, Remove(authors, first));
    (first, second)
  }

  /** The commits of the two most active authors together. */
  function TopTwoSum(emails: seq<string>): nat
    requires |Distinct(emails)| >= 2
  {
    Count(emails, TopTwo(emails).0) + Count(emails, TopTwo(emails).1)
  }

  /** The top-two sum is the largest sum over two different authors, and at most the number of commits. */
  lemma TopTwoIsLargestPair(emails: seq<string>, x: string, y: string)
    requires |Distinct(emails)| >= 2
    requires x in emails && y in emails && x != y
    ensures Count(emails, x) + Count(emails, y) <= TopTwoSum(emails) <= |emails|
  {
    var (first, second) := TopTwo(emails);
    var authors := Distinct(emails);
    DistinctMembers(emails);
    assert x in authors && y in authors;
    if x != first && y != first {
      assert x in Remove(authors, first);
      assert y in Remove(authors, first);
    } else if x == first {
      assert y in Remove(authors, first);
    } else {
      assert x in Remove(authors, first);
    }
    CountPairBound(emails, first, second);
  }

  /**
    * Ties do not matter: any two different authors ranked the way `most_common()`
    * ranks (the first has the most commits, the second the most among the others)
    * give the same top-two sum, whatever order equal counts are listed in.
    */
  lemma TopTwoIndependentOfTies(emails: seq<string>, a: string, b: string)
    requires |Distinct(emails)| >= 2
    requires a in emails && b in emails && a != b
    requires forall c :: c in emails ==> Count(emails, c) <= Count(emails, a)
    requires forall c :: c in emails && c != a ==> Count(emails, c) <= Count(emails, b)
    ensures Count(emails, a) + Count(emails, b) == TopTwoSum(emails)
  {
    var (first, second) := TopTwo(emails);
    TopTwoIsLargestPair(emails, a, b);
    assert first in emails && second in emails;
    if first != a && second != a {
      assert Count(emails, first) + Count(emails, second) <= Count(emails, a) + Count(emails, b);
    } else if first == a {
      assert Count(emails, second) <= Count(emails, b);
    } else {
      assert Count(emails, first) <= Count(emails, b);
    }
  }

  /** C2 in whole numbers: two or more authors, and the top two made at least 4 in 5 commits. */
  predicate C2Holds(emails: seq<string>) {
    |Distinct(emails)| >= 2 && 5 * TopTwoSum(emails) >= 4 * |emails|
  }

  /** `top_two / total`, with the share test passing exactly at 4 in 5 or more. */
  lemma C2Threshold(topTwo: nat, total: nat)
    requires total > 0
    ensures topTwo as real / total as real >= CoreContributorThreshold <==> 5 * topTwo >= 4 * total
  {
    QuotientAtLeast(topTwo as real, total as real, CoreContributorThreshold);
  }

  // ---------------------------------------------------------------------------
  // The analysis
  // ---------------------------------------------------------------------------

  /** The flags record an ordered, short-circuiting run: at most one failure, passes only in order. */
  predicate ShortCircuit(f: Flags) {
    (f.c4Fail ==> !f.c4Pass && !f.c1Pass && !f.c1Fail && !f.c2Pass && !f.c2Fail) &&
    (f.c1Fail ==> f.c4Pass && !f.c1Pass && !f.c2Pass && !f.c2Fail) &&
    (f.c2Fail ==> f.c1Pass && !f.c2Pass) &&
    (f.c1Pass ==> f.c4Pass) &&
    (f.c2Pass ==> f.c1Pass) &&
    (f.c4Pass ==> !f.c4Fail)
  }

  /**
    * Applies C4, then C1, then C2 to one checkout. C4 decides on the files alone; an
    * unreadable repository, fewer than two commits or an unreadable newest or oldest
    * commit date stops the analysis after C4 with neither C1 flag set.
    */
  method AnalyzeRepository(files: seq<string>, history: History) returns (results: Flags)
    ensures ShortCircuit(results)
    ensures results.c4Pass <==> C4Holds(files)
    ensures results.c4Fail <==> !C4Holds(files)
    ensures results.c1Pass <==> C4Holds(files) && Conclusive(history) && C1Holds(history.commits)
    ensures results.c1Fail <==> C4Holds(files) && Conclusive(history) && !C1Holds(history.commits)
    ensures results.c2Pass <==>
              C4Holds(files) && Conclusive(history) && C1Holds(history.commits) && C2Holds(Emails(history.commits))
    ensures results.c2Fail <==>
              C4Holds(files) && Conclusive(history) && C1Holds(history.commits) && !C2Holds(Emails(history.commits))
  {
    results := Flags(false, false, false, false, false, false);

    // C4
    var totalFiles, iacFiles := CountFiles(files);
    var iacRatio := IacRatio(iacFiles, totalFiles);
    C4Threshold(iacFiles, totalFiles);
    if iacRatio < MinIacRatio {
      results := results.(c4Fail := true);
      return;
    }
    results := results.(c4Pass := true);

    // Git history
    if history.NotARepository? {
      return;
    }
    var allCommits := history.commits;
    if |allCommits| < 2 {
      return;
    }
    if allCommits[|allCommits| - 1].committedDay.None? || allCommits[0].committedDay.None? {
      return;
    }

    // C1
    var spanDays := SpanDays(allCommits);
    var avgMonthlyCommits := MonthlyRate(|allCommits|, spanDays);
    C1Threshold(|allCommits|, spanDays);
    if avgMonthlyCommits < MinMonthlyCommits {
      results := results.(c1Fail := true);
      return;
    }
    results := results.(c1Pass := true);

    // C2: the counter's keys are the distinct e-mails, its values their commit counts
    var emails := Emails(allCommits);
    var contributors := Distinct(emails);
    var totalContributorCommits := SumCounts(emails, contributors);
    SumCountsIsLength(emails);
    // fewer than two authors, or (never, as the counts add up to at least 2) no commits
    if |contributors| < 2 || totalContributorCommits == 0 {
      results := results.(c2Fail := true);
      return;
    }
    var (first, second) := TopTwo(emails);
    var topTwoCommits := Count(emails, first) + Count(emails, second);
    var topTwoRatio := topTwoCommits as real / totalContributorCommits as real;
    C2Threshold(topTwoCommits, totalContributorCommits);
    if topTwoRatio < CoreContributorThreshold {
      results := results.(c2Fail := true);
      return;
    }
    results := results.(c2Pass := true);
  }
}
