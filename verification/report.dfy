/**
  * Phase 3's counting (`phase_3_deep_analysis`): every listed repository that has a
  * checkout is analysed, the repositories that pass C4, then C1, then C2 are collected
  * in three lists, and the number excluded by each criterion is the difference
  * between consecutive list lengths.
  *
  * The clone directory is an input: a map from directory name to what the checkout
  * holds (its file names and its Git history).
  */
module CurationReport {
  import opened DeepFilter
  import opened CloneRepos

  datatype Checkout = Checkout(files: seq<string>, history: History)

  /**
    * How many of the ordered criteria a repository passes: 0 when it has no checkout
    * or fails C4, 1 when it passes C4 but fails C1 or its history is inconclusive,
    * 2 when it passes C1 but fails C2, 3 when it passes all three.
    */
  function Level(corpus: map<string, Checkout>, repo: string): (k: nat)
    ensures k <= 3
    ensures DirName(repo) !in corpus ==> k == 0
  {
    var dir := DirName(repo);
    if dir !in corpus then 0
    else
      var c := corpus[dir];
      if !C4Holds(c.files) then 0
      else if !(Conclusive(c.history) && C1Holds(c.history.commits)) then 1
      else if !C2Holds(Emails(c.history.commits)) then 2
      else 3
  }

  /** `Level` for one clone directory, as a function of the repository name. */
  function LevelIn(corpus: map<string, Checkout>): string -> nat {
    (repo: string) => Level(corpus, repo)
  }

  /** The repositories of `repos`, in order, whose level is at least `k`. */
  function Reaching(repos: seq<string>, level: string -> nat, k: nat): (r: seq<string>)
    ensures |r| <= |repos|
    ensures forall x :: x in r ==> x in repos && level(x) >= k
  {
    if |repos| == 0 then []
    else
      var init := Reaching(repos[..|repos| - 1], level, k);
      var x := repos[|repos| - 1];
      if level(x) >= k then init + [x] else init
  }

  /** The number of repositories of `repos` whose level is exactly `k`. */
  function CountAtLevel(repos: seq<string>, level: string -> nat, k: nat): (n: nat)
    ensures n <= |repos|
  {
    if |repos| == 0 then 0
    else CountAtLevel(repos[..|repos| - 1], level, k) + (if level(repos[|repos| - 1]) == k then 1 else 0)
  }

  /** Each list is drawn from the one before it: valid ⊆ after C1 ⊆ after C4 ⊆ the initial list. */
  lemma {:induction false} ReachingNested(repos: seq<string>, level: string -> nat, k: nat)
    ensures Reaching(repos, level, 0) == repos
    ensures forall x :: x in Reaching(repos, level, k + 1) ==> x in Reaching(repos, level, k)
    ensures |Reaching(repos, level, k + 1)| <= |Reaching(repos, level, k)|
  {
    if |repos| > 0 {
      ReachingNested(repos[..|repos| - 1], level, k);
      assert repos[..|repos| - 1] + [repos[|repos| - 1]] == repos;
    }
  }

  /** The drop from one list to the next is the number of repositories that stop at that level. */
  lemma {:induction false} ReachingDrop(repos: seq<string>, level: string -> nat, k: nat)
    ensures |Reaching(repos, level, k)| == |Reaching(repos, level, k + 1)| + CountAtLevel(repos, level, k)
  {
    if |repos| > 0 {
      ReachingDrop(repos[..|repos| - 1], level, k);
    }
  }

  /**
    * Analyses the listed repositories and counts the exclusions. Each exclusion
    * count is the number of repositories that stop at that criterion, so a
    * repository without a checkout counts against C4 and one whose history is
    * inconclusive counts against C1; the three counts and the final selection
    * add up to the initial count.
    */
  method DeepAnalysis(initialRepositories: seq<string>, corpus: map<string, Checkout>)
    returns (reposAfterC4: seq<string>, reposAfterC1: seq<string>, validRepos: seq<string>,
             excludedByC4: int, excludedByC1: int, excludedByC2: int)
    ensures reposAfterC4 == Reaching(initialRepositories, LevelIn(corpus), 1)
    ensures reposAfterC1 == Reaching(initialRepositories, LevelIn(corpus), 2)
    ensures validRepos == Reaching(initialRepositories, LevelIn(corpus), 3)
    ensures excludedByC4 == CountAtLevel(initialRepositories, LevelIn(corpus), 0)
    ensures excludedByC1 == CountAtLevel(initialRepositories, LevelIn(corpus), 1)
    ensures excludedByC2 == CountAtLevel(initialRepositories, LevelIn(corpus), 2)
    ensures excludedByC4 >= 0 && excludedByC1 >= 0 && excludedByC2 >= 0
    ensures excludedByC4 + excludedByC1 + excludedByC2 + |validRepos| == |initialRepositories|
  {
    var initialCount := |initialRepositories|;
    reposAfterC4, reposAfterC1, validRepos := CollectPassing(initialRepositories, corpus);

    var c4PassCount := |reposAfterC4|;
    excludedByC4 := initialCount - c4PassCount;
    var c1PassCount := |reposAfterC1|;
    excludedByC1 := c4PassCount - c1PassCount;
    var c2PassCount := |validRepos|;
    excludedByC2 := c1PassCount - c2PassCount;

    ghost var level := LevelIn(corpus);
    ReachingNested(initialRepositories, level, 0);
    ReachingDrop(initialRepositories, level, 0);
    ReachingDrop(initialRepositories, level, 1);
    ReachingDrop(initialRepositories, level, 2);
  }

  /** The analysis loop: the repositories passing C4, then also C1, then also C2, in list order. */
  method CollectPassing(initialRepositories: seq<string>, corpus: map<string, Checkout>)
    returns (reposAfterC4: seq<string>, reposAfterC1: seq<string>, validRepos: seq<string>)
    ensures reposAfterC4 == Reaching(initialRepositories, LevelIn(corpus), 1)
    ensures reposAfterC1 == Reaching(initialRepositories, LevelIn(corpus), 2)
    ensures validRepos == Reaching(initialRepositories, LevelIn(corpus), 3)
  {
    ghost var level := LevelIn(corpus);
    reposAfterC4, reposAfterC1, validRepos := [], [], [];
    var i := 0;
    while i < |initialRepositories|
      invariant 0 <= i <= |initialRepositories|
      invariant reposAfterC4 == Reaching(initialRepositories[..i], level, 1)
      invariant reposAfterC1 == Reaching(initialRepositories[..i], level, 2)
      invariant validRepos == Reaching(initialRepositories[..i], level, 3)
    {
      var repoFullName := initialRepositories[i];
      assert initialRepositories[..i + 1][..i] == initialRepositories[..i];
      var cloned, results := AnalyzeListed(corpus, repoFullName);
      if cloned {
        if results.c4Pass {
          reposAfterC4 := reposAfterC4 + [repoFullName];
          if results.c1Pass {
            reposAfterC1 := reposAfterC1 + [repoFullName];
            if results.c2Pass {
              validRepos := validRepos + [repoFullName];
            }
          }
        }
      }
      i := i + 1;
    }
    assert initialRepositories[..i] == initialRepositories;
  }

  /**
    * Looks up a repository's checkout and analyses it; `cloned` is false when its
    * directory does not exist (the clone failed), and then nothing is analysed.
    */
  method AnalyzeListed(corpus: map<string, Checkout>, repoFullName: string) returns (cloned: bool, results: Flags)
    ensures cloned <==> DirName(repoFullName) in corpus
    ensures !cloned ==> LevelIn(corpus)(repoFullName) == 0
    ensures cloned ==> (results.c4Pass <==> LevelIn(corpus)(repoFullName) >= 1)
    ensures cloned ==> (results.c1Pass <==> LevelIn(corpus)(repoFullName) >= 2)
    ensures cloned ==> (results.c2Pass <==> LevelIn(corpus)(repoFullName) >= 3)
    ensures cloned ==> ShortCircuit(results)
  {
    var repoPath := DirName(repoFullName);
    results := Flags(false, false, false, false, false, false);
    cloned := repoPath in corpus;
    if cloned {
      var checkout := corpus[repoPath];
      results := AnalyzeRepository(checkout.files, checkout.history);
    }
  }
}
