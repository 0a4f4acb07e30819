/**
  * Phase 2's bookkeeping (`phase_2_clone_repos`): each repository of the list is
  * given a directory named after it, skipped when that directory already exists,
  * and cloned otherwise; three counters record the outcome.
  *
  * `git clone` is not modelled: whether the clone of the i-th repository would succeed
  * is the input `cloneSucceeds[i]`, consulted only when a clone is attempted. A failed
  * clone leaves no directory behind.
  */
module CloneRepos {
  import opened Text

  /** `repo_full_name.replace("/", "_")`: the directory a repository is cloned into. */
  function DirName(repoFullName: string): (r: string)
    ensures |r| == |repoFullName|
    ensures '/' !in r
  {
    ReplaceChar(repoFullName, '/', '_')
  }

  /**
    * For `owner/name` full names whose owner has no underscore (GitHub account names
    * never do), different repositories get different directories.
    */
  lemma DirNameInjective(owner1: string, name1: string, owner2: string, name2: string)
    requires '_' !in owner1 && '/' !in owner1 && '/' !in name1
    requires '_' !in owner2 && '/' !in owner2 && '/' !in name2
    requires DirName(owner1 + "/" + name1) == DirName(owner2 + "/" + name2)
    ensures owner1 == owner2 && name1 == name2
  {
    var x, y := owner1 + "/" + name1, owner2 + "/" + name2;
    var dx, dy := DirName(x), DirName(y);
    assert dx[|owner1|] == '_' by { assert x[|owner1|] == '/'; }
    assert dy[|owner2|] == '_' by { assert y[|owner2|] == '/'; }
    assert |owner1| == |owner2|;
    forall i | 0 <= i < |owner1|
      ensures owner1[i] == owner2[i]
    {
      assert x[i] == owner1[i] && y[i] == owner2[i];
    }
    forall j | 0 <= j < |name1|
      ensures name1[j] == name2[j]
    {
      assert x[|owner1| + 1 + j] == name1[j] && y[|owner2| + 1 + j] == name2[j];
    }
  }

  /**
    * The directories present after the first `n` repositories: those present before,
    * plus the directory of every repository whose clone was attempted and succeeded.
    */
  function DirsAfter(repos: seq<string>, cloneSucceeds: seq<bool>, existing: set<string>, n: nat): set<string>
    requires n <= |repos| == |cloneSucceeds|
  {
    if n == 0 then existing
    else
      var before := DirsAfter(repos, cloneSucceeds, existing, n - 1);
      var dir := DirName(repos[n - 1]);
      if dir !in before && cloneSucceeds[n - 1] then before + {dir} else before
  }

  /** The i-th repository's directory exists when its turn comes. */
  predicate AlreadyPresent(repos: seq<string>, cloneSucceeds: seq<bool>, existing: set<string>, i: nat)
    requires i < |repos| == |cloneSucceeds|
  {
    DirName(repos[i]) in DirsAfter(repos, cloneSucceeds, existing, i)
  }

  /** A directory exists at the end exactly when it existed before or a repository with that directory was cloned successfully. */
  lemma {:induction false} DirsAfterMembers(repos: seq<string>, cloneSucceeds: seq<bool>, existing: set<string>, n: nat, d: string)
    requires n <= |repos| == |cloneSucceeds|
    ensures d in DirsAfter(repos, cloneSucceeds, existing, n) <==>
              d in existing || exists j :: 0 <= j < n && DirName(repos[j]) == d && cloneSucceeds[j]
  {
    if n > 0 {
      DirsAfterMembers(repos, cloneSucceeds, existing, n - 1, d);
      if DirName(repos[n - 1]) == d && cloneSucceeds[n - 1] {
        assert d in DirsAfter(repos, cloneSucceeds, existing, n);
      }
    }
  }

  /** The number of the first `n` repositories that were skipped because their directory existed. */
  function SkippedAmong(repos: seq<string>, cloneSucceeds: seq<bool>, existing: set<string>, n: nat): (k: nat)
    requires n <= |repos| == |cloneSucceeds|
    ensures k <= n
  {
    if n == 0 then 0
    else SkippedAmong(repos, cloneSucceeds, existing, n - 1) +
         (if AlreadyPresent(repos, cloneSucceeds, existing, n - 1) then 1 else 0)
  }

  /** The number of the first `n` repositories whose clone was attempted and succeeded. */
  function ClonedAmong(repos: seq<string>, cloneSucceeds: seq<bool>, existing: set<string>, n: nat): (k: nat)
    requires n <= |repos| == |cloneSucceeds|
    ensures SkippedAmong(repos, cloneSucceeds, existing, n) + k <= n
  {
    if n == 0 then 0
    else ClonedAmong(repos, cloneSucceeds, existing, n - 1) +
         (if !AlreadyPresent(repos, cloneSucceeds, existing, n - 1) && cloneSucceeds[n - 1] then 1 else 0)
  }

  /**
    * Clones the listed repositories into the clone directory, whose entries before the
    * run are `existing`. A repository whose directory exists counts as successful and
    * as skipped and is not cloned again; every other one is cloned and counts as
    * successful or failed. `dirs` are the entries afterwards.
    */
  method CloneRepositories(repositories: seq<string>, existing: set<string>, cloneSucceeds: seq<bool>)
    returns (successfulClones: nat, skippedClones: nat, failedClones: nat, dirs: set<string>)
    requires |cloneSucceeds| == |repositories|
    ensures successfulClones + failedClones == |repositories|
    ensures skippedClones <= successfulClones
    ensures skippedClones == SkippedAmong(repositories, cloneSucceeds, existing, |repositories|)
    ensures successfulClones == skippedClones + ClonedAmong(repositories, cloneSucceeds, existing, |repositories|)
    ensures dirs == DirsAfter(repositories, cloneSucceeds, existing, |repositories|)
    ensures existing <= dirs
  {
    successfulClones, skippedClones, failedClones := 0, 0, 0;
    dirs := existing;
    var i := 0;
    while i < |repositories|
      invariant 0 <= i <= |repositories|
      invariant dirs == DirsAfter(repositories, cloneSucceeds, existing, i)
      invariant existing <= dirs
      invariant skippedClones == SkippedAmong(repositories, cloneSucceeds, existing, i)
      invariant successfulClones == skippedClones + ClonedAmong(repositories, cloneSucceeds, existing, i)
      invariant successfulClones + failedClones == i
    {
      var repoDirName := DirName(repositories[i]);
      if repoDirName in dirs {
        successfulClones := successfulClones + 1;
        skippedClones := skippedClones + 1;
      } else if cloneSucceeds[i] {
        dirs := dirs + {repoDirName};
        successfulClones := successfulClones + 1;
      } else {
        failedClones := failedClones + 1;
      }
      i := i + 1;
    }
  }
}
