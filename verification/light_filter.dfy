/**
  * Phase 1's repository filter (`get_repo_details_and_filter`) and the batch step
  * that records the accepted names (`batch_filter_repositories`).
  *
  * The repository API is not modelled: what one request for a repository yields is an
  * input, either the metadata record the filter reads, a rate-limit refusal, or any
  * other request failure.
  */
module LightFilter {
  import opened Wrappers
  import opened Text

  /** C3: the last push may be at most this many whole days ago. */
  const RecentPushDays: int := 180

  /** Words that mark a repository as a template, tutorial or demo rather than a real project. */
  const ExclusionKeywords: seq<string> := [
    "template", "boilerplate", "starter", "demo", "example", "tutorial", "learning",
    "test", "dummy", "poc", "proof-of-concept", "workshop", "docs", "examples",
    "template-repo", "iac-demo", "sample"]

  /**
    * The fields of the repository metadata that the filter reads. A key the record
    * lacks reads as its default: not archived, 0 stars, no license, not a template,
    * no description. `pushedDaysAgo` is the whole number of days between the last push
    * and now (`timedelta.days`), or None when `pushed_at` is missing or empty.
    */
  datatype RepoDetails = RepoDetails(
    archived: bool,
    stars: nat,
    hasLicense: bool,
    isTemplate: bool,
    description: Option<string>,
    pushedDaysAgo: Option<int>)

  /** The outcome of the metadata request for one repository. */
  datatype FetchResult = Fetched(details: RepoDetails) | RateLimited | RequestFailed

  /** `any(keyword in text for keyword in keywords)`. */
  function AnyKeywordIn(keywords: seq<string>, text: string): (r: bool)
    ensures r <==> exists i :: 0 <= i < |keywords| && IsSubstring(keywords[i], text)
  {
    if |keywords| == 0 then false
    else IsSubstring(keywords[0], text) || AnyKeywordIn(keywords[1..], text)
  }

  /** The name test of the first step, applied before anything is fetched. */
  predicate NameExcluded(name: string) {
    AnyKeywordIn(ExclusionKeywords, Lower(name))
  }

  /**
    * The filter: the name itself when the repository is kept, None when it is
    * rejected. The checks run in this order and the first that rejects wins.
    */
  function FilterRepository(name: string, fetch: FetchResult): (r: Option<string>)
    ensures r.Some? ==> r.value == name
    ensures NameExcluded(name) ==> r == None
    ensures !fetch.Fetched? ==> r == None
  {
    if NameExcluded(name) then None
    else match fetch
      case RateLimited => None
      case RequestFailed => None
      case Fetched(d) =>
        if d.archived then None
        else if d.stars == 0 then None
        else if !d.hasLicense then None
        else if d.isTemplate then None
        else if d.description.Some? && |d.description.value| > 0 &&
                AnyKeywordIn(ExclusionKeywords, Lower(d.description.value)) then None
        else match d.pushedDaysAgo
          case None => None
          case Some(days) => if days > RecentPushDays then None else Some(name)
  }

  /** A repository passes every non-research, paper and C3 criterion. */
  predicate Eligible(name: string, d: RepoDetails) {
    (forall i :: 0 <= i < |ExclusionKeywords| ==> !IsSubstring(ExclusionKeywords[i], Lower(name))) &&
    !d.archived && d.stars > 0 && d.hasLicense && !d.isTemplate &&
    (d.description.Some? ==>
       forall i :: 0 <= i < |ExclusionKeywords| ==> !IsSubstring(ExclusionKeywords[i], Lower(d.description.value))) &&
    d.pushedDaysAgo.Some? && d.pushedDaysAgo.value <= RecentPushDays
  }

  /** The filter keeps exactly the eligible repositories whose metadata could be fetched. */
  lemma FilterKeepsExactlyEligible(name: string, fetch: FetchResult)
    ensures FilterRepository(name, fetch) == Some(name) <==> fetch.Fetched? && Eligible(name, fetch.details)
    ensures FilterRepository(name, fetch) != Some(name) ==> FilterRepository(name, fetch) == None
  {
    if fetch.Fetched? {
      var d := fetch.details;
      if d.description.Some? && |d.description.value| == 0 {
        EmptyTextHasNoKeyword(d.description.value);
      }
    }
  }

  /** No exclusion keyword is empty, so an empty text contains none of them. */
  lemma EmptyTextHasNoKeyword(text: string)
    requires |text| == 0
    ensures forall i :: 0 <= i < |ExclusionKeywords| ==> !IsSubstring(ExclusionKeywords[i], text)
  {
    forall i | 0 <= i < |ExclusionKeywords|
      ensures !IsSubstring(ExclusionKeywords[i], text)
    {
      assert |ExclusionKeywords[i]| > 0;
    }
  }

  /** The C3 boundary: a push exactly 180 days ago passes, 181 days ago fails. */
  lemma RecentPushBoundary(name: string, d: RepoDetails)
    requires !NameExcluded(name)
    requires !d.archived && d.stars > 0 && d.hasLicense && !d.isTemplate && d.description == None
    ensures FilterRepository(name, Fetched(d.(pushedDaysAgo := Some(180)))) == Some(name)
    ensures FilterRepository(name, Fetched(d.(pushedDaysAgo := Some(181)))) == None
    ensures FilterRepository(name, Fetched(d.(pushedDaysAgo := None))) == None
  {
  }

  /** The name test is a substring test on the lower-cased name: the case of the name does not matter. */
  lemma NameTestIgnoresCase(name: string)
    requires IsSubstring("demo", Lower(name))
    ensures FilterRepository(name, Fetched(RepoDetails(false, 10, true, false, None, Some(0)))) == None
    ensures NameExcluded(name)
  {
    assert ExclusionKeywords[3] == "demo";
  }

  /** A description naming a workshop with the Kelvin sign for `K` still matches "workshop". */
  lemma KelvinSignDescription(name: string, d: RepoDetails)
    ensures FilterRepository(name, Fetched(d.(description := Some("terraform wor\U{212A}shop")))) == None
  {
    var text := "terraform wor\U{212A}shop";
    LowerExamples();
    assert Lower(text) == "terraform " + Lower("wor\U{212A}shop");
    assert ExclusionKeywords[11] == "workshop";
    assert OccursAt("workshop", Lower(text), 10);
    OccurrenceIsSubstring("workshop", Lower(text), 10);
  }

  /** Names of `repoNames[..n]` that the filter keeps and that are not empty (`if result:`). */
  function AcceptedAmong(repoNames: seq<string>, fetches: seq<FetchResult>, n: nat): set<string>
    requires n <= |repoNames| == |fetches|
  {
    if n == 0 then {}
    else
      AcceptedAmong(repoNames, fetches, n - 1) +
      (if repoNames[n - 1] != "" && FilterKeeps(repoNames[n - 1], fetches[n - 1]) then {repoNames[n - 1]} else {})
  }

  /** Every accepted name is a non-empty name of the batch that the filter keeps, and every such name is accepted. */
  lemma {:induction false} AcceptedAmongMembers(repoNames: seq<string>, fetches: seq<FetchResult>, n: nat, x: string)
    requires n <= |repoNames| == |fetches|
    ensures x in AcceptedAmong(repoNames, fetches, n) <==>
              x != "" && exists i :: 0 <= i < n && repoNames[i] == x && FilterKeeps(x, fetches[i])
  {
    if n > 0 {
      AcceptedAmongMembers(repoNames, fetches, n - 1, x);
      if repoNames[n - 1] == x && x != "" && FilterKeeps(x, fetches[n - 1]) {
        assert x in AcceptedAmong(repoNames, fetches, n);
      }
    }
  }

  /** One more name extends the accepted set by the filter's result for it, when that result is a non-empty name. */
  lemma AcceptedAmongStep(repoNames: seq<string>, fetches: seq<FetchResult>, n: nat, result: Option<string>)
    requires n < |repoNames| == |fetches|
    requires result == FilterRepository(repoNames[n], fetches[n])
    ensures AcceptedAmong(repoNames, fetches, n + 1) ==
            AcceptedAmong(repoNames, fetches, n) + (if result.Some? && result.value != "" then {result.value} else {})
  {
  }

  /** The filter keeps the repository. */
  predicate FilterKeeps(name: string, fetch: FetchResult) {
    FilterRepository(name, fetch) == Some(name)
  }

  /** The shared set of accepted repository names (`found_repositories`). */
  class FoundRepositories {
    var names: set<string>

    constructor ()
      ensures names == {}
    {
      names := {};
    }

    /**
      * Filters one batch of names, run sequentially: `fetches[i]` is what the request
      * for `repoNames[i]` yields. The set only grows, by exactly the kept names, and
      * the returned count is the number of names that were not already present.
      */
    method BatchFilter(repoNames: seq<string>, fetches: seq<FetchResult>) returns (validCount: nat)
      requires |fetches| == |repoNames|
      modifies this
      ensures names == old(names) + AcceptedAmong(repoNames, fetches, |repoNames|)
      ensures |names| == |old(names)| + validCount
    {
      validCount := 0;
      for i := 0 to |repoNames|
        invariant names == old(names) + AcceptedAmong(repoNames, fetches, i)
        invariant |names| == |old(names)| + validCount
      {
        var result := FilterRepository(repoNames[i], fetches[i]);
        AcceptedAmongStep(repoNames, fetches, i, result);
        ghost var seen := names;
        var added := Record(result);
        RecordStep(old(names), seen, names, AcceptedAmong(repoNames, fetches, i), result, added, validCount);
        if added {
          validCount := validCount + 1;
        }
      }
    }

    /**
      * The test-and-insert done under the lock for one filter result: a kept, non-empty
      * name is added, and `added` tells whether it was new.
      */
    method Record(result: Option<string>) returns (added: bool)
      modifies this
      ensures names == if result.Some? && result.value != "" then old(names) + {result.value} else old(names)
      ensures added <==> result.Some? && result.value != "" && result.value !in old(names)
      ensures |names| == |old(names)| + (if added then 1 else 0)
    {
      added := false;
      if result.Some? && result.value != "" {
        if result.value !in names {
          names := names + {result.value};
          added := true;
        }
      }
    }
  }

  /** Recording one result keeps the set equal to the names held before the batch plus those accepted so far. */
  lemma RecordStep(before: set<string>, seen: set<string>, now: set<string>, accepted: set<string>,
                   result: Option<string>, added: bool, count: nat)
    requires seen == before + accepted && |seen| == |before| + count
    requires now == if result.Some? && result.value != "" then seen + {result.value} else seen
    requires |now| == |seen| + (if added then 1 else 0)
    ensures now == before + (accepted + (if result.Some? && result.value != "" then {result.value} else {}))
    ensures |now| == |before| + count + (if added then 1 else 0)
  {
  }

  /**
    * Adding a set adds as many elements as it has outside the original; with
    * `BatchFilter`'s contract this makes its count the number of kept names that
    * were not already present.
    */
  lemma NewNamesCount(before: set<string>, added: set<string>)
    ensures |before + added| == |before| + |added - before|
  {
    assert before + added == before + (added - before);
    assert before * (added - before) == {};
  }
}
