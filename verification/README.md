# terraform_mi: a verified model of the dataset builder and the maturity filter

This project models two sequential parts of the terraform_mi pipeline in Dafny and
proves properties about them.

**The dataset builder** (`build_dataset.py`):

- The brace-depth extractor cuts Terraform blocks out of a `.tf` file.
- The Metrics Tool report is normalised into one flat record of 22 counters.
- The Maintainability Index engine scores each block: fifteen piecewise sub-scores, five
  weighted categories, one index.
- The per-repository writer emits one row per block. It then emits one summary row per
  file, in first-seen order.

**The mining pipeline** (`mine_repositories.py`):

- Phase 1's repository filter and the batch step that records the accepted names.
- Phase 2's clone bookkeeping.
- Phase 3's three ordered maturity criteria: C4 (share of `.tf` files), C1 (monthly
  commits) and C2 (share of the two most active authors).
- Phase 3's exclusion counting.

Modules, one per file:

| file | module | models |
|---|---|---|
| wrappers.dfy | Wrappers | `Option` for Python's `None` |
| text.dfy | Text | `split("\n")`, `"\n".join`, `count("\n")`, `in` on strings, `lower`, `replace` |
| seqs.dfy | Seqs | dictionary key order (`Distinct`) and `Counter` counts |
| power.dfy | RealPower | `x ** e` as a function value `pow` with the laws of real powers |
| extractor.dfy | BlockExtractor | `_extract_block` and `_parse_tf_file` |
| metrics.dfy | TerraMetrics | `_parse_metrics` and `_empty_metrics` |
| maintainability.dfy | Maintainability | `MaintainabilityIndexCalculator` |
| summary.dfy | DatasetRows | `_process_single_repository`, `_create_csv_row`, `_create_file_summary_row` |
| light_filter.dfy | LightFilter | `get_repo_details_and_filter`, `batch_filter_repositories` |
| clone.dfy | CloneRepos | `phase_2_clone_repos` |
| deep_filter.dfy | DeepFilter | `analyze_repository` |
| report.dfy | CurationReport | `phase_3_deep_analysis` |

**How the world outside the code is represented:**

- What the outside world supplies comes in as input values:
  - the regex matches of block headers
  - the Metrics Tool's output for each block
  - the metadata a GitHub request yields, or that the request failed
  - whether each `git clone` would succeed
  - the file names in a checkout
  - the commit log, as author e-mails and whole-day commit dates
- The loops the program runs step by step are Dafny methods with loop invariants, proved
  against specification functions: `ScanLine`, `ExtractBlock`, `ParseFile`,
  `WriteBlockRows`, `WriteSummaryRows`, `CountFiles`, `CloneRepositories`,
  `CollectPassing` and `DeepAnalysis`.
- The shared set of accepted names is a class whose `BatchFilter` and `Record` methods
  update it in place.
- The scoring code is expressions only, so it is modelled as functions.

## Model

| member | source | states |
|---|---|---|
| Text.Split | build_dataset.py:70 | `split("\n")` gives one more line than the text has newlines, and no line contains a newline |
| Text.JoinSplit | build_dataset.py:134 | joining the lines of a text with `"\n"` gives back the text |
| Text.SplitJoin | build_dataset.py:109 | splitting lines that hold no newline, once joined, gives back those lines, so a block's `loc` is the number of lines joined |
| Text.IsSubstringAt | mine_repositories.py:108 | `k in s` holds exactly when `k` occurs in `s` at some offset |
| Text.Lower | mine_repositories.py:107 | the model's lower-casing leaves no ASCII capital and no Kelvin sign, and changes only those characters |
| Text.LowerIdempotent | mine_repositories.py:107 | lower-casing an already lower-cased text changes nothing |
| Text.LowerExamples | mine_repositories.py:135 | mixed-case ASCII and the Kelvin sign lower-case to the ASCII letters the keywords are written in |
| Text.ReplaceChar | mine_repositories.py:342 | every occurrence of the replaced character becomes the replacement, nothing else changes, and none of the replaced character is left when the two differ |
| Text.NatToString | build_dataset.py:1039 | the decimal form of a count is a non-empty string of digits |
| Seqs.Distinct | build_dataset.py:973-978 | dictionary keys in first-seen order hold no duplicate and are no more than the walked items |
| Seqs.DistinctMembers | build_dataset.py:973-978 | the keys are exactly the walked items |
| Seqs.DistinctSnoc | build_dataset.py:973-978 | a new item is appended as the last key only when it is not already a key |
| Seqs.Count | mine_repositories.py:437 | a `Counter` count is at most the number of items, and positive exactly for items that occur |
| RealPower.PowRange | build_dataset.py:557 | under the laws of real powers, `x ** e` is non-negative, below 1 for a base below 1, and at least 1 for a base of at least 1 |
| RealPower.PowMonotone | build_dataset.py:579 | a larger base gives a larger power |
| BlockExtractor.ScanLine | build_dataset.py:124-134 | scanning one line from the count and in-block flag of the text read so far reports closing exactly when a prefix of the text closes the block; otherwise it returns the count and flag after the line |
| BlockExtractor.ExtractBlock | build_dataset.py:115-136 | the end line is 1 plus the index of the first line on which the block closes, and the content is the lines from the start through that line, joined with `"\n"`; with no such line the result is (-1, "") |
| BlockExtractor.ClosingLineIsFirst | build_dataset.py:120-136 | the closing line found is the first line on which some character closes the block; none is found exactly when no prefix of the remaining lines closes it |
| BlockExtractor.StrayClosingBrace | build_dataset.py:126-134 | a `}` before any `{` drives the count to -1 without ending the block, and a later `{` on the next line then ends the block on that line |
| BlockExtractor.OneLineBlock | build_dataset.py:128-134 | a header whose braces open and close on one line closes on that line |
| BlockExtractor.UnclosedBlock | build_dataset.py:136 | a block whose braces never balance is not found, so `_parse_tf_file` drops it |
| BlockExtractor.StartLine | build_dataset.py:86-87 | the start line is 1 or more and at most the number of lines of the file |
| BlockExtractor.FileBlocks | build_dataset.py:84-111 | a file yields at most one record per header match |
| BlockExtractor.ParseFile | build_dataset.py:64-113 | the records appended are one per match whose block closes, in match order |
| BlockExtractor.BlockOfWellFormed | build_dataset.py:86-111 | a record's start line is 1 plus the newlines before the match; its lines lie inside the file; its code is exactly those lines; its loc is end − start + 1; its name and type come from the match |
| BlockExtractor.FileBlocksWellFormed | build_dataset.py:84-111 | every record of a file is well formed and comes from one of the file's matches |
| TerraMetrics.MaxOf | build_dataset.py:243 | the maximum with default 0 bounds every block's value and is attained by some block when there is one |
| TerraMetrics.ParseMetrics | build_dataset.py:232-291 | the nesting depth is at least every block's and equals one of them; with no block, the summed and first-block counters are all 0 |
| TerraMetrics.EmptyReportIsFallback | build_dataset.py:293-318 | a report with no counters normalises to the failure fallback, and the fallback sets all 22 counters to 0 |
| TerraMetrics.ZeroCountersSum | build_dataset.py:242 | summing a key that no block has gives 0 |
| Maintainability.ModuleRatioScore | build_dataset.py:553-560 | the module-ratio score never falls below 30 |
| Maintainability.ModuleScore | build_dataset.py:549-562 | with no resources and no modules the score is the neutral 60; it is never below 30 |
| Maintainability.SizeScore | build_dataset.py:566-579 | the block-size score never falls below 20 |
| Maintainability.VariableRatioScore | build_dataset.py:584-589 | the variable-ratio score never falls below 40 |
| Maintainability.VariableScore | build_dataset.py:583-589 | the ratio divides by max(blocks, 1), and the score never falls below 40 |
| Maintainability.HardCodedRatioScore | build_dataset.py:607-611 | the hard-coding score never falls below 30 |
| Maintainability.ExplicitScore | build_dataset.py:604-613 | with no attributes the score is 90; it is never below 30 |
| Maintainability.AttributeScore | build_dataset.py:617-625 | the attribute-count score never falls below 20 |
| Maintainability.NestingScore | build_dataset.py:629-638 | the nesting score lies in [15, 90] |
| Maintainability.ComplexityScore | build_dataset.py:653-661 | the complexity score never falls below 20 |
| Maintainability.DependencyCountScore | build_dataset.py:665-673 | the dependency-count score never falls below 20 |
| Maintainability.GraphDepthScore | build_dataset.py:677-684 | the graph-depth score lies in [20, 90] |
| Maintainability.DeprecatedScore | build_dataset.py:699 | the deprecated-use score lies in [20, 90] |
| Maintainability.WildcardScore | build_dataset.py:703 | the wildcard score lies in [20, 90] |
| Maintainability.DynamismScore | build_dataset.py:707-716 | the dynamism score lies in [20, 90] |
| Maintainability.OutputRatioScore | build_dataset.py:733-740 | the output-ratio score never falls below 30 |
| Maintainability.OutputScore | build_dataset.py:730-742 | with no resources the score is the neutral 70; it is never below 30 |
| Maintainability.DataRatioScore | build_dataset.py:747-754 | the data-ratio score never falls below 30 |
| Maintainability.DataScore | build_dataset.py:746-754 | the ratio divides by max(resources + data, 1), and the score never falls below 30 |
| Maintainability.ModuleRatioPlateau | build_dataset.py:553-560 | the module-ratio score peaks at 90, and is exactly 90 on [0.2, 0.6], both ends included |
| Maintainability.VariableRatioPlateau | build_dataset.py:584-589 | the variable-ratio score peaks at 90, and is exactly 90 on [0.4, 1.5] |
| Maintainability.HardCodedRatioPlateau | build_dataset.py:607-611 | the hard-coding score peaks at 90, and is exactly 90 for a ratio up to 0.25 |
| Maintainability.OutputRatioPlateau | build_dataset.py:733-740 | the output-ratio score peaks at 90, and is exactly 90 on [0.25, 0.75] |
| Maintainability.DataRatioPlateau | build_dataset.py:747-754 | the data-ratio score peaks at 90, is exactly 90 up to 0.25, and is at most 75 above 0.4 |
| Maintainability.SizeScorePeak | build_dataset.py:566-579 | the size score peaks at 95 exactly at 25 lines, and is at most 80 beyond 60 lines |
| Maintainability.SegmentJoins | build_dataset.py:553-716 | the pieces meet at the documented points: module ratio 0.2 and 0.6 give 90; size 10/25/60/61 gives 70/95/80/79.8; graph depth 1/2/3 gives 90/75/60; dynamism 2/3/4 gives 80/65/50; 25 attributes give 51; complexity 8 gives 58; 6 dependencies give 60; each steeper piece starts below its joint |
| Maintainability.AttributeScoreAntitone | build_dataset.py:617-625 | more attributes never raise the score, which is at most 90 |
| Maintainability.ComplexityScoreAntitone | build_dataset.py:653-661 | more complexity never raises the score, which is at most 90 |
| Maintainability.DependencyCountScoreAntitone | build_dataset.py:665-673 | more dependencies never raise the score, which is at most 90 |
| Maintainability.CountScoresAntitone | build_dataset.py:629-716 | greater nesting, graph depth, deprecated, wildcard or dynamic counts never raise their scores |
| Maintainability.ModuleScoreRange | build_dataset.py:549-562 | the module score lies in [30, 90] |
| Maintainability.VariableScoreRange | build_dataset.py:583-589 | the variable score lies in [40, 90] |
| Maintainability.ExplicitScoreRange | build_dataset.py:604-613 | the explicitness score lies in [30, 90] |
| Maintainability.OutputScoreRange | build_dataset.py:730-742 | the output score lies in [30, 90] |
| Maintainability.DataScoreRange | build_dataset.py:746-754 | the data score lies in [30, 90] |
| Maintainability.CategoriesInRange | build_dataset.py:539-756 | each of the five category scores lies in [15, 95] |
| Maintainability.IndexInRange | build_dataset.py:495-501 | the index, weighted 0.25/0.25/0.20/0.20/0.10, lies in [15, 95] and between the smallest and the largest category score |
| Maintainability.IndexAntitone | build_dataset.py:464-503 | more nesting, complexity, dependencies, graph depth, deprecated uses, wildcards, loops or conditions never raise the clarity score or the index |
| Maintainability.FallbackIndex | build_dataset.py:464-503 | a block scored on the all-zero fallback metrics gets 80.175 at one line of code and 81.75 at zero lines |
| DatasetRows.EscapeRoundTrip | build_dataset.py:1017 | for code without backslashes, escaping newlines as `\n` can be undone |
| DatasetRows.EscapeMergesLiteralEscapes | build_dataset.py:1017 | code holding a literal backslash-`n` escapes to the same cell as code holding a newline there |
| DatasetRows.EscapeNewlinesShape | build_dataset.py:1017 | the escaped code has no newline and is longer by the number of newlines |
| DatasetRows.BlockRows | build_dataset.py:962-971 | one block row per block |
| DatasetRows.MinStart | build_dataset.py:1040 | the summary's start line is at most every start line of the file's blocks |
| DatasetRows.MinStartAttained | build_dataset.py:1040 | some block of the file starts on the summary's start line |
| DatasetRows.MaxEnd | build_dataset.py:1041 | the summary's end line is at least every end line of the file's blocks |
| DatasetRows.MaxEndAttained | build_dataset.py:1041 | some block of the file ends on the summary's end line |
| DatasetRows.FileSummaryOf | build_dataset.py:1023-1047 | a file's summary row names that file and is a `FILE_SUMMARY` row |
| DatasetRows.FileOrder | build_dataset.py:981 | every file whose summary is written holds one of the blocks |
| DatasetRows.SummaryRows | build_dataset.py:981-986 | one summary row per listed file |
| DatasetRows.ProcessRepository | build_dataset.py:928-988 | the rows written are the block rows in extraction order followed by the summary rows of the files in first-seen order, and the count returned is the number of blocks |
| DatasetRows.WriteBlockRows | build_dataset.py:959-978 | the block loop writes each block's row, lists the files in first-seen order, and leaves each file's entry holding that file's blocks and scores, in order |
| DatasetRows.AddToGroups | build_dataset.py:973-978 | one block creates its file's entry when missing and appends the block and its score; a new file goes last in the key order |
| DatasetRows.WriteSummaryRows | build_dataset.py:981-986 | the summary loop writes, for each listed file, the row built from its group and the mean of its scores |
| DatasetRows.GroupingStep | build_dataset.py:973-978 | one loop step keeps the key order equal to the first-seen order, and keeps each entry equal to its file's blocks and scores so far |
| DatasetRows.SummaryOfGroups | build_dataset.py:982-985 | the row built from a file's entries is that file's summary |
| DatasetRows.GroupShape | build_dataset.py:973-978 | a group holds only its file's blocks, and is non-empty exactly when the file has been seen |
| DatasetRows.GroupMembers | build_dataset.py:973-978 | a file's group holds exactly the blocks of that file |
| DatasetRows.RepositoryRowsLayout | build_dataset.py:959-986 | there are as many rows as blocks plus files; row k of the first part is block k's row; row k of the second part is the summary of the k-th file first seen |
| DatasetRows.RepositoryBlockRow | build_dataset.py:966-971 | the k-th row written is the k-th block's row |
| DatasetRows.RepositorySummaryRow | build_dataset.py:981-986 | the row after all block rows at offset k is the summary of the k-th file first seen |
| DatasetRows.SummaryRowPerFile | build_dataset.py:981-986 | every summary row is a `FILE_SUMMARY` row; every block's file has one; no two name the same file |
| DatasetRows.BlockFileSummarised | build_dataset.py:981-986 | the file of every block has a summary row |
| DatasetRows.SummaryLocTotal | build_dataset.py:1032 | the summary rows' loc adds up to the loc of all blocks, as do the block rows' |
| DatasetRows.SummaryLineSpan | build_dataset.py:1040-1041 | a summary spans every block of its file; its start is some block's start and its end some block's end; it starts no later than it ends when every block does |
| DatasetRows.SummaryIsMean | build_dataset.py:982 | a summary's index is the mean of its file's block indexes |
| DatasetRows.MeanBetween | build_dataset.py:982 | a mean lies between any bounds of its items |
| DatasetRows.SummaryIndexBetween | build_dataset.py:982-985 | a summary's index lies between the smallest and the largest index of that file's block rows |
| DatasetRows.SummaryIndexInRange | build_dataset.py:982-985 | a summary's index stays within any bounds on the block index |
| DatasetRows.RowsIndexInRange | build_dataset.py:959-986 | every row's index stays within any bounds on the block index |
| DatasetRows.BuilderRowsInRange | build_dataset.py:959-986 | with the builder's scorer, every row written has an index in [15, 95] |
| LightFilter.AnyKeywordIn | mine_repositories.py:108 | the test holds exactly when some keyword occurs in the text |
| LightFilter.FilterRepository | mine_repositories.py:94-151 | a kept repository is returned under its own name; an excluded name, a rate-limited request or a failed request gives None |
| LightFilter.FilterKeepsExactlyEligible | mine_repositories.py:106-151 | the filter keeps a repository exactly when its metadata could be fetched and it meets every condition (no keyword in the name or description, not archived, starred, licensed, not a template, pushed within 180 days); otherwise it returns None |
| LightFilter.RecentPushBoundary | mine_repositories.py:139-146 | a push exactly 180 days ago passes, 181 days ago fails, and a missing push date fails |
| LightFilter.KelvinSignDescription | mine_repositories.py:134-136 | a description reading "terraform wor\u212Ashop" (Kelvin sign for `K`) matches "workshop", so the repository is rejected whatever else its metadata says |
| LightFilter.NameTestIgnoresCase | mine_repositories.py:107-109 | a name containing "demo" in any letter case is rejected before any fetch |
| LightFilter.AcceptedAmongMembers | mine_repositories.py:217-223 | the accepted names are exactly the non-empty names of the batch that the filter keeps |
| LightFilter.AcceptedAmongStep | mine_repositories.py:217-223 | one more name extends the accepted set by the filter's result, when that is a non-empty name |
| LightFilter.FoundRepositories.constructor | mine_repositories.py:284 | the shared set starts empty |
| LightFilter.FoundRepositories.Record | mine_repositories.py:220-223 | a kept, non-empty name is added; the flag tells whether it was new, and the set grows by one exactly then |
| LightFilter.FoundRepositories.BatchFilter | mine_repositories.py:214-224 | the set becomes the old set plus the accepted names of the batch, and the count returned is the number of names it gained |
| LightFilter.RecordStep | mine_repositories.py:220-223 | recording one result keeps the set equal to the old set plus the names accepted so far, and the count equal to the growth |
| LightFilter.NewNamesCount | mine_repositories.py:221-223 | the growth of the set is the number of accepted names not already present |
| CloneRepos.DirName | mine_repositories.py:342 | the directory name has the repository name's length and contains no `/` |
| CloneRepos.DirNameInjective | mine_repositories.py:342 | two `owner/name` repositories whose owners contain no `_` get the same directory only if they are the same repository |
| CloneRepos.DirsAfterMembers | mine_repositories.py:341-364 | after the loop a directory exists exactly when it existed before or some repository was cloned into it |
| CloneRepos.SkippedAmong | mine_repositories.py:346-350 | no more repositories are skipped than walked |
| CloneRepos.ClonedAmong | mine_repositories.py:352-361 | skipped and newly cloned repositories together are no more than those walked |
| CloneRepos.CloneRepositories | mine_repositories.py:321-374 | successful + failed = the number of repositories; skipped ≤ successful; skipped counts the existing directories met; successful counts those plus the new clones; existing directories survive and new ones are exactly the successful clones |
| DeepFilter.TerraformCount | mine_repositories.py:398-399 | the `.tf` files are no more than all files |
| DeepFilter.CountFiles | mine_repositories.py:393-399 | the walk counts every file, and counts as Terraform exactly the names ending in `.tf` |
| DeepFilter.IacRatio | mine_repositories.py:401 | the ratio is 0 without files and lies in [0, 1] |
| DeepFilter.C4Threshold | mine_repositories.py:401-406 | C4 passes exactly when there are files and 100 × Terraform files ≥ 11 × files, so no files fails and exactly 11% passes |
| DeepFilter.MonthlyRate | mine_repositories.py:424-428 | the rate is never negative, and is 0 when the span is not positive |
| DeepFilter.C1Threshold | mine_repositories.py:424-433 | C1 passes exactly when the span is positive and the count reaches 7 per 30.44 days, so exactly 7 a month passes |
| DeepFilter.EmailsCount | mine_repositories.py:436 | the `Counter` of the commit e-mails gives each author exactly the number of commits they made |
| DeepFilter.SumCountsIsLength | mine_repositories.py:437 | the counts of the distinct e-mails add up to the number of commits |
| DeepFilter.MostCommon | mine_repositories.py:443 | the most common author is an author, and none has more commits |
| DeepFilter.Remove | mine_repositories.py:448 | removing an author leaves exactly the others |
| DeepFilter.TopTwo | mine_repositories.py:448 | the two top authors are two different authors of the log |
| DeepFilter.TopTwoIsLargestPair | mine_repositories.py:448 | no two different authors have more commits together than the top two, whose sum is at most the number of commits |
| DeepFilter.TopTwoIndependentOfTies | mine_repositories.py:443-448 | any descending ranking gives the same top-two sum, however ties are ordered |
| DeepFilter.C2Threshold | mine_repositories.py:449-454 | C2's ratio test holds exactly when 5 × top two ≥ 4 × total |
| DeepFilter.AnalyzeRepository | mine_repositories.py:382-456 | C4 decides on the files alone; C1 is decided only after C4 passes and the history is conclusive; C2 only after C1 passes; the flags short-circuit, so C4_Fail excludes every other flag, a pass implies the earlier passes, and at most one failure is set |
| CurationReport.Level | mine_repositories.py:484-497 | a repository reaches at most 3 criteria, and none without a checkout |
| CurationReport.Reaching | mine_repositories.py:492-497 | each list keeps only listed repositories that reach its level |
| CurationReport.CountAtLevel | mine_repositories.py:504-513 | no more repositories stop at a level than are listed |
| CurationReport.ReachingNested | mine_repositories.py:492-497 | valid ⊆ after C1 ⊆ after C4 ⊆ the initial list, and the lengths shrink in that order |
| CurationReport.ReachingDrop | mine_repositories.py:504-513 | consecutive list lengths differ by the number of repositories stopping between them |
| CurationReport.AnalyzeListed | mine_repositories.py:484-490 | a repository is analysed exactly when it has a checkout, and its flags are the ones for its level |
| CurationReport.CollectPassing | mine_repositories.py:481-497 | the three lists are the repositories that reach C4, C1 and C2, in list order |
| CurationReport.DeepAnalysis | mine_repositories.py:459-513 | each exclusion count is the number that stop at that criterion, none is negative, and they plus the valid count add up to the initial count; uncloned and inconclusive repositories are counted with the criterion they stop at |

## Left out

- The GitHub API is not modelled: the search, pagination and rate-limit checks of phase 1, the HTTP request in the filter, and `GitHubAttributesFetcher`. Fetched metadata is an input, so block rows carry no GitHub attributes.
- Threads are not modelled. Phase 1 submits batches to a thread pool under a lock; here a batch is filtered sequentially on one `FoundRepositories` object.
- `git clone`, GitPython and the Metrics Tool process are not modelled. Their outcomes are inputs: a success flag per clone, a commit log per checkout, and a metrics record per block. `analyze_code`, `check_installation` and the temporary files are not part of this model.
- The regular expressions of `_parse_tf_file` are not modelled. The matches are given as block type, labels and character offset, in the order the patterns are tried.
- Date parsing and time zones are not modelled. Commit dates and the push age are whole days, or None when unreadable. An unparsable `pushed_at`, which would raise inside the filter, is not modelled.
- Floating point is not modelled. `x ** e` is the function value `pow`, constrained only by the laws of real powers. All other arithmetic is exact over the reals.
- Text.Lower: lower-cases the ASCII capitals and the Kelvin sign (U+212A) only. Python's `str.lower()` also lower-cases letters of other scripts, and turns U+0130 into two code points. None of those other results contains an ASCII letter except U+0130's `i`, which is followed by a combining dot. No exclusion keyword ends in `i`, so those mappings cannot create or remove a keyword match.
- Maintainability.MaintainabilityIndex: the index is the unrounded value; `round(mi, 2)` is not modelled.
- DatasetRows.SummaryRow: the summary index is the unrounded mean of the unrounded block indexes; the program rounds both.
- CSV writing, `os.walk`, file reads, printing, `time.sleep`, `argparse` and the interactive menu are not modelled. The sorted output files are not modelled: phase 1's list of accepted names and phase 3's `sorted(valid_repos)` list. Phase 3's lists are modelled in memory, in list order. File listings and file contents are inputs.
- CloneRepos.CloneRepositories: a failed or timed-out clone is assumed to leave no directory behind. An existing path that is not a directory is treated as a clone directory.
- CloneRepos.DirNameInjective: only covers owners without `_`. Owners such as `a_b` can collide with repository names containing `_`, which the program does not guard against.
- Exceptions that end the whole run (a missing `git` executable, an unreadable file) are not modelled.

