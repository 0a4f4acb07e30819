/**
  * The rows the dataset builder writes for one repository
  * (`DatasetBuilder._process_single_repository`, `_create_csv_row` and
  * `_create_file_summary_row`): one row per extracted block, in extraction order,
  * followed by one summary row per file, in the order the files were first seen.
  *
  * The Metrics Tool run on each block is an input (`Analyzer`), and so is nothing else:
  * GitHub attributes are not part of this model.
  */
module DatasetRows {
  import opened Seqs
  import opened Text
  import opened RealPower
  import opened TerraMetrics
  import opened Maintainability
  import opened BlockExtractor

  /** The metrics the tool reports for the block at a given index (`_analyze_block`). */
  type Analyzer = (Block, nat) -> TmMetrics

  /** The index computed from a block's metrics and line count (`calculate_mi`). */
  type Scorer = (TmMetrics, nat) -> real

  /** The builder's own scorer: the maintainability index under the real power `pow`. */
  function BuilderScore(pow: PowFn): Scorer {
    (m: TmMetrics, loc: nat) => MaintainabilityIndex(pow, m, loc)
  }

  datatype RowKind = BlockRow(blockType: BlockType) | FileSummary

  datatype Row = Row(
    repository: string,
    filePath: string,
    kind: RowKind,
    name: string,
    startLine: nat,
    endLine: nat,
    loc: nat,
    code: string,
    metrics: TmMetrics,
    mi: real)

  /** `code.replace("\n", "\\n")`: every newline becomes a backslash followed by `n`. */
  function EscapeNewlines(s: string): string {
    if |s| == 0 then ""
    else (if s[0] == '\n' then "\\n" else [s[0]]) + EscapeNewlines(s[1..])
  }

  /** The escaped code holds no newline, and is one character longer per newline. */
  lemma {:induction false} EscapeNewlinesShape(s: string)
    ensures '\n' !in EscapeNewlines(s)
    ensures |EscapeNewlines(s)| == |s| + NewlineCount(s)
  {
    if |s| > 0 {
      EscapeNewlinesShape(s[1..]);
    }
  }

  /** Reading an escaped cell back: every backslash followed by `n` becomes a newline. */
  function UnescapeNewlines(t: string): string {
    if |t| == 0 then ""
    else if |t| >= 2 && t[0] == '\\' && t[1] == 'n' then "\n" + UnescapeNewlines(t[2..])
    else [t[0]] + UnescapeNewlines(t[1..])
  }

  /** Code without a backslash survives escaping: reading the cell back gives the code. */
  lemma {:induction false} EscapeRoundTrip(s: string)
    requires '\\' !in s
    ensures UnescapeNewlines(EscapeNewlines(s)) == s
  {
    if |s| > 0 {
      EscapeRoundTrip(s[1..]);
      var rest := EscapeNewlines(s[1..]);
      if s[0] == '\n' {
        assert EscapeNewlines(s) == "\\n" + rest;
        assert ("\\n" + rest)[2..] == rest;
      } else {
        assert EscapeNewlines(s) == [s[0]] + rest;
        assert ([s[0]] + rest)[1..] == rest;
      }
    }
  }

  /**
    * Code that already holds a backslash followed by `n` (an escape inside a Terraform
    * string) escapes to the same cell as code with a real newline there.
    */
  lemma EscapeMergesLiteralEscapes()
    ensures EscapeNewlines("a\nb") == EscapeNewlines("a\\nb") == "a\\nb"
  {
    assert EscapeNewlines("b") == "b";
    assert EscapeNewlines("nb") == "nb";
    assert EscapeNewlines("\\nb") == "\\nb";
    assert EscapeNewlines("\nb") == "\\nb";
  }

  /** `_create_csv_row` for a block and its metrics (the index unrounded). */
  function BlockRowOf(repo: string, b: Block, m: TmMetrics, mi: real): Row {
    Row(repo, b.filePath, BlockRow(b.blockType), b.name, b.startLine, b.endLine, b.loc,
        EscapeNewlines(b.code), m, mi)
  }

  /** The block rows of the first `n` blocks, in order. */
  function BlockRows(repo: string, blocks: seq<Block>, analyze: Analyzer, score: Scorer, n: nat): (r: seq<Row>)
    requires n <= |blocks|
    ensures |r| == n
  {
    if n == 0 then [] else BlockRows(repo, blocks, analyze, score, n - 1) +
                           [BlockRowOf(repo, blocks[n - 1], analyze(blocks[n - 1], n - 1), score(analyze(blocks[n - 1], n - 1), blocks[n - 1].loc))]
  }

  /** One block more appends that block's row. */
  lemma BlockRowsSnoc(repo: string, blocks: seq<Block>, analyze: Analyzer, score: Scorer, i: nat)
    requires i < |blocks|
    ensures BlockRows(repo, blocks, analyze, score, i + 1) ==
            BlockRows(repo, blocks, analyze, score, i) + [BlockRowOf(repo, blocks[i], analyze(blocks[i], i), score(analyze(blocks[i], i), blocks[i].loc))]
  {
  }

  /** The file of every block, in order. */
  function Paths(blocks: seq<Block>): seq<string> {
    seq(|blocks|, i requires 0 <= i < |blocks| => blocks[i].filePath)
  }

  /** The blocks among the first `n` that belong to file `f`, in order (`file_blocks[f]`). */
  function GroupOf(blocks: seq<Block>, f: string, n: nat): seq<Block>
    requires n <= |blocks|
  {
    if n == 0 then []
    else GroupOf(blocks, f, n - 1) + (if blocks[n - 1].filePath == f then [blocks[n - 1]] else [])
  }

  /** The indexes of those blocks, in the same order (`file_mi_scores[f]`). */
  function ScoresOf(blocks: seq<Block>, analyze: Analyzer, score: Scorer, f: string, n: nat): seq<real>
    requires n <= |blocks|
  {
    if n == 0 then []
    else
      ScoresOf(blocks, analyze, score, f, n - 1) +
      (if blocks[n - 1].filePath == f
       then [score(analyze(blocks[n - 1], n - 1), blocks[n - 1].loc)]
       else [])
  }

  /** One block more extends the group of its own file only. */
  lemma GroupStep(blocks: seq<Block>, f: string, i: nat)
    requires i < |blocks|
    ensures GroupOf(blocks, f, i + 1) == GroupOf(blocks, f, i) + (if blocks[i].filePath == f then [blocks[i]] else [])
  {
  }

  /** One block more extends the scores of its own file only. */
  lemma ScoresStep(blocks: seq<Block>, analyze: Analyzer, score: Scorer, f: string, i: nat)
    requires i < |blocks|
    ensures ScoresOf(blocks, analyze, score, f, i + 1) ==
            ScoresOf(blocks, analyze, score, f, i) +
            (if blocks[i].filePath == f then [score(analyze(blocks[i], i), blocks[i].loc)] else [])
  {
  }

  /** A file's group holds exactly the blocks of that file, and is non-empty iff the file occurs among the blocks. */
  lemma {:induction false} GroupShape(blocks: seq<Block>, f: string, n: nat)
    requires n <= |blocks|
    ensures forall b :: b in GroupOf(blocks, f, n) ==> b.filePath == f
    ensures |GroupOf(blocks, f, n)| > 0 <==> f in Paths(blocks)[..n]
  {
    if n > 0 {
      GroupShape(blocks, f, n - 1);
      TakeSnoc(Paths(blocks), n - 1);
    }
  }

  /** There is one score per block of a file's group. */
  lemma {:induction false} ScoresMatchGroup(blocks: seq<Block>, analyze: Analyzer, score: Scorer, f: string, n: nat)
    requires n <= |blocks|
    ensures |ScoresOf(blocks, analyze, score, f, n)| == |GroupOf(blocks, f, n)|
  {
    if n > 0 {
      ScoresMatchGroup(blocks, analyze, score, f, n - 1);
    }
  }

  /** `sum(block["loc"] for block in blocks)`. */
  function SumLoc(group: seq<Block>): nat {
    if |group| == 0 then 0 else SumLoc(group[..|group| - 1]) + group[|group| - 1].loc
  }

  /** `min(block["start_line"] for block in blocks)`: a lower bound on the blocks' start lines. */
  function MinStart(group: seq<Block>): (r: nat)
    requires |group| > 0
    ensures forall b :: b in group ==> r <= b.startLine
  {
    if |group| == 1 then group[0].startLine
    else
      var rest := MinStart(group[1..]);
      assert forall b :: b in group <==> b == group[0] || b in group[1..] by {
        assert group == [group[0]] + group[1..];
      }
      if group[0].startLine <= rest then group[0].startLine else rest
  }

  /** The smallest start line is some block's. */
  lemma {:induction false} MinStartAttained(group: seq<Block>)
    requires |group| > 0
    ensures exists b :: b in group && b.startLine == MinStart(group)
  {
    assert group[0] in group;
    if |group| > 1 && group[0].startLine <= MinStart(group[1..]) {
      assert MinStart(group) == group[0].startLine;
    } else if |group| > 1 {
      MinStartAttained(group[1..]);
      var b :| b in group[1..] && b.startLine == MinStart(group[1..]);
      assert b in group;
    }
  }

  /** `max(block["end_line"] for block in blocks)`: an upper bound on the blocks' end lines. */
  function MaxEnd(group: seq<Block>): (r: nat)
    requires |group| > 0
    ensures forall b :: b in group ==> b.endLine <= r
  {
    if |group| == 1 then group[0].endLine
    else
      var rest := MaxEnd(group[1..]);
      assert forall b :: b in group <==> b == group[0] || b in group[1..] by {
        assert group == [group[0]] + group[1..];
      }
      if group[0].endLine >= rest then group[0].endLine else rest
  }

  /** The largest end line is some block's. */
  lemma {:induction false} MaxEndAttained(group: seq<Block>)
    requires |group| > 0
    ensures exists b :: b in group && b.endLine == MaxEnd(group)
  {
    assert group[0] in group;
    if |group| > 1 && group[0].endLine >= MaxEnd(group[1..]) {
      assert MaxEnd(group) == group[0].endLine;
    } else if |group| > 1 {
      MaxEndAttained(group[1..]);
      var b :| b in group[1..] && b.endLine == MaxEnd(group[1..]);
      assert b in group;
    }
  }

  /** Python's left-to-right `sum` of a list of scores. */
  function SumReal(s: seq<real>): real {
    if |s| == 0 then 0.0 else SumReal(s[..|s| - 1]) + s[|s| - 1]
  }

  /** `_create_file_summary_row` for a file's blocks and their mean index (unrounded). */
  function SummaryRow(repo: string, f: string, group: seq<Block>, avg: real): Row
    requires |group| > 0
  {
    Row(repo, f, FileSummary, NatToString(|group|) + " blocks", MinStart(group), MaxEnd(group),
        SumLoc(group), "", EmptyMetrics(), avg)
  }

  /** `sum(mi_scores) / len(mi_scores)`. */
  function Mean(s: seq<real>): real
    requires |s| > 0
  {
    SumReal(s) / |s| as real
  }

  /** The summary row of file `f`: its group of blocks and their mean index. */
  function FileSummaryOf(repo: string, blocks: seq<Block>, analyze: Analyzer, score: Scorer, f: string): (r: Row)
    requires f in Paths(blocks)
    ensures r.filePath == f && r.kind == FileSummary
  {
    assert Paths(blocks)[..|blocks|] == Paths(blocks);
    GroupShape(blocks, f, |blocks|);
    ScoresMatchGroup(blocks, analyze, score, f, |blocks|);
    SummaryRow(repo, f, GroupOf(blocks, f, |blocks|), Mean(ScoresOf(blocks, analyze, score, f, |blocks|)))
  }

  /** Every listed file holds one of the blocks. */
  predicate Listed(blocks: seq<Block>, files: seq<string>) {
    forall f :: f in files ==> f in Paths(blocks)
  }

  /** `file_blocks.keys()`: the files of the blocks in first-seen order. */
  function FileOrder(blocks: seq<Block>): (files: seq<string>)
    ensures Listed(blocks, files)
  {
    DistinctMembers(Paths(blocks));
    Distinct(Paths(blocks))
  }

  /** A prefix of a listing is a listing. */
  lemma ListedPrefix(blocks: seq<Block>, files: seq<string>, k: nat)
    requires Listed(blocks, files) && k <= |files|
    ensures Listed(blocks, files[..k])
  {
    forall f | f in files[..k]
      ensures f in Paths(blocks)
    {
      var j :| 0 <= j < k && files[..k][j] == f;
      assert files[j] == f;
    }
  }

  /** The summary rows of the listed files, in list order. */
  function SummaryRows(repo: string, blocks: seq<Block>, analyze: Analyzer, score: Scorer, files: seq<string>): (r: seq<Row>)
    requires Listed(blocks, files)
    ensures |r| == |files|
  {
    seq(|files|, k requires 0 <= k < |files| => ListedAt(blocks, files, k); FileSummaryOf(repo, blocks, analyze, score, files[k]))
  }

  /** The `k`-th listed file holds a block. */
  lemma ListedAt(blocks: seq<Block>, files: seq<string>, k: int)
    requires Listed(blocks, files) && 0 <= k < |files|
    ensures files[k] in Paths(blocks)
  {
    assert files[k] in files;
  }

  /** Listing one more file appends that file's summary row. */
  lemma SummaryRowsSnoc(repo: string, blocks: seq<Block>, analyze: Analyzer, score: Scorer, files: seq<string>, k: nat)
    requires Listed(blocks, files)
    requires k < |files|
    ensures files[k] in Paths(blocks)
    ensures SummaryRows(repo, blocks, analyze, score, files[..k + 1]) ==
            SummaryRows(repo, blocks, analyze, score, files[..k]) +
            [FileSummaryOf(repo, blocks, analyze, score, files[k])]
  {
    ListedAt(blocks, files, k);
    ListedPrefix(blocks, files, k);
    ListedPrefix(blocks, files, k + 1);
    var longer := SummaryRows(repo, blocks, analyze, score, files[..k + 1]);
    var shorter := SummaryRows(repo, blocks, analyze, score, files[..k]);
    forall j | 0 <= j < k + 1
      ensures longer[j] == (shorter + [FileSummaryOf(repo, blocks, analyze, score, files[k])])[j]
    {
      assert files[..k + 1][j] == files[j];
      if j < k {
        assert files[..k][j] == files[j];
      }
    }
  }

  /** Everything written for a repository: the block rows, then one summary row per file. */
  function RepositoryRows(repo: string, blocks: seq<Block>, analyze: Analyzer, score: Scorer): seq<Row> {
    BlockRows(repo, blocks, analyze, score, |blocks|) +
    SummaryRows(repo, blocks, analyze, score, FileOrder(blocks))
  }

  // ---------------------------------------------------------------------------
  // `_process_single_repository`
  // ---------------------------------------------------------------------------

  /**
    * `_process_single_repository`: score every block and write its row while grouping
    * the blocks and scores by file, then write one summary row per file. Returns the
    * rows written and the number of blocks.
    */
  method ProcessRepository(pow: PowFn, repo: string, blocks: seq<Block>, analyze: Analyzer)
    returns (rows: seq<Row>, count: nat)
    ensures rows == RepositoryRows(repo, blocks, analyze, BuilderScore(pow))
    ensures count == |blocks|
  {
    var score := BuilderScore(pow);
    var fileOrder, fileBlocks, fileMiScores;
    rows, fileOrder, fileBlocks, fileMiScores := WriteBlockRows(repo, blocks, analyze, score);
    var summaryRows := WriteSummaryRows(repo, blocks, analyze, score, fileOrder, fileBlocks, fileMiScores);
    rows := rows + summaryRows;
    count := |blocks|;
  }

  /** `d.setdefault(p, []).append(x)` on a dictionary of lists. */
  function Appended<T>(d: map<string, seq<T>>, p: string, x: T): map<string, seq<T>> {
    d[p := (if p in d then d[p] else []) + [x]]
  }

  /** The loop's two-step update, an empty entry for a new key and then the append, is `Appended`. */
  lemma AppendedInPlace<T>(d: map<string, seq<T>>, d0: map<string, seq<T>>, p: string, x: T)
    requires d0 == if p in d then d else d[p := []]
    ensures p in d0 && d0[p := d0[p] + [x]] == Appended(d, p, x)
  {
    if p !in d {
      assert [] + [x] == [x];
    }
  }

  /** Block `i`'s file joins the key order iff it is new. */
  lemma GroupingStepKeys(blocks: seq<Block>, i: nat, fileOrder: seq<string>)
    requires i < |blocks|
    requires fileOrder == Distinct(Paths(blocks)[..i])
    ensures var p := blocks[i].filePath;
            (if p in fileOrder then fileOrder else fileOrder + [p]) == Distinct(Paths(blocks)[..i + 1])
  {
    var p := blocks[i].filePath;
    assert Paths(blocks)[i] == p;
    TakeSnoc(Paths(blocks), i);
    DistinctSnoc(Paths(blocks)[..i], p);
  }

  /** Appending under a key to two dictionaries with the same keys keeps their keys equal and in step with the key order. */
  lemma AppendedKeys<T, U>(d: map<string, seq<T>>, e: map<string, seq<U>>, order: seq<string>, p: string, x: T, y: U)
    requires d.Keys == e.Keys
    requires forall f :: f in d <==> f in order
    ensures Appended(d, p, x).Keys == Appended(e, p, y).Keys
    ensures forall f :: f in Appended(d, p, x) <==> f in (if p in order then order else order + [p])
  {
  }

  /** Each file's entries become its group and its scores among the first `i + 1` blocks. */
  lemma GroupingStepEntries(blocks: seq<Block>, analyze: Analyzer, score: Scorer, i: nat, fileOrder: seq<string>,
                            fileBlocks: map<string, seq<Block>>, fileMiScores: map<string, seq<real>>)
    requires i < |blocks|
    requires fileMiScores.Keys == fileBlocks.Keys
    requires forall f :: f in fileBlocks ==>
               fileBlocks[f] == GroupOf(blocks, f, i) && fileMiScores[f] == ScoresOf(blocks, analyze, score, f, i)
    requires blocks[i].filePath !in fileBlocks ==> blocks[i].filePath !in Paths(blocks)[..i]
    ensures var p := blocks[i].filePath;
            var groups := Appended(fileBlocks, p, blocks[i]);
            var scores := Appended(fileMiScores, p, score(analyze(blocks[i], i), blocks[i].loc));
            forall f :: f in groups ==>
              groups[f] == GroupOf(blocks, f, i + 1) && scores[f] == ScoresOf(blocks, analyze, score, f, i + 1)
  {
    var p := blocks[i].filePath;
    GroupShape(blocks, p, i);
    ScoresMatchGroup(blocks, analyze, score, p, i);
    forall f
      ensures GroupOf(blocks, f, i + 1) == GroupOf(blocks, f, i) + (if p == f then [blocks[i]] else [])
      ensures ScoresOf(blocks, analyze, score, f, i + 1) ==
              ScoresOf(blocks, analyze, score, f, i) + (if p == f then [score(analyze(blocks[i], i), blocks[i].loc)] else [])
    {
      GroupStep(blocks, f, i);
      ScoresStep(blocks, analyze, score, f, i);
    }
  }

  /**
    * Block `i` added to the dictionaries keeps the invariant of the block loop: the key
    * order is the first-seen order of the files, both dictionaries have exactly those
    * keys, and each file's entries are its group and its scores.
    */
  lemma GroupingStep(blocks: seq<Block>, analyze: Analyzer, score: Scorer, i: nat, fileOrder: seq<string>,
                     fileBlocks: map<string, seq<Block>>, fileMiScores: map<string, seq<real>>)
    requires i < |blocks|
    requires fileOrder == Distinct(Paths(blocks)[..i])
    requires fileMiScores.Keys == fileBlocks.Keys
    requires forall f :: f in fileBlocks <==> f in fileOrder
    requires forall f :: f in fileBlocks ==>
               fileBlocks[f] == GroupOf(blocks, f, i) && fileMiScores[f] == ScoresOf(blocks, analyze, score, f, i)
    ensures var p := blocks[i].filePath;
            var order := if p in fileBlocks then fileOrder else fileOrder + [p];
            var groups := Appended(fileBlocks, p, blocks[i]);
            var scores := Appended(fileMiScores, p, score(analyze(blocks[i], i), blocks[i].loc));
            order == Distinct(Paths(blocks)[..i + 1]) &&
            scores.Keys == groups.Keys &&
            (forall f :: f in groups <==> f in order) &&
            (forall f :: f in groups ==>
               groups[f] == GroupOf(blocks, f, i + 1) && scores[f] == ScoresOf(blocks, analyze, score, f, i + 1))
  {
    var p := blocks[i].filePath;
    var mi := score(analyze(blocks[i], i), blocks[i].loc);
    GroupingStepKeys(blocks, i, fileOrder);
    DistinctMembers(Paths(blocks)[..i]);
    AppendedKeys(fileBlocks, fileMiScores, fileOrder, p, blocks[i], mi);
    GroupingStepEntries(blocks, analyze, score, i, fileOrder, fileBlocks, fileMiScores);
  }

  /**
    * The block loop: one row per block, and the two insertion-ordered dictionaries
    * `file_mi_scores` and `file_blocks` (each a map plus the shared key order).
    */
  method WriteBlockRows(repo: string, blocks: seq<Block>, analyze: Analyzer, score: Scorer)
    returns (rows: seq<Row>, fileOrder: seq<string>,
             fileBlocks: map<string, seq<Block>>, fileMiScores: map<string, seq<real>>)
    ensures rows == BlockRows(repo, blocks, analyze, score, |blocks|)
    ensures fileOrder == FileOrder(blocks)
    ensures forall f :: f in fileOrder ==> f in Paths(blocks) && f in fileBlocks && f in fileMiScores
    ensures forall f :: f in fileOrder ==>
              fileBlocks[f] == GroupOf(blocks, f, |blocks|) &&
              fileMiScores[f] == ScoresOf(blocks, analyze, score, f, |blocks|)
  {
    rows := [];
    fileMiScores := map[];
    fileBlocks := map[];
    fileOrder := [];
    for i := 0 to |blocks|
      invariant rows == BlockRows(repo, blocks, analyze, score, i)
      invariant fileOrder == Distinct(Paths(blocks)[..i])
      invariant fileMiScores.Keys == fileBlocks.Keys
      invariant forall f :: f in fileBlocks <==> f in fileOrder
      invariant forall f :: f in fileBlocks ==>
                  fileBlocks[f] == GroupOf(blocks, f, i) && fileMiScores[f] == ScoresOf(blocks, analyze, score, f, i)
    {
      var block := blocks[i];
      var filePath := block.filePath;
      var tmMetrics := analyze(block, i);
      var mi := score(tmMetrics, block.loc);
      var row := BlockRowOf(repo, block, tmMetrics, mi);
      BlockRowsSnoc(repo, blocks, analyze, score, i);
      rows := rows + [row];
      GroupingStep(blocks, analyze, score, i, fileOrder, fileBlocks, fileMiScores);
      fileOrder, fileBlocks, fileMiScores := AddToGroups(fileOrder, fileBlocks, fileMiScores, block, mi);
    }
    assert Paths(blocks)[..|blocks|] == Paths(blocks);
  }

  /**
    * Files block `block` and its index under the block's file, giving the file empty
    * entries and a place in the key order first when it is new.
    */
  method AddToGroups(fileOrder: seq<string>, fileBlocks: map<string, seq<Block>>, fileMiScores: map<string, seq<real>>,
                     block: Block, mi: real)
    returns (order: seq<string>, groups: map<string, seq<Block>>, scores: map<string, seq<real>>)
    requires fileMiScores.Keys == fileBlocks.Keys
    ensures order == if block.filePath in fileBlocks then fileOrder else fileOrder + [block.filePath]
    ensures groups == Appended(fileBlocks, block.filePath, block)
    ensures scores == Appended(fileMiScores, block.filePath, mi)
  {
    var filePath := block.filePath;
    order, groups, scores := fileOrder, fileBlocks, fileMiScores;
    if filePath !in scores {
      scores := scores[filePath := []];
      groups := groups[filePath := []];
      order := order + [filePath];
    }
    AppendedInPlace(fileBlocks, groups, filePath, block);
    AppendedInPlace(fileMiScores, scores, filePath, mi);
    scores := scores[filePath := scores[filePath] + [mi]];
    groups := groups[filePath := groups[filePath] + [block]];
  }

  /** The summary loop: one row per file, in dictionary order, with the mean index. */
  method WriteSummaryRows(repo: string, blocks: seq<Block>, analyze: Analyzer, score: Scorer, fileOrder: seq<string>,
                          fileBlocks: map<string, seq<Block>>, fileMiScores: map<string, seq<real>>)
    returns (rows: seq<Row>)
    requires forall f :: f in fileOrder ==> f in Paths(blocks) && f in fileBlocks && f in fileMiScores
    requires forall f :: f in fileOrder ==>
               fileBlocks[f] == GroupOf(blocks, f, |blocks|) &&
               fileMiScores[f] == ScoresOf(blocks, analyze, score, f, |blocks|)
    ensures rows == SummaryRows(repo, blocks, analyze, score, fileOrder)
  {
    rows := [];
    for k := 0 to |fileOrder|
      invariant rows == SummaryRows(repo, blocks, analyze, score, fileOrder[..k])
    {
      var filePath := fileOrder[k];
      var miScores := fileMiScores[filePath];
      SummaryOfGroups(repo, blocks, analyze, score, filePath, fileBlocks[filePath], miScores);
      var avgMi := SumReal(miScores) / |miScores| as real;
      var fileRow := SummaryRow(repo, filePath, fileBlocks[filePath], avgMi);
      SummaryRowsSnoc(repo, blocks, analyze, score, fileOrder, k);
      assert rows + [fileRow] == SummaryRows(repo, blocks, analyze, score, fileOrder[..k + 1]);
      rows := rows + [fileRow];
    }
    assert fileOrder[..|fileOrder|] == fileOrder;
  }

  /** The row built from a file's collected blocks and scores is that file's summary row. */
  lemma SummaryOfGroups(repo: string, blocks: seq<Block>, analyze: Analyzer, score: Scorer, f: string,
                        group: seq<Block>, scores: seq<real>)
    requires f in Paths(blocks)
    requires group == GroupOf(blocks, f, |blocks|) && scores == ScoresOf(blocks, analyze, score, f, |blocks|)
    ensures |group| > 0 && |scores| > 0
    ensures SummaryRow(repo, f, group, SumReal(scores) / |scores| as real) == FileSummaryOf(repo, blocks, analyze, score, f)
  {
    assert Paths(blocks)[..|blocks|] == Paths(blocks);
    GroupShape(blocks, f, |blocks|);
    ScoresMatchGroup(blocks, analyze, score, f, |blocks|);
  }

  // ---------------------------------------------------------------------------
  // Properties of the rows
  // ---------------------------------------------------------------------------

  /** Row `k` of the block rows is the row of block `k`. */
  lemma {:induction false} BlockRowsAt(repo: string, blocks: seq<Block>, analyze: Analyzer, score: Scorer, n: nat, k: nat)
    requires k < n <= |blocks|
    ensures BlockRows(repo, blocks, analyze, score, n)[k] == BlockRowOf(repo, blocks[k], analyze(blocks[k], k), score(analyze(blocks[k], k), blocks[k].loc))
  {
    if k < n - 1 {
      BlockRowsAt(repo, blocks, analyze, score, n - 1, k);
    }
  }

  /** Row `k` of the summary rows is the summary of the `k`-th listed file. */
  lemma SummaryRowsAt(repo: string, blocks: seq<Block>, analyze: Analyzer, score: Scorer,
                      files: seq<string>, k: nat)
    requires Listed(blocks, files)
    requires k < |files|
    ensures files[k] in Paths(blocks)
    ensures SummaryRows(repo, blocks, analyze, score, files)[k] == FileSummaryOf(repo, blocks, analyze, score, files[k])
  {
    ListedAt(blocks, files, k);
  }

  /**
    * The rows of a repository: row `k` is the row of block `k` (with the metrics the tool
    * reported for it and the index of those metrics), then row `n + k` is the summary of
    * the `k`-th file in first-seen order.
    */
  lemma RepositoryRowsLayout(repo: string, blocks: seq<Block>, analyze: Analyzer, score: Scorer,
                              rows: seq<Row>, files: seq<string>)
    requires rows == RepositoryRows(repo, blocks, analyze, score)
    requires files == FileOrder(blocks)
    ensures |rows| == |blocks| + |files|
    ensures forall k :: 0 <= k < |blocks| ==>
              rows[k] == BlockRowOf(repo, blocks[k], analyze(blocks[k], k), score(analyze(blocks[k], k), blocks[k].loc))
    ensures forall k :: 0 <= k < |files| ==>
              files[k] in Paths(blocks) && rows[|blocks| + k] == FileSummaryOf(repo, blocks, analyze, score, files[k])
  {
    forall k | 0 <= k < |blocks|
      ensures rows[k] == BlockRowOf(repo, blocks[k], analyze(blocks[k], k), score(analyze(blocks[k], k), blocks[k].loc))
    {
      RepositoryBlockRow(repo, blocks, analyze, score, k);
    }
    forall k | 0 <= k < |files|
      ensures files[k] in Paths(blocks) && rows[|blocks| + k] == FileSummaryOf(repo, blocks, analyze, score, files[k])
    {
      RepositorySummaryRow(repo, blocks, analyze, score, k);
    }
  }

  /** Row `k < n` of a repository's rows is the row of block `k`. */
  lemma RepositoryBlockRow(repo: string, blocks: seq<Block>, analyze: Analyzer, score: Scorer, k: nat)
    requires k < |blocks|
    ensures RepositoryRows(repo, blocks, analyze, score)[k] ==
            BlockRowOf(repo, blocks[k], analyze(blocks[k], k), score(analyze(blocks[k], k), blocks[k].loc))
  {
    AppendIndex(BlockRows(repo, blocks, analyze, score, |blocks|),
                SummaryRows(repo, blocks, analyze, score, FileOrder(blocks)), k);
    BlockRowsAt(repo, blocks, analyze, score, |blocks|, k);
  }

  /** Row `n + k` of a repository's rows is the summary of the `k`-th file. */
  lemma RepositorySummaryRow(repo: string, blocks: seq<Block>, analyze: Analyzer, score: Scorer, k: nat)
    requires k < |FileOrder(blocks)|
    ensures FileOrder(blocks)[k] in Paths(blocks)
    ensures RepositoryRows(repo, blocks, analyze, score)[|blocks| + k] ==
            FileSummaryOf(repo, blocks, analyze, score, FileOrder(blocks)[k])
  {
    SummaryPartAt(repo, blocks, analyze, score, k);
    SummaryRowsAt(repo, blocks, analyze, score, FileOrder(blocks), k);
  }

  /** Row `n + k` of a repository's rows is row `k` of its summary rows. */
  lemma SummaryPartAt(repo: string, blocks: seq<Block>, analyze: Analyzer, score: Scorer, k: nat)
    requires k < |FileOrder(blocks)|
    ensures RepositoryRows(repo, blocks, analyze, score)[|blocks| + k] ==
            SummaryRows(repo, blocks, analyze, score, FileOrder(blocks))[k]
  {
    AppendIndex(BlockRows(repo, blocks, analyze, score, |blocks|),
                SummaryRows(repo, blocks, analyze, score, FileOrder(blocks)), |blocks| + k);
  }

  /** Indexing a concatenation. */
  lemma AppendIndex<T>(a: seq<T>, b: seq<T>, i: nat)
    requires i < |a| + |b|
    ensures (a + b)[i] == if i < |a| then a[i] else b[i - |a|]
  {
  }

  /** Every file that holds a block gets exactly one summary row, a summary row of its own. */
  lemma SummaryRowPerFile(repo: string, blocks: seq<Block>, analyze: Analyzer, score: Scorer, rows: seq<Row>)
    requires rows == SummaryRows(repo, blocks, analyze, score, FileOrder(blocks))
    ensures forall k :: 0 <= k < |rows| ==> rows[k].kind == FileSummary
    ensures forall i :: 0 <= i < |blocks| ==> exists k :: 0 <= k < |rows| && rows[k].filePath == blocks[i].filePath
    ensures forall k, l :: 0 <= k < l < |rows| ==> rows[k].filePath != rows[l].filePath
  {
    var files := FileOrder(blocks);
    forall k | 0 <= k < |rows|
      ensures rows[k].kind == FileSummary
    {
      SummaryRowsAt(repo, blocks, analyze, score, files, k);
    }
    forall k, l | 0 <= k < l < |rows|
      ensures rows[k].filePath != rows[l].filePath
    {
      SummaryRowsAt(repo, blocks, analyze, score, files, k);
      SummaryRowsAt(repo, blocks, analyze, score, files, l);
    }
    forall i | 0 <= i < |blocks|
      ensures exists k :: 0 <= k < |rows| && rows[k].filePath == blocks[i].filePath
    {
      BlockFileSummarised(repo, blocks, analyze, score, i);
      var k :| 0 <= k < |FileOrder(blocks)| &&
               SummaryRows(repo, blocks, analyze, score, FileOrder(blocks))[k].filePath == blocks[i].filePath;
      assert rows[k].filePath == blocks[i].filePath;
    }
  }

  /** The file of block `i` has a summary row. */
  lemma BlockFileSummarised(repo: string, blocks: seq<Block>, analyze: Analyzer, score: Scorer, i: nat)
    requires i < |blocks|
    ensures exists k :: 0 <= k < |FileOrder(blocks)| &&
              SummaryRows(repo, blocks, analyze, score, FileOrder(blocks))[k].filePath == blocks[i].filePath
  {
    var files := FileOrder(blocks);
    var rows := SummaryRows(repo, blocks, analyze, score, files);
    assert Paths(blocks)[i] in Paths(blocks);
    DistinctMembers(Paths(blocks));
    var k :| 0 <= k < |files| && files[k] == blocks[i].filePath;
    SummaryRowsAt(repo, blocks, analyze, score, files, k);
    assert rows[k].filePath == blocks[i].filePath;
    assert 0 <= k < |rows|;
    assert exists j :: 0 <= j < |rows| && rows[j].filePath == blocks[i].filePath;
  }

  /** Summing the lines of a group with one block more adds that block's lines. */
  lemma SumLocSnoc(group: seq<Block>, b: Block)
    ensures SumLoc(group + [b]) == SumLoc(group) + b.loc
  {
    assert (group + [b])[..|group|] == group;
  }

  /** The lines of the groups of the listed files after `n` blocks, added up. */
  ghost function GroupsLoc(blocks: seq<Block>, files: seq<string>, n: nat): nat
    requires n <= |blocks|
  {
    if |files| == 0 then 0
    else GroupsLoc(blocks, files[..|files| - 1], n) + SumLoc(GroupOf(blocks, files[|files| - 1], n))
  }

  /** Block `n` adds its lines to the groups of the listed files iff its file is listed (once). */
  lemma {:induction false} GroupsLocStep(blocks: seq<Block>, files: seq<string>, n: nat)
    requires n < |blocks|
    requires NoDuplicates(files)
    ensures GroupsLoc(blocks, files, n + 1) ==
            GroupsLoc(blocks, files, n) + (if blocks[n].filePath in files then blocks[n].loc else 0)
  {
    if |files| > 0 {
      var init := files[..|files| - 1];
      var last := files[|files| - 1];
      assert files == init + [last];
      assert NoDuplicates(init);
      GroupsLocStep(blocks, init, n);
      GroupStep(blocks, last, n);
      if blocks[n].filePath == last {
        SumLocSnoc(GroupOf(blocks, last, n), blocks[n]);
        assert last !in init;
      } else {
        assert GroupOf(blocks, last, n + 1) == GroupOf(blocks, last, n);
      }
      assert blocks[n].filePath in files <==> blocks[n].filePath in init || blocks[n].filePath == last;
    }
  }

  /**
    * The groups of the files seen among the first `n` blocks hold exactly the lines of
    * those blocks: each block is counted in one group only.
    */
  lemma {:induction false} GroupsLocPartition(blocks: seq<Block>, n: nat)
    requires n <= |blocks|
    ensures GroupsLoc(blocks, Distinct(Paths(blocks)[..n]), n) == SumLoc(blocks[..n])
  {
    if n > 0 {
      var k := n - 1;
      var b := blocks[k];
      var p := b.filePath;
      var before := Distinct(Paths(blocks)[..k]);
      GroupsLocPartition(blocks, k);
      TakeSnoc(Paths(blocks), k);
      DistinctSnoc(Paths(blocks)[..k], p);
      TakeSnoc(blocks, k);
      SumLocSnoc(blocks[..k], b);
      GroupsLocStep(blocks, before, k);
      if p !in before {
        NewFileLoc(blocks, k, before);
      }
    }
  }

  /** A block whose file is new to the key order brings that file's group, which is the block alone. */
  lemma NewFileLoc(blocks: seq<Block>, k: nat, before: seq<string>)
    requires k < |blocks|
    requires before == Distinct(Paths(blocks)[..k])
    requires blocks[k].filePath !in before
    ensures GroupsLoc(blocks, before + [blocks[k].filePath], k + 1) == GroupsLoc(blocks, before, k + 1) + blocks[k].loc
  {
    var b := blocks[k];
    DistinctMembers(Paths(blocks)[..k]);
    GroupShape(blocks, b.filePath, k);
    GroupStep(blocks, b.filePath, k);
    SumLocSnoc([], b);
    assert GroupOf(blocks, b.filePath, k + 1) == [b];
    assert (before + [b.filePath])[..|before|] == before;
  }

  /** The summary rows' lines are those of their files' groups. */
  lemma {:induction false} SummaryRowsLoc(repo: string, blocks: seq<Block>, analyze: Analyzer, score: Scorer, files: seq<string>)
    requires Listed(blocks, files)
    ensures RowsLoc(SummaryRows(repo, blocks, analyze, score, files)) == GroupsLoc(blocks, files, |blocks|)
  {
    if |files| > 0 {
      var init := files[..|files| - 1];
      ListedPrefix(blocks, files, |files| - 1);
      SummaryRowsLoc(repo, blocks, analyze, score, init);
      SummaryRowsSnoc(repo, blocks, analyze, score, files, |files| - 1);
      assert files[..|files|] == files;
      var rows := SummaryRows(repo, blocks, analyze, score, files);
      assert rows[..|rows| - 1] == SummaryRows(repo, blocks, analyze, score, init);
    }
  }

  /** The lines of a list of rows, added up. */
  function RowsLoc(rows: seq<Row>): nat {
    if |rows| == 0 then 0 else RowsLoc(rows[..|rows| - 1]) + rows[|rows| - 1].loc
  }

  /**
    * The summary rows of a repository count every block's lines exactly once: their
    * lines add up to the lines of all blocks, and so to the lines of all block rows.
    */
  lemma SummaryLocTotal(repo: string, blocks: seq<Block>, analyze: Analyzer, score: Scorer)
    ensures RowsLoc(SummaryRows(repo, blocks, analyze, score, FileOrder(blocks))) == SumLoc(blocks)
    ensures RowsLoc(BlockRows(repo, blocks, analyze, score, |blocks|)) == SumLoc(blocks)
  {
    SummaryRowsLoc(repo, blocks, analyze, score, FileOrder(blocks));
    GroupsLocPartition(blocks, |blocks|);
    assert Paths(blocks)[..|blocks|] == Paths(blocks);
    assert blocks[..|blocks|] == blocks;
    BlockRowsLoc(repo, blocks, analyze, score, |blocks|);
  }

  /** The block rows of the first `n` blocks carry those blocks' lines. */
  lemma {:induction false} BlockRowsLoc(repo: string, blocks: seq<Block>, analyze: Analyzer, score: Scorer, n: nat)
    requires n <= |blocks|
    ensures RowsLoc(BlockRows(repo, blocks, analyze, score, n)) == SumLoc(blocks[..n])
  {
    if n > 0 {
      BlockRowsLoc(repo, blocks, analyze, score, n - 1);
      var rows := BlockRows(repo, blocks, analyze, score, n);
      assert rows[..n - 1] == BlockRows(repo, blocks, analyze, score, n - 1);
      assert blocks[..n][..n - 1] == blocks[..n - 1];
    }
  }

  /** The group of `f` holds the blocks of `f` among the first `n`, and nothing else. */
  lemma {:induction false} GroupMembers(blocks: seq<Block>, f: string, n: nat)
    requires n <= |blocks|
    ensures forall k :: 0 <= k < n && blocks[k].filePath == f ==> blocks[k] in GroupOf(blocks, f, n)
    ensures forall b :: b in GroupOf(blocks, f, n) ==> exists k :: 0 <= k < n && blocks[k] == b
  {
    if n > 0 {
      GroupMembers(blocks, f, n - 1);
      GroupStep(blocks, f, n - 1);
    }
  }

  /** Every score of `f` is the index of one of the blocks of `f` among the first `n`. */
  lemma {:induction false} ScoresMembers(blocks: seq<Block>, analyze: Analyzer, score: Scorer, f: string, n: nat)
    requires n <= |blocks|
    ensures forall x :: x in ScoresOf(blocks, analyze, score, f, n) ==>
              exists k :: 0 <= k < n && blocks[k].filePath == f && x == score(analyze(blocks[k], k), blocks[k].loc)
  {
    if n > 0 {
      ScoresMembers(blocks, analyze, score, f, n - 1);
      ScoresStep(blocks, analyze, score, f, n - 1);
    }
  }

  /**
    * A file's summary row spans its blocks: it starts on the first line any of them
    * starts on and ends on the last line any of them ends on, so it starts no later than
    * it ends when every block does.
    */
  lemma SummaryLineSpan(repo: string, blocks: seq<Block>, analyze: Analyzer, score: Scorer, f: string, r: Row)
    requires f in Paths(blocks)
    requires r == FileSummaryOf(repo, blocks, analyze, score, f)
    ensures forall k :: 0 <= k < |blocks| && blocks[k].filePath == f ==>
              r.startLine <= blocks[k].startLine && blocks[k].endLine <= r.endLine
    ensures exists k :: 0 <= k < |blocks| && blocks[k].filePath == f && blocks[k].startLine == r.startLine
    ensures exists k :: 0 <= k < |blocks| && blocks[k].filePath == f && blocks[k].endLine == r.endLine
    ensures (forall k :: 0 <= k < |blocks| ==> blocks[k].startLine <= blocks[k].endLine) ==> r.startLine <= r.endLine
  {
    var group := GroupOf(blocks, f, |blocks|);
    SummaryLines(repo, blocks, analyze, score, f);
    GroupBounds(blocks, f, group);
    GroupSpan(blocks, f, group);
  }

  /** A summary row's line span is that of its file's group. */
  lemma SummaryLines(repo: string, blocks: seq<Block>, analyze: Analyzer, score: Scorer, f: string)
    requires f in Paths(blocks)
    ensures |GroupOf(blocks, f, |blocks|)| > 0
    ensures FileSummaryOf(repo, blocks, analyze, score, f).startLine == MinStart(GroupOf(blocks, f, |blocks|))
    ensures FileSummaryOf(repo, blocks, analyze, score, f).endLine == MaxEnd(GroupOf(blocks, f, |blocks|))
  {
    assert Paths(blocks)[..|blocks|] == Paths(blocks);
    GroupShape(blocks, f, |blocks|);
  }

  /** A file's group spans from the first start line to the last end line of the file's blocks. */
  lemma GroupBounds(blocks: seq<Block>, f: string, group: seq<Block>)
    requires group == GroupOf(blocks, f, |blocks|) && |group| > 0
    ensures forall k :: 0 <= k < |blocks| && blocks[k].filePath == f ==>
              MinStart(group) <= blocks[k].startLine && blocks[k].endLine <= MaxEnd(group)
  {
    GroupMembers(blocks, f, |blocks|);
  }

  /** Both ends of a file's span are attained by blocks of the file. */
  lemma GroupSpan(blocks: seq<Block>, f: string, group: seq<Block>)
    requires group == GroupOf(blocks, f, |blocks|) && |group| > 0
    ensures exists k :: 0 <= k < |blocks| && blocks[k].filePath == f && blocks[k].startLine == MinStart(group)
    ensures exists k :: 0 <= k < |blocks| && blocks[k].filePath == f && blocks[k].endLine == MaxEnd(group)
    ensures (forall k :: 0 <= k < |blocks| ==> blocks[k].startLine <= blocks[k].endLine) ==> MinStart(group) <= MaxEnd(group)
  {
    var n := |blocks|;
    GroupShape(blocks, f, n);
    GroupMembers(blocks, f, n);
    MinStartAttained(group);
    MaxEndAttained(group);
    var b1 :| b1 in group && b1.startLine == MinStart(group);
    var b2 :| b2 in group && b2.endLine == MaxEnd(group);
    var k1 :| 0 <= k1 < n && blocks[k1] == b1;
    var k2 :| 0 <= k2 < n && blocks[k2] == b2;
    assert blocks[k1].filePath == f && blocks[k2].filePath == f;
    assert MinStart(group) <= blocks[k2].startLine;
  }

  /** The smallest of a non-empty list of scores. */
  ghost function MinScore(s: seq<real>): (r: real)
    requires |s| > 0
    ensures forall i :: 0 <= i < |s| ==> r <= s[i]
    ensures exists i :: 0 <= i < |s| && s[i] == r
  {
    if |s| == 1 then s[0]
    else
      var rest := MinScore(s[1..]);
      assert forall i :: 1 <= i < |s| ==> s[i] == s[1..][i - 1];
      if s[0] <= rest then s[0] else rest
  }

  /** The largest of a non-empty list of scores. */
  ghost function MaxScore(s: seq<real>): (r: real)
    requires |s| > 0
    ensures forall i :: 0 <= i < |s| ==> s[i] <= r
    ensures exists i :: 0 <= i < |s| && s[i] == r
  {
    if |s| == 1 then s[0]
    else
      var rest := MaxScore(s[1..]);
      assert forall i :: 1 <= i < |s| ==> s[i] == s[1..][i - 1];
      if s[0] >= rest then s[0] else rest
  }

  /** A sum of scores lies between the count times a lower and times an upper bound. */
  lemma {:induction false} SumRealBounds(s: seq<real>, lo: real, hi: real)
    requires forall i :: 0 <= i < |s| ==> lo <= s[i] <= hi
    ensures |s| as real * lo <= SumReal(s) <= |s| as real * hi
  {
    if |s| > 0 {
      SumRealBounds(s[..|s| - 1], lo, hi);
    }
  }

  /** The mean of scores lies within any bounds of the scores. */
  lemma MeanBetween(s: seq<real>, lo: real, hi: real)
    requires |s| > 0
    requires forall i :: 0 <= i < |s| ==> lo <= s[i] <= hi
    ensures lo <= Mean(s) <= hi
  {
    SumRealBounds(s, lo, hi);
    var n := |s| as real;
    assert Mean(s) * n == SumReal(s);
  }

  /**
    * A file's summary index lies between the indexes of two of its block rows: at least
    * the smallest and at most the largest index among the file's blocks.
    */
  lemma SummaryIndexBetween(repo: string, blocks: seq<Block>, analyze: Analyzer, score: Scorer, f: string,
                             rows: seq<Row>, mi: real)
    requires f in Paths(blocks)
    requires rows == BlockRows(repo, blocks, analyze, score, |blocks|)
    requires mi == FileSummaryOf(repo, blocks, analyze, score, f).mi
    ensures exists k :: 0 <= k < |blocks| && blocks[k].filePath == f && rows[k].mi <= mi
    ensures exists k :: 0 <= k < |blocks| && blocks[k].filePath == f && mi <= rows[k].mi
  {
    var s := ScoresOf(blocks, analyze, score, f, |blocks|);
    SummaryIsMean(repo, blocks, analyze, score, f);
    var lo, hi := MinScore(s), MaxScore(s);
    MeanBetween(s, lo, hi);
    var i :| 0 <= i < |s| && s[i] == lo;
    var j :| 0 <= j < |s| && s[j] == hi;
    ScoreRow(repo, blocks, analyze, score, f, s[i]);
    ScoreRow(repo, blocks, analyze, score, f, s[j]);
    var k1 :| 0 <= k1 < |blocks| && blocks[k1].filePath == f && rows[k1].mi == s[i];
    var k2 :| 0 <= k2 < |blocks| && blocks[k2].filePath == f && rows[k2].mi == s[j];
  }

  /** A file's summary index is the mean of its scores, of which there is at least one. */
  lemma SummaryIsMean(repo: string, blocks: seq<Block>, analyze: Analyzer, score: Scorer, f: string)
    requires f in Paths(blocks)
    ensures |ScoresOf(blocks, analyze, score, f, |blocks|)| > 0
    ensures FileSummaryOf(repo, blocks, analyze, score, f).mi == Mean(ScoresOf(blocks, analyze, score, f, |blocks|))
  {
    assert Paths(blocks)[..|blocks|] == Paths(blocks);
    GroupShape(blocks, f, |blocks|);
    ScoresMatchGroup(blocks, analyze, score, f, |blocks|);
  }

  /** Every score of a file is the index on the row of one of its blocks. */
  lemma ScoreRow(repo: string, blocks: seq<Block>, analyze: Analyzer, score: Scorer, f: string, x: real)
    requires x in ScoresOf(blocks, analyze, score, f, |blocks|)
    ensures exists k :: 0 <= k < |blocks| && blocks[k].filePath == f &&
                        BlockRows(repo, blocks, analyze, score, |blocks|)[k].mi == x
  {
    ScoresMembers(blocks, analyze, score, f, |blocks|);
    var k :| 0 <= k < |blocks| && blocks[k].filePath == f && x == score(analyze(blocks[k], k), blocks[k].loc);
    BlockRowsAt(repo, blocks, analyze, score, |blocks|, k);
  }

  /** When every index the scorer gives lies in `[lo, hi]`, so does every row's, summaries included. */
  lemma RowsIndexInRange(repo: string, blocks: seq<Block>, analyze: Analyzer, score: Scorer, lo: real, hi: real)
    requires forall m: TmMetrics, loc: nat :: lo <= score(m, loc) <= hi
    ensures forall r :: r in RepositoryRows(repo, blocks, analyze, score) ==> lo <= r.mi <= hi
  {
    var n := |blocks|;
    var blockRows := BlockRows(repo, blocks, analyze, score, n);
    var summaryRows := SummaryRows(repo, blocks, analyze, score, FileOrder(blocks));
    BlockRowsInRange(repo, blocks, analyze, score, lo, hi);
    SummaryRowsInRange(repo, blocks, analyze, score, lo, hi);
    assert forall r :: r in blockRows + summaryRows ==> r in blockRows || r in summaryRows;
  }

  lemma BlockRowsInRange(repo: string, blocks: seq<Block>, analyze: Analyzer, score: Scorer, lo: real, hi: real)
    requires forall m: TmMetrics, loc: nat :: lo <= score(m, loc) <= hi
    ensures forall r :: r in BlockRows(repo, blocks, analyze, score, |blocks|) ==> lo <= r.mi <= hi
  {
    var n := |blocks|;
    var blockRows := BlockRows(repo, blocks, analyze, score, n);
    forall k | 0 <= k < n
      ensures lo <= blockRows[k].mi <= hi
    {
      BlockRowsAt(repo, blocks, analyze, score, n, k);
    }
  }

  lemma SummaryRowsInRange(repo: string, blocks: seq<Block>, analyze: Analyzer, score: Scorer, lo: real, hi: real)
    requires forall m: TmMetrics, loc: nat :: lo <= score(m, loc) <= hi
    ensures forall r :: r in SummaryRows(repo, blocks, analyze, score, FileOrder(blocks)) ==> lo <= r.mi <= hi
  {
    var files := FileOrder(blocks);
    var summaryRows := SummaryRows(repo, blocks, analyze, score, files);
    forall k | 0 <= k < |files|
      ensures lo <= summaryRows[k].mi <= hi
    {
      SummaryRowsAt(repo, blocks, analyze, score, files, k);
      SummaryIndexInRange(repo, blocks, analyze, score, files[k], lo, hi);
    }
  }

  /** A file's summary index is a mean of scores, so it lies within any bounds of the scorer. */
  lemma SummaryIndexInRange(repo: string, blocks: seq<Block>, analyze: Analyzer, score: Scorer, f: string, lo: real, hi: real)
    requires f in Paths(blocks)
    requires forall m: TmMetrics, loc: nat :: lo <= score(m, loc) <= hi
    ensures lo <= FileSummaryOf(repo, blocks, analyze, score, f).mi <= hi
  {
    var n := |blocks|;
    var s := ScoresOf(blocks, analyze, score, f, n);
    assert Paths(blocks)[..n] == Paths(blocks);
    GroupShape(blocks, f, n);
    ScoresMatchGroup(blocks, analyze, score, f, n);
    ScoresMembers(blocks, analyze, score, f, n);
    forall i | 0 <= i < |s|
      ensures lo <= s[i] <= hi
    {
      assert s[i] in s;
    }
    MeanBetween(s, lo, hi);
  }

  /** Every row the builder writes carries an index in `[15, 95]`. */
  lemma BuilderRowsInRange(pow: PowFn, repo: string, blocks: seq<Block>, analyze: Analyzer)
    requires PowLaws(pow)
    ensures forall r :: r in RepositoryRows(repo, blocks, analyze, BuilderScore(pow)) ==> 15.0 <= r.mi <= 95.0
  {
    forall m: TmMetrics, loc: nat
      ensures 15.0 <= BuilderScore(pow)(m, loc) <= 95.0
    {
      IndexInRange(pow, m, loc);
    }
    RowsIndexInRange(repo, blocks, analyze, BuilderScore(pow), 15.0, 95.0);
  }
}
