/**
  * The brace-depth block extractor (`TerraformCodeExtractor._extract_block` and the
  * per-match bookkeeping of `_parse_tf_file`).
  *
  * A file is split into lines; for every regex match of a block header the extractor
  * walks the lines from the header's line on, adding 1 per `{` and subtracting 1 per `}`
  * (braces inside strings and comments count too), and stops at the first character
  * after which at least one `{` has been seen and the count is 0. The regex engine is
  * not modelled: its matches are given as `Match` values, in the order the patterns
  * are tried.
  */
module BlockExtractor {
  import opened Wrappers
  import opened Text

  // ---------------------------------------------------------------------------
  // The reference: brace depth over the characters read so far
  // ---------------------------------------------------------------------------

  function BraceDelta(c: char): int {
    if c == '{' then 1 else if c == '}' then -1 else 0
  }

  /** The brace count after reading `t`: the number of `{` minus the number of `}`. */
  function Depth(t: string): int {
    if |t| == 0 then 0 else Depth(t[..|t| - 1]) + BraceDelta(t[|t| - 1])
  }

  /** After reading `t` the scan is inside a block and back at depth 0. */
  predicate Closes(t: string) {
    '{' in t && Depth(t) == 0
  }

  /** The first `p` characters of `t`, a non-empty prefix, close a block. */
  predicate ClosesAt(t: string, p: int) {
    0 < p <= |t| && Closes(t[..p])
  }

  /** Some non-empty prefix of `t` closes a block. */
  predicate HasClosingPrefix(t: string) {
    exists p :: 0 < p <= |t| && ClosesAt(t, p)
  }

  /** The characters of the lines in order; the newlines between them hold no brace. */
  function Flatten(lines: seq<string>): string {
    if |lines| == 0 then "" else Flatten(lines[..|lines| - 1]) + lines[|lines| - 1]
  }

  /** Reading one more character closes a block iff an earlier prefix did or the whole does. */
  lemma ClosingSnoc(t: string, c: char)
    ensures HasClosingPrefix(t + [c]) <==> HasClosingPrefix(t) || Closes(t + [c])
  {
    var u := t + [c];
    if HasClosingPrefix(t) {
      var p :| 0 < p <= |t| && ClosesAt(t, p);
      assert u[..p] == t[..p];
      assert ClosesAt(u, p);
    }
    if Closes(u) {
      assert u[..|u|] == u;
      assert ClosesAt(u, |u|);
    }
    if HasClosingPrefix(u) {
      var p :| 0 < p <= |u| && ClosesAt(u, p);
      if p <= |t| {
        assert u[..p] == t[..p];
        assert ClosesAt(t, p);
      } else {
        assert u[..p] == u;
      }
    }
  }

  /** One character more: the count moves by its delta and the scan closes iff it did or does now. */
  lemma ScanStep(t: string, c: char)
    ensures Depth(t + [c]) == Depth(t) + BraceDelta(c)
    ensures '{' in t + [c] <==> '{' in t || c == '{'
    ensures HasClosingPrefix(t + [c]) <==> HasClosingPrefix(t) || Closes(t + [c])
  {
    assert (t + [c])[..|t|] == t;
    ClosingSnoc(t, c);
  }

  /** `ScanStep` for character `k` of a line read after `before`. */
  lemma ScanStepInLine(before: string, line: string, k: nat)
    requires k < |line|
    ensures Depth(before + line[..k + 1]) == Depth(before + line[..k]) + BraceDelta(line[k])
    ensures '{' in before + line[..k + 1] <==> '{' in before + line[..k] || line[k] == '{'
    ensures HasClosingPrefix(before + line[..k + 1]) <==>
              HasClosingPrefix(before + line[..k]) || Closes(before + line[..k + 1])
    ensures HasClosingPrefix(before + line[..k + 1]) ==> HasClosingPrefix(before + line)
  {
    assert before + line[..k + 1] == (before + line[..k]) + [line[k]];
    ScanStep(before + line[..k], line[k]);
    if HasClosingPrefix(before + line[..k + 1]) {
      ClosingExtend(before + line[..k + 1], line[k + 1..]);
      assert (before + line[..k + 1]) + line[k + 1..] == before + line;
    }
  }

  /** A closing prefix stays a closing prefix when more characters follow. */
  lemma ClosingExtend(t: string, u: string)
    requires HasClosingPrefix(t)
    ensures HasClosingPrefix(t + u)
  {
    var p :| 0 < p <= |t| && ClosesAt(t, p);
    assert (t + u)[..p] == t[..p];
    assert ClosesAt(t + u, p);
  }

  /** The flattened window `lines[start..j + 1]` is the window up to `j` followed by line `j`. */
  lemma FlattenSnoc(lines: seq<string>, start: nat, j: nat)
    requires start <= j < |lines|
    ensures Flatten(lines[start..j + 1]) == Flatten(lines[start..j]) + lines[j]
  {
    assert lines[start..j + 1][..j - start] == lines[start..j];
  }

  /** The first line index `r >= j` whose text, read from line `start` on, has a closing prefix. */
  function FirstClosing(lines: seq<string>, start: nat, j: nat): (r: Option<nat>)
    requires start <= j <= |lines|
    ensures r.Some? ==> j <= r.value < |lines|
    decreases |lines| - j
  {
    if j == |lines| then None
    else if HasClosingPrefix(Flatten(lines[start..j + 1])) then Some(j)
    else FirstClosing(lines, start, j + 1)
  }

  /**
    * The 0-based index of the line on which the block starting at line `start` ends, or
    * `None` when it never does (or `start` lies past the end).
    */
  function ClosingLine(lines: seq<string>, start: nat): (r: Option<nat>)
    ensures r.Some? ==> start <= r.value < |lines|
  {
    if start <= |lines| then FirstClosing(lines, start, start) else None
  }

  /** Helper for `ClosingLineIsFirst`: the search from `j` on, when nothing closed before `j`. */
  lemma {:induction false} FirstClosingIsFirst(lines: seq<string>, start: nat, j: nat)
    requires start <= j <= |lines|
    requires !HasClosingPrefix(Flatten(lines[start..j]))
    ensures var r := FirstClosing(lines, start, j);
            (r.Some? ==> HasClosingPrefix(Flatten(lines[start..r.value + 1])) &&
                         !HasClosingPrefix(Flatten(lines[start..r.value]))) &&
            (r.None? ==> !HasClosingPrefix(Flatten(lines[start..])))
    decreases |lines| - j
  {
    if j == |lines| {
      assert lines[start..j] == lines[start..];
    } else if !HasClosingPrefix(Flatten(lines[start..j + 1])) {
      FirstClosingIsFirst(lines, start, j + 1);
    }
  }

  /**
    * The block ends on the first line after which some prefix of the characters read
    * from line `start` on has seen a `{` and is back at depth 0, and the lines before it
    * hold no such prefix; it never ends when no prefix of the remaining text does.
    */
  lemma ClosingLineIsFirst(lines: seq<string>, start: nat)
    requires start <= |lines|
    ensures var r := ClosingLine(lines, start);
            (r.Some? ==> HasClosingPrefix(Flatten(lines[start..r.value + 1])) &&
                         !HasClosingPrefix(Flatten(lines[start..r.value]))) &&
            (r.None? <==> !HasClosingPrefix(Flatten(lines[start..])))
  {
    assert !ClosesAt(Flatten(lines[start..start]), 1);
    FirstClosingIsFirst(lines, start, start);
    var r := ClosingLine(lines, start);
    if r.Some? {
      assert lines[start..] == lines[start..r.value + 1] + lines[r.value + 1..];
      FlattenAppend(lines[start..r.value + 1], lines[r.value + 1..]);
      ClosingExtend(Flatten(lines[start..r.value + 1]), Flatten(lines[r.value + 1..]));
    }
  }

  /** Flattening distributes over concatenation. */
  lemma {:induction false} FlattenAppend(a: seq<string>, b: seq<string>)
    ensures Flatten(a + b) == Flatten(a) + Flatten(b)
    decreases |b|
  {
    if |b| > 0 {
      assert (a + b)[..|a + b| - 1] == a + b[..|b| - 1];
      FlattenAppend(a, b[..|b| - 1]);
    } else {
      assert a + b == a;
    }
  }

  // ---------------------------------------------------------------------------
  // `_extract_block`
  // ---------------------------------------------------------------------------

  /**
    * The character loop of `_extract_block` over one line, entered with the count and
    * the `in_block` flag left by the text `before` read so far. It reports whether the
    * block closes somewhere on this line, and otherwise the state after the whole line.
    */
  method ScanLine(line: string, braceCount0: int, inBlock0: bool, ghost before: string)
    returns (closed: bool, braceCount: int, inBlock: bool)
    requires braceCount0 == Depth(before) && inBlock0 == ('{' in before)
    requires !HasClosingPrefix(before)
    ensures closed <==> HasClosingPrefix(before + line)
    ensures !closed ==> braceCount == Depth(before + line) && inBlock == ('{' in before + line)
  {
    braceCount, inBlock := braceCount0, inBlock0;
    assert before + line[..0] == before;
    var k := 0;
    while k < |line|
      invariant 0 <= k <= |line|
      invariant braceCount == Depth(before + line[..k]) && inBlock == ('{' in before + line[..k])
      invariant !HasClosingPrefix(before + line[..k])
    {
      var c := line[k];
      if c == '{' {
        braceCount := braceCount + 1;
        inBlock := true;
      } else if c == '}' {
        braceCount := braceCount - 1;
      }
      ScanStepInLine(before, line, k);
      if inBlock && braceCount == 0 {
        return true, braceCount, inBlock;
      }
      k := k + 1;
    }
    assert line[..|line|] == line;
    closed := false;
  }

  /** One line of `ExtractBlock`'s walk: the window grows by line `i`, which ends the block iff the text read so far closes. */
  lemma ExtractStep(lines: seq<string>, startIdx: nat, i: nat, read: string)
    requires startIdx <= i < |lines|
    requires read == Flatten(lines[startIdx..i]) && !HasClosingPrefix(read)
    requires ClosingLine(lines, startIdx) == FirstClosing(lines, startIdx, i)
    ensures lines[startIdx..i] + [lines[i]] == lines[startIdx..i + 1]
    ensures read + lines[i] == Flatten(lines[startIdx..i + 1])
    ensures HasClosingPrefix(read + lines[i]) ==> ClosingLine(lines, startIdx) == Some(i)
    ensures !HasClosingPrefix(read + lines[i]) ==> ClosingLine(lines, startIdx) == FirstClosing(lines, startIdx, i + 1)
  {
    FlattenSnoc(lines, startIdx, i);
  }

  /**
    * Walk `lines` from `startIdx`, counting braces character by character. Returns the
    * 1-based number of the line on which the block closes and the lines from `startIdx`
    * through that whole line joined by newlines, or `(-1, "")` when it never closes.
    */
  method ExtractBlock(lines: seq<string>, startIdx: nat) returns (endLine: int, content: string)
    ensures endLine == (if ClosingLine(lines, startIdx).Some? then ClosingLine(lines, startIdx).value + 1 else -1)
    ensures endLine != -1 ==> startIdx < endLine <= |lines| && content == Join(lines[startIdx..endLine])
    ensures endLine == -1 ==> content == ""
  {
    var braceCount := 0;
    var inBlock := false;
    var blockLines: seq<string> := [];
    ghost var read := "";
    var i := startIdx;
    while i < |lines|
      invariant startIdx <= i
      invariant startIdx <= |lines| ==> i <= |lines| && blockLines == lines[startIdx..i]
      invariant startIdx <= |lines| ==> read == Flatten(blockLines)
      invariant braceCount == Depth(read) && inBlock == ('{' in read)
      invariant !HasClosingPrefix(read)
      invariant startIdx <= |lines| ==> ClosingLine(lines, startIdx) == FirstClosing(lines, startIdx, i)
      decreases |lines| - i
    {
      var line := lines[i];
      blockLines := blockLines + [line];
      ExtractStep(lines, startIdx, i, read);
      var closed;
      closed, braceCount, inBlock := ScanLine(line, braceCount, inBlock, read);
      read := read + line;
      if closed {
        return i + 1, Join(blockLines);
      }
      i := i + 1;
    }
    return -1, "";
  }

  // ---------------------------------------------------------------------------
  // `_parse_tf_file`: one block record per match whose block closes
  // ---------------------------------------------------------------------------

  datatype BlockType = Resource | Module | Data | Variable | Output | Locals | Provider | Terraform

  /** A regex match of a block header: its type, its one or two quoted labels and its offset. */
  datatype Match = Match(blockType: BlockType, label1: string, label2: string, offset: nat)

  datatype Block = Block(
    filePath: string,
    blockType: BlockType,
    name: string,
    startLine: nat,
    endLine: nat,
    code: string,
    loc: nat)

  /** "type.name" for resources and data sources, the label for modules, variables,
    * outputs and providers, the keyword for `locals` and `terraform`. */
  function BlockName(m: Match): string {
    match m.blockType
    case Resource | Data => m.label1 + "." + m.label2
    case Module | Variable | Output | Provider => m.label1
    case Locals => "locals"
    case Terraform => "terraform"
  }

  /** `content[:offset].count("\n") + 1`; a Python slice past the end takes the whole text. */
  function StartLine(content: string, offset: nat): (r: nat)
    ensures 1 <= r <= NewlineCount(content) + 1
  {
    var p := if offset <= |content| then offset else |content|;
    NewlineCountPrefix(content, p);
    assert content[..|content|] == content;
    NewlineCount(content[..p]) + 1
  }

  /** The record `_parse_tf_file` appends for match `m`, if its block closes. */
  function BlockOf(path: string, content: string, m: Match): Option<Block> {
    BlockAt(path, m, Split(content), StartLine(content, m.offset))
  }

  /** The record of a block whose header is on line `startLine` of `lines`, if the block closes. */
  function BlockAt(path: string, m: Match, lines: seq<string>, startLine: nat): Option<Block>
    requires startLine >= 1
  {
    var closing := ClosingLine(lines, startLine - 1);
    if closing.Some? then
      var code := Join(lines[startLine - 1..closing.value + 1]);
      Some(Block(path, m.blockType, BlockName(m), startLine, closing.value + 1, code, |Split(code)|))
    else None
  }

  /** The records of a file's matches, in match order, skipping blocks that never close. */
  function FileBlocks(path: string, content: string, matches: seq<Match>): (r: seq<Block>)
    ensures |r| <= |matches|
  {
    if |matches| == 0 then []
    else
      var b := BlockOf(path, content, matches[|matches| - 1]);
      FileBlocks(path, content, matches[..|matches| - 1]) + (if b.Some? then [b.value] else [])
  }

  /** Extending the matches by one extends the records by that match's record, if any. */
  lemma FileBlocksSnoc(path: string, content: string, matches: seq<Match>, j: nat)
    requires j < |matches|
    ensures var b := BlockOf(path, content, matches[j]);
            FileBlocks(path, content, matches[..j + 1]) ==
            FileBlocks(path, content, matches[..j]) + (if b.Some? then [b.value] else [])
  {
    assert matches[..j + 1][..j] == matches[..j];
  }

  /** The record of a match in terms of what `ExtractBlock` returns for it. */
  lemma BlockOfExtracted(path: string, m: Match, lines: seq<string>, startLine: nat, endLine: int, code: string)
    requires startLine >= 1
    requires endLine == (if ClosingLine(lines, startLine - 1).Some? then ClosingLine(lines, startLine - 1).value + 1 else -1)
    requires endLine != -1 ==> code == Join(lines[startLine - 1..endLine])
    ensures BlockAt(path, m, lines, startLine) ==
            if endLine > 0 then Some(Block(path, m.blockType, BlockName(m), startLine, endLine, code, |Split(code)|))
            else None
  {
  }

  /** One match of `ParseFile`'s loop: the records grow by the block `ExtractBlock` found for it, if any. */
  lemma ParseStep(path: string, content: string, matches: seq<Match>, j: nat, lines: seq<string>, startLine: nat,
                  endLine: int, code: string)
    requires j < |matches|
    requires lines == Split(content) && startLine == StartLine(content, matches[j].offset)
    requires endLine == (if ClosingLine(lines, startLine - 1).Some? then ClosingLine(lines, startLine - 1).value + 1 else -1)
    requires endLine != -1 ==> code == Join(lines[startLine - 1..endLine])
    ensures FileBlocks(path, content, matches[..j + 1]) ==
            FileBlocks(path, content, matches[..j]) +
            (if endLine > 0
             then [Block(path, matches[j].blockType, BlockName(matches[j]), startLine, endLine, code, |Split(code)|)]
             else [])
  {
    BlockOfExtracted(path, matches[j], lines, startLine, endLine, code);
    FileBlocksSnoc(path, content, matches, j);
  }

  /** `_parse_tf_file` with the file already read and the regex matches given. */
  method ParseFile(path: string, content: string, matches: seq<Match>) returns (blocks: seq<Block>)
    ensures blocks == FileBlocks(path, content, matches)
  {
    var lines := Split(content);
    blocks := [];
    for j := 0 to |matches|
      invariant blocks == FileBlocks(path, content, matches[..j])
    {
      var m := matches[j];
      var startLine := StartLine(content, m.offset);
      var endLine, code := ExtractBlock(lines, startLine - 1);
      ParseStep(path, content, matches, j, lines, startLine, endLine, code);
      if endLine > 0 {
        var name := BlockName(m);
        blocks := blocks + [Block(path, m.blockType, name, startLine, endLine, code, |Split(code)|)];
      }
    }
    assert matches[..|matches|] == matches;
  }

  // ---------------------------------------------------------------------------
  // Properties of the emitted records
  // ---------------------------------------------------------------------------

  /**
    * A record is consistent with its file: its lines lie inside the file, its code is
    * exactly those lines, whole, and its line count is `end_line - start_line + 1`.
    */
  predicate WellFormed(b: Block, path: string, content: string) {
    var lines := Split(content);
    b.filePath == path &&
    1 <= b.startLine <= b.endLine <= |lines| &&
    b.code == Join(lines[b.startLine - 1..b.endLine]) &&
    b.loc == b.endLine - b.startLine + 1
  }

  /** The record of a match starts on the header's line and is well formed. */
  lemma BlockOfWellFormed(path: string, content: string, m: Match)
    requires BlockOf(path, content, m).Some?
    ensures var b := BlockOf(path, content, m).value;
            WellFormed(b, path, content) &&
            b.startLine == NewlineCount(content[..if m.offset <= |content| then m.offset else |content|]) + 1 &&
            b.blockType == m.blockType && b.name == BlockName(m)
  {
    var lines := Split(content);
    var b := BlockOf(path, content, m).value;
    var window := lines[b.startLine - 1..b.endLine];
    assert forall i :: 0 <= i < |window| ==> '\n' !in window[i];
    SplitJoin(window);
  }

  /** Every record of a file is well formed and comes from one of the file's matches. */
  lemma {:induction false} FileBlocksWellFormed(path: string, content: string, matches: seq<Match>)
    ensures forall b :: b in FileBlocks(path, content, matches) ==>
              WellFormed(b, path, content) &&
              exists m :: m in matches && BlockOf(path, content, m) == Some(b)
  {
    if |matches| > 0 {
      var init := matches[..|matches| - 1];
      var last := matches[|matches| - 1];
      FileBlocksWellFormed(path, content, init);
      if BlockOf(path, content, last).Some? {
        BlockOfWellFormed(path, content, last);
      }
      forall b | b in FileBlocks(path, content, matches)
        ensures exists m :: m in matches && BlockOf(path, content, m) == Some(b)
      {
        if b in FileBlocks(path, content, init) {
          var m :| m in init && BlockOf(path, content, m) == Some(b);
          assert m in matches;
        } else {
          assert last in matches;
        }
      }
    }
  }

  /**
    * A `}` before any `{` drives the count below 0 without ending the block, so a later
    * `{` brings it back to 0 and the block ends on that line.
    */
  lemma StrayClosingBrace()
    ensures Depth("}") == -1 && !HasClosingPrefix("}")
    ensures ClosingLine(["}", "a {", "}"], 0) == Some(1)
  {
    assert !ClosesAt("}", 1);
    var lines := ["}", "a {", "}"];
    assert Flatten(lines[0..1]) == "}" by {
      assert lines[0..1] == ["}"];
    }
    assert Flatten(lines[0..2]) == "}a {" by {
      assert lines[0..2] == ["}", "a {"];
      assert ["}", "a {"][..1] == ["}"];
    }
    assert ("}a {")[..4] == "}a {";
    assert Depth("}a {") == 0 by {
      assert ("}a {")[..3] == "}a ";
      assert ("}a ")[..2] == "}a";
      assert ("}a")[..1] == "}";
    }
    assert ClosesAt("}a {", 4);
  }

  /** A one-line block `x {}` ends on its own line. */
  lemma OneLineBlock()
    ensures ClosingLine(["x {}"], 0) == Some(0)
  {
    assert ["x {}"][0..1] == ["x {}"];
    assert Flatten(["x {}"]) == "x {}" by {
      assert ["x {}"][..0] == [];
    }
    assert ("x {}")[..4] == "x {}";
    assert Depth("x {}") == 0 by {
      assert ("x {}")[..3] == "x {";
      assert ("x {")[..2] == "x ";
      assert ("x ")[..1] == "x";
    }
    assert ClosesAt("x {}", 4);
  }

  /** A header whose brace is never closed never ends. */
  lemma UnclosedBlock()
    ensures ClosingLine(["{"], 0) == None
  {
    assert ["{"][0..1] == ["{"];
    assert Flatten(["{"]) == "{" by {
      assert ["{"][..0] == [];
    }
    assert ("{")[..1] == "{";
    assert Depth("{") == 1 by {
      assert ("{")[..0] == "";
    }
    assert !ClosesAt("{", 1);
  }
}
