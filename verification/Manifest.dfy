/** The `data:` and `stringData:` blocks of the Kubernetes Secrets in a text, found by indentation. */
module Manifest {
  import opened Spans
  import opened Wrappers

  /** One line: where its content starts and ends, how deep it is, and the key it opens. */
  datatype Line = Line(
    start: nat,
    end: nat,
    indent: nat,
    key: Option<string>,
    value: string,
    isItemStart: bool,
    isSeparator: bool,
    isBlank: bool)

  // ---------------------------------------------------------------------------------------------
  // Lines
  // ---------------------------------------------------------------------------------------------

  predicate IsReturn(c: char) {
    c == '\r' || c == '\n'
  }

  predicate IsLineBreak(c: char) {
    || IsReturn(c) || '\U{0B}' <= c <= '\U{0C}' || '\U{1C}' <= c <= '\U{1E}' || c == '\U{85}'
    || '\U{2028}' <= c <= '\U{2029}'
  }

  predicate IsIndent(c: char) {
    c == ' ' || c == '\t'
  }

  /** Where the line that starts at `p` ends, its line break included. */
  function RawEnd(text: string, p: nat): (end: nat)
    requires p < |text|
    ensures p < end <= |text|
    decreases |text| - p
  {
    if IsLineBreak(text[p]) then
      if text[p] == '\r' && p + 1 < |text| && text[p + 1] == '\n' then p + 2 else p + 1
    else if p + 1 == |text| then p + 1
    else RawEnd(text, p + 1)
  }

  /** Where the content ends once trailing returns are stripped. */
  function ContentEnd(text: string, start: nat, end: nat): (e: nat)
    requires start <= end <= |text|
    ensures start <= e <= end
  {
    if start < end && IsReturn(text[end - 1]) then ContentEnd(text, start, end - 1) else end
  }

  function LeftStrip(s: string): string {
    if s != [] && IsIndent(s[0]) then LeftStrip(s[1..]) else s
  }

  /** The width of leading blanks, tabs reaching the next multiple of eight. */
  function IndentWidth(s: string, column: nat): nat {
    if s == [] || !IsIndent(s[0]) then column
    else IndentWidth(s[1..], if s[0] == '\t' then column + 8 - column % 8 else column + 1)
  }

  predicate IsKeyStart(c: char) {
    'a' <= c <= 'z' || 'A' <= c <= 'Z' || c == '_'
  }

  function KeyLength(s: string): (n: nat)
    ensures n <= |s|
  {
    if s != [] && (IsKeyStart(s[0]) || '0' <= s[0] <= '9' || s[0] == '.' || s[0] == '-') then 1 + KeyLength(s[1..]) else 0
  }

  /** A key of at most 65 characters, its colon, and what follows. */
  function SplitKey(s: string): Option<(string, string)> {
    if s == [] || !IsKeyStart(s[0]) then None
    else
      var n := KeyLength(s);
      var rest := LeftStrip(s[n..]);
      if n <= 65 && rest != [] && rest[0] == ':' then Some((s[..n], rest[1..])) else None
  }

  predicate IsEmptyValue(value: string) {
    var rest := LeftStrip(value);
    rest == [] || rest[0] == '#'
  }

  predicate IsSeparatorText(s: string) {
    |s| >= 3 && s[..3] == "---" && (|s| == 3 || IsIndent(s[3]))
  }

  predicate IsQuote(c: char) {
    c == '"' || c == '\''
  }

  predicate SaysSecret(value: string) {
    var rest := LeftStrip(value);
    var word := if rest != [] && IsQuote(rest[0]) then rest[1..] else rest;
    && |word| >= 6 && word[..6] == "Secret"
    && var after := word[6..];
       IsEmptyValue(if after != [] && IsQuote(after[0]) then after[1..] else after)
  }

  function ParseLine(text: string, start: nat, rawEnd: nat): Line
    requires start <= rawEnd <= |text|
  {
    var end := ContentEnd(text, start, rawEnd);
    var content := text[start..end];
    var body := LeftStrip(content);
    var isItem := body == "-" || (|body| >= 2 && body[0] == '-' && body[1] == ' ');
    var stripped := if isItem then LeftStrip(body[if |body| < 2 then |body| else 2..]) else body;
    var entry := SplitKey(stripped);
    Line(start, end, IndentWidth(content, 0) + (if isItem then 2 else 0),
         if entry.Some? then Some(entry.value.0) else None,
         if entry.Some? then entry.value.1 else stripped,
         isItem, IsSeparatorText(stripped), stripped == [])
  }

  /** The lines tile the text from `from` to its end: each starts where the one before ended, give
      or take the returns between them. */
  ghost predicate Tiles(text: string, lines: seq<Line>, from: nat, upTo: nat)
    decreases |lines|
  {
    if lines == [] then from == upTo
    else
      var last := lines[|lines| - 1];
      && from <= last.start <= last.end <= upTo <= |text| && last.start < upTo
      && (forall i | last.end <= i < upTo :: IsReturn(text[i]))
      && (last.end > last.start ==> !IsReturn(text[last.end - 1]))
      && Tiles(text, lines[..|lines| - 1], from, last.start)
  }

  ghost predicate IsParsed(text: string, line: Line) {
    line.start < |text| && line == ParseLine(text, line.start, RawEnd(text, line.start))
  }

  /** Each line is what its own text parses to. */
  ghost predicate AreParsed(text: string, lines: seq<Line>) {
    forall i {:trigger IsParsed(text, lines[i])} | 0 <= i < |lines| :: IsParsed(text, lines[i])
  }

  /** A line that opens a key is not blank, and has some text. */
  ghost predicate KeyedLinesAreFull(lines: seq<Line>) {
    forall i | 0 <= i < |lines| :: lines[i].key.Some? ==> !lines[i].isBlank && lines[i].start < lines[i].end
  }

  lemma {:induction false} ContentStops(text: string, start: nat, end: nat)
    requires start <= end <= |text|
    ensures var e := ContentEnd(text, start, end);
            (forall i | e <= i < end :: IsReturn(text[i])) && (e > start ==> !IsReturn(text[e - 1]))
    decreases end
  {
    if start < end && IsReturn(text[end - 1]) {
      ContentStops(text, start, end - 1);
    }
  }

  lemma {:induction false} LineFacts(text: string, start: nat, rawEnd: nat)
    requires start <= rawEnd <= |text|
    ensures var line := ParseLine(text, start, rawEnd);
            && (start < |text| && rawEnd == RawEnd(text, start) ==> IsParsed(text, line))
            && line.start == start && line.end == ContentEnd(text, start, rawEnd)
            && (line.key.Some? ==> !line.isBlank && line.start < line.end)
  {
  }

  lemma {:induction false} ParsedMore(text: string, lines: seq<Line>, line: Line)
    requires AreParsed(text, lines) && IsParsed(text, line)
    ensures AreParsed(text, lines + [line])
  {
  }

  lemma {:induction false} TileMore(text: string, lines: seq<Line>, line: Line, position: nat, rawEnd: nat)
    requires Tiles(text, lines, 0, position)
    requires line.start == position <= line.end <= rawEnd <= |text| && position < rawEnd
    requires forall i | line.end <= i < rawEnd :: IsReturn(text[i])
    requires line.end > line.start ==> !IsReturn(text[line.end - 1])
    ensures Tiles(text, lines + [line], 0, rawEnd)
  {
    assert (lines + [line])[..|lines|] == lines;
  }

  lemma {:induction false} NextLine(text: string, lines: seq<Line>, line: Line, position: nat, rawEnd: nat)
    requires Tiles(text, lines, 0, position) && AreParsed(text, lines) && KeyedLinesAreFull(lines)
    requires position < |text| && rawEnd == RawEnd(text, position) && line == ParseLine(text, position, rawEnd)
    ensures Tiles(text, lines + [line], 0, rawEnd)
    ensures AreParsed(text, lines + [line]) && KeyedLinesAreFull(lines + [line])
  {
    LineFacts(text, position, rawEnd);
    ContentStops(text, position, rawEnd);
    TileMore(text, lines, line, position, rawEnd);
    ParsedMore(text, lines, line);
  }

  method Parse(text: string) returns (lines: seq<Line>)
    ensures Tiles(text, lines, 0, |text|) && AreParsed(text, lines) && KeyedLinesAreFull(lines)
  {
    lines := [];
    var position := 0;
    while position < |text|
      invariant position <= |text| && Tiles(text, lines, 0, position)
      invariant AreParsed(text, lines) && KeyedLinesAreFull(lines)
    {
      var rawEnd := RawEnd(text, position);
      var line := ParseLine(text, position, rawEnd);
      NextLine(text, lines, line, position, rawEnd);
      lines := lines + [line];
      position := rawEnd;
    }
  }

  /** Lines that tile a text are in order. */
  ghost predicate InOrder(lines: seq<Line>) {
    && (forall i | 0 <= i < |lines| :: lines[i].start <= lines[i].end)
    && (forall i, j | 0 <= i < j < |lines| :: lines[i].end <= lines[j].start)
  }

  lemma {:induction false} TilesInOrder(text: string, lines: seq<Line>, from: nat, upTo: nat)
    requires Tiles(text, lines, from, upTo) && upTo <= |text|
    ensures InOrder(lines) && forall i | 0 <= i < |lines| :: lines[i].end <= upTo
    decreases |lines|
  {
    if lines != [] {
      var first := lines[..|lines| - 1];
      TilesInOrder(text, first, from, lines[|lines| - 1].start);
      assert forall i | 0 <= i < |first| :: lines[i] == first[i];
    }
  }

  // ---------------------------------------------------------------------------------------------
  // Blocks
  // ---------------------------------------------------------------------------------------------

  /** The line ends the block opened by a key at this depth. */
  predicate EndsBlock(line: Line, indent: nat) {
    !line.isBlank && (line.isSeparator || line.indent <= indent)
  }

  /** No line after `i`, up to `j`, ends the block that line `i` opens. */
  ghost predicate InBlock(lines: seq<Line>, i: nat, j: nat)
    requires i <= j < |lines|
  {
    forall k | i < k <= j :: !EndsBlock(lines[k], lines[i].indent)
  }

  /** The last full line of the block that line `i` opens; `i` itself when the block is empty. */
  ghost predicate IsBlockLast(lines: seq<Line>, i: nat, last: nat)
    requires i < |lines|
  {
    && i <= last < |lines| && InBlock(lines, i, last)
    && (last > i ==> !lines[last].isBlank)
    && forall j | last < j < |lines| && InBlock(lines, i, j) :: lines[j].isBlank
  }

  method BlockEnd(lines: seq<Line>, index: nat) returns (end: nat, ghost last: nat)
    requires index < |lines|
    ensures IsBlockLast(lines, index, last) && end == lines[last].end
    ensures exists l: nat :: IsBlockLast(lines, index, l) && end == lines[l].end
  {
    var indent := lines[index].indent;
    end, last := lines[index].end, index;
    for k := index + 1 to |lines|
      invariant index <= last < k && end == lines[last].end && InBlock(lines, index, last)
      invariant InBlock(lines, index, k - 1) && (last > index ==> !lines[last].isBlank)
      invariant forall j | last < j < k :: lines[j].isBlank
    {
      var line := lines[k];
      if line.isBlank {
        continue;
      }
      if line.isSeparator || line.indent <= indent {
        assert EndsBlock(lines[k], indent);
        return;
      }
      end, last := line.end, k;
    }
  }

  /** A sibling above or below: a line of the same mapping, at the same depth. */
  predicate StopsAbove(line: Line, indent: nat) {
    !line.isBlank && (line.isSeparator || line.indent < indent)
  }

  predicate StopsBelow(line: Line, indent: nat) {
    !line.isBlank && (line.isSeparator || line.indent < indent || line.isItemStart)
  }

  ghost predicate IsSibling(lines: seq<Line>, index: nat, k: nat)
    requires index < |lines|
  {
    && k < |lines| && !lines[k].isBlank && lines[k].indent == lines[index].indent
    && (|| (k < index && !lines[k].isSeparator
            && forall m | k < m < index :: !StopsAbove(lines[m], lines[index].indent)
                                           && (lines[m].isItemStart ==> lines[m].isBlank))
        || (index < k && forall m | index < m <= k :: !StopsBelow(lines[m], lines[index].indent)))
  }

  ghost predicate InSecret(lines: seq<Line>, index: nat)
    requires index < |lines|
  {
    exists k: nat :: IsSibling(lines, index, k) && IsSecretKind(lines[k])
  }

  /** Whether a sibling of the line says that the mapping is a Secret. */
  method EnclosingMappingIsASecret(lines: seq<Line>, index: nat) returns (secret: bool)
    requires index < |lines|
    ensures secret <==> InSecret(lines, index)
  {
    var indent := lines[index].indent;
    secret := false;
    var above := index;
    while above > 0
      invariant above <= index
      invariant forall m | above <= m < index :: !StopsAbove(lines[m], indent) && (lines[m].isItemStart ==> lines[m].isBlank)
      invariant secret <==> exists k: nat :: above <= k < index && IsSibling(lines, index, k) && IsSecretKind(lines[k])
    {
      above := above - 1;
      var line := lines[above];
      if line.isBlank {
        continue;
      }
      if line.isSeparator || line.indent < indent {
        break;
      }
      if line.indent == indent && IsSecretKind(line) {
        assert IsSibling(lines, index, above);
        secret := true;
      }
      if line.isItemStart {
        break;
      }
    }
    var foundAbove := secret;
    assert secret <==> exists k: nat :: k < index && IsSibling(lines, index, k) && IsSecretKind(lines[k]);
    for k := index + 1 to |lines|
      invariant forall m | index < m < k :: !StopsBelow(lines[m], indent)
      invariant secret <==> foundAbove || exists m: nat :: index < m < k && IsSibling(lines, index, m) && IsSecretKind(lines[m])
    {
      var line := lines[k];
      if line.isBlank {
        continue;
      }
      if line.isSeparator || line.indent < indent || line.isItemStart {
        assert StopsBelow(lines[k], indent);
        break;
      }
      if line.indent == indent && IsSecretKind(line) {
        assert IsSibling(lines, index, k);
        secret := true;
      }
    }
  }

  predicate IsSecretKind(line: Line) {
    line.key == Some("kind") && SaysSecret(line.value)
  }

  predicate OpensData(line: Line) {
    (line.key == Some("data") || line.key == Some("stringData")) && IsEmptyValue(line.value)
  }

  ghost predicate OpensSecretData(lines: seq<Line>, index: nat)
    requires index < |lines|
  {
    OpensData(lines[index]) && InSecret(lines, index)
  }

  method IsSecretData(lines: seq<Line>, index: nat) returns (secret: bool)
    requires index < |lines|
    ensures secret <==> OpensSecretData(lines, index)
  {
    secret := OpensData(lines[index]);
    if secret {
      secret := EnclosingMappingIsASecret(lines, index);
    }
  }

  /** `block` is the region that line `i` opens, whose last full line is `last`. */
  ghost predicate IsBlockOf(lines: seq<Line>, i: nat, last: nat, block: Region) {
    i < |lines| && IsBlockLast(lines, i, last) && block == Region(lines[i].end, lines[last].end)
  }

  ghost predicate IsBlock(lines: seq<Line>, i: nat, block: Region) {
    exists last: nat :: IsBlockOf(lines, i, last, block)
  }

  /** One region, in order, for each of the first `upTo` lines that opens one. */
  ghost predicate Picked(opens: nat -> bool, isBlock: (nat, Region) -> bool, upTo: nat, blocks: seq<Region>)
    decreases upTo
  {
    if upTo == 0 then blocks == []
    else if opens(upTo - 1) then
      && blocks != [] && isBlock(upTo - 1, blocks[|blocks| - 1])
      && Picked(opens, isBlock, upTo - 1, blocks[..|blocks| - 1])
    else Picked(opens, isBlock, upTo - 1, blocks)
  }

  ghost function Opens(lines: seq<Line>): nat -> bool {
    (i: nat) => i < |lines| && OpensSecretData(lines, i)
  }

  ghost function BlocksIn(lines: seq<Line>): (nat, Region) -> bool {
    (i: nat, block: Region) => IsBlock(lines, i, block)
  }

  /** The regions of the lines that open a Secret's data. */
  ghost predicate AreBlocks(lines: seq<Line>, upTo: nat, blocks: seq<Region>) {
    Picked(Opens(lines), BlocksIn(lines), upTo, blocks)
  }

  /** The blocks of a text: its lines parsed, and one region for each that opens a Secret's data. */
  ghost predicate AreSecretBlocks(text: string, blocks: seq<Region>) {
    exists lines ::
      && Tiles(text, lines, 0, |text|) && AreParsed(text, lines) && KeyedLinesAreFull(lines)
      && AreBlocks(lines, |lines|, blocks)
  }

  lemma {:induction false} PassOver(lines: seq<Line>, index: nat, blocks: seq<Region>)
    requires index < |lines| && !OpensSecretData(lines, index) && AreBlocks(lines, index, blocks)
    ensures AreBlocks(lines, index + 1, blocks)
  {
  }

  lemma {:induction false} TakeBlock(lines: seq<Line>, index: nat, last: nat, block: Region, blocks: seq<Region>)
    requires index < |lines| && OpensSecretData(lines, index) && IsBlockOf(lines, index, last, block)
    requires AreBlocks(lines, index, blocks)
    ensures AreBlocks(lines, index + 1, blocks + [block])
  {
    assert IsBlock(lines, index, block);
    assert (blocks + [block])[..|blocks|] == blocks;
  }

  lemma {:induction false} BlocksOfText(text: string, lines: seq<Line>, blocks: seq<Region>)
    requires Tiles(text, lines, 0, |text|) && AreParsed(text, lines) && KeyedLinesAreFull(lines)
    requires AreBlocks(lines, |lines|, blocks)
    ensures AreSecretBlocks(text, blocks)
  {
  }

  method SecretManifestBlocks(text: string) returns (blocks: seq<Region>)
    ensures AreSecretBlocks(text, blocks)
  {
    var lines := Parse(text);
    blocks := [];
    for index := 0 to |lines|
      invariant AreBlocks(lines, index, blocks)
    {
      var line := lines[index];
      var secret := IsSecretData(lines, index);
      if !secret {
        PassOver(lines, index, blocks);
        continue;
      }
      var end;
      ghost var last;
      end, last := BlockEnd(lines, index);
      TakeBlock(lines, index, last, Region(line.end, end), blocks);
      blocks := blocks + [Region(line.end, end)];
    }
    BlocksOfText(text, lines, blocks);
  }

  /** Each block was opened by some line. */
  lemma {:induction false} OpenerOf(opens: nat -> bool, isBlock: (nat, Region) -> bool, upTo: nat, blocks: seq<Region>, b: nat)
      returns (i: nat)
    requires Picked(opens, isBlock, upTo, blocks) && b < |blocks|
    ensures i < upTo && opens(i) && isBlock(i, blocks[b])
    decreases upTo
  {
    if !opens(upTo - 1) {
      i := OpenerOf(opens, isBlock, upTo - 1, blocks, b);
    } else if b < |blocks| - 1 {
      i := OpenerOf(opens, isBlock, upTo - 1, blocks[..|blocks| - 1], b);
    } else {
      i := upTo - 1;
    }
  }

  /** Blocks stand in the order of the lines that open them. */
  lemma {:induction false} OpenersOf(opens: nat -> bool, isBlock: (nat, Region) -> bool, upTo: nat, blocks: seq<Region>, b: nat, c: nat)
      returns (i: nat, j: nat)
    requires Picked(opens, isBlock, upTo, blocks) && b < c < |blocks|
    ensures i < j < upTo && opens(j) && isBlock(i, blocks[b]) && isBlock(j, blocks[c])
    decreases upTo
  {
    if !opens(upTo - 1) {
      i, j := OpenersOf(opens, isBlock, upTo - 1, blocks, b, c);
    } else if c < |blocks| - 1 {
      i, j := OpenersOf(opens, isBlock, upTo - 1, blocks[..|blocks| - 1], b, c);
    } else {
      i := OpenerOf(opens, isBlock, upTo - 1, blocks[..|blocks| - 1], b);
      j := upTo - 1;
    }
  }

  // ---------------------------------------------------------------------------------------------
  // How blocks lie to one another
  // ---------------------------------------------------------------------------------------------

  predicate Disjoint(a: Region, b: Region) {
    a.end <= b.start || b.end <= a.start
  }

  predicate Inside(inner: Region, outer: Region) {
    outer.start <= inner.start && inner.end <= outer.end
  }

  lemma {:induction false} EndsInOrder(lines: seq<Line>, x: nat, y: nat)
    requires InOrder(lines) && x <= y < |lines|
    ensures lines[x].end <= lines[y].end && (x < y ==> lines[x].end <= lines[y].start)
  {
  }

  lemma {:induction false} EarlierBlockEnds(lines: seq<Line>, i: nat, lastA: nat, j: nat)
    requires i < j < |lines| && IsBlockLast(lines, i, lastA) && !InBlock(lines, i, j)
    ensures lastA < j
  {
  }

  lemma {:induction false} InnerBlockEndsFirst(lines: seq<Line>, i: nat, lastA: nat, j: nat, lastB: nat)
    requires i < j < |lines| && IsBlockLast(lines, i, lastA) && IsBlockLast(lines, j, lastB)
    requires InBlock(lines, i, j) && !lines[j].isBlank
    ensures j <= lastB <= lastA
  {
    assert !EndsBlock(lines[j], lines[i].indent);
    forall k | i < k <= lastB
      ensures !EndsBlock(lines[k], lines[i].indent)
    {
      assert k > j ==> !EndsBlock(lines[k], lines[j].indent);
    }
    assert InBlock(lines, i, lastB);
  }

  /** Two blocks never cross: the later one lies inside the earlier one if and only if no line between
      them ends the earlier block. They have nothing in common if and only if one does, or the later
      block is empty and the earlier one ends with it. */
  lemma {:induction false} BlocksNest(lines: seq<Line>, i: nat, lastA: nat, a: Region, j: nat, lastB: nat, b: Region)
    requires InOrder(lines) && i < j < |lines| && !lines[j].isBlank && lines[j].start < lines[j].end
    requires IsBlockLast(lines, i, lastA) && a == Region(lines[i].end, lines[lastA].end)
    requires IsBlockLast(lines, j, lastB) && b == Region(lines[j].end, lines[lastB].end)
    ensures InBlock(lines, i, j) <==> Inside(b, a)
    ensures Disjoint(a, b) <==> !InBlock(lines, i, j) || b.start == b.end == a.end
  {
    if InBlock(lines, i, j) {
      InnerBlockEndsFirst(lines, i, lastA, j, lastB);
      EndsInOrder(lines, i, j);
      EndsInOrder(lines, j, lastB);
      EndsInOrder(lines, lastB, lastA);
    } else {
      EarlierBlockEnds(lines, i, lastA, j);
      EndsInOrder(lines, lastA, j);
      EndsInOrder(lines, j, lastB);
    }
  }

  /** So any two blocks found in a text are nested or disjoint, the later opener inside. */
  lemma {:induction false} BlocksAreLaminar(text: string, blocks: seq<Region>, b: nat, c: nat)
    requires AreSecretBlocks(text, blocks) && b < c < |blocks|
    ensures Disjoint(blocks[b], blocks[c]) || Inside(blocks[c], blocks[b])
  {
    var lines :| Tiles(text, lines, 0, |text|) && AreParsed(text, lines) && KeyedLinesAreFull(lines)
      && AreBlocks(lines, |lines|, blocks);
    TilesInOrder(text, lines, 0, |text|);
    var i, j := OpenersOf(Opens(lines), BlocksIn(lines), |lines|, blocks, b, c);
    var lastB: nat :| IsBlockOf(lines, i, lastB, blocks[b]);
    var lastC: nat :| IsBlockOf(lines, j, lastC, blocks[c]);
    BlocksNest(lines, i, lastB, blocks[b], j, lastC, blocks[c]);
  }

  // ---------------------------------------------------------------------------------------------
  // A text whose blocks are not disjoint
  // ---------------------------------------------------------------------------------------------

  const NESTED_BODIES := ["kind: Secret", "data:", "  kind: Secret", "  data:", "    a: b"]

  /** The bodies from the `k`th on, a line feed between each and the next. */
  function Rows(bodies: seq<string>, k: nat): string
    requires k < |bodies|
    decreases |bodies| - k
  {
    if k + 1 == |bodies| then bodies[k] else bodies[k] + ("\n" + Rows(bodies, k + 1))
  }

  function RowsBefore(bodies: seq<string>, k: nat): string
    requires k <= |bodies|
  {
    if k == 0 then [] else RowsBefore(bodies, k - 1) + (bodies[k - 1] + "\n")
  }

  const NESTED_MANIFEST := Rows(NESTED_BODIES, 0)

  const NESTED_LINES := [
    Line(0, 12, 0, Some("kind"), " Secret", false, false, false),
    Line(13, 18, 0, Some("data"), "", false, false, false),
    Line(19, 33, 2, Some("kind"), " Secret", false, false, false),
    Line(34, 41, 2, Some("data"), "", false, false, false),
    Line(42, 50, 4, Some("a"), " b", false, false, false)]

  function Blanks(n: nat): (s: string)
    ensures |s| == n
  {
    if n == 0 then [] else [' '] + Blanks(n - 1)
  }

  predicate IsPlainKey(key: string) {
    0 < |key| <= 65 && forall i | 0 <= i < |key| :: IsKeyStart(key[i])
  }

  lemma {:induction false} BlanksAreStripped(n: nat, s: string, column: nat)
    requires s != [] && !IsIndent(s[0])
    ensures LeftStrip(Blanks(n) + s) == s && IndentWidth(Blanks(n) + s, column) == column + n
    decreases n
  {
    if n == 0 {
      assert Blanks(0) + s == s;
    } else {
      assert (Blanks(n) + s)[1..] == Blanks(n - 1) + s;
      BlanksAreStripped(n - 1, s, column + 1);
    }
  }

  lemma {:induction false} KeyIsRead(key: string, rest: string)
    requires forall i | 0 <= i < |key| :: IsKeyStart(key[i])
    ensures KeyLength(key + ([':'] + rest)) == |key|
  {
    if key == [] {
      assert key + ([':'] + rest) == [':'] + rest;
    } else {
      assert (key + ([':'] + rest))[1..] == key[1..] + ([':'] + rest);
      KeyIsRead(key[1..], rest);
    }
  }

  lemma {:induction false} LineRuns(text: string, p: nat, end: nat)
    requires p <= end <= |text| && p < |text| && forall i | p <= i < end :: !IsLineBreak(text[i])
    requires end == |text| || text[end] == '\n'
    ensures RawEnd(text, p) == if end == |text| then end else end + 1
    decreases end - p
  {
    if p + 1 < |text| && p < end {
      LineRuns(text, p + 1, end);
    }
  }

  lemma {:induction false} RowsSplit(bodies: seq<string>, k: nat)
    requires k < |bodies|
    ensures RowsBefore(bodies, k) + Rows(bodies, k) == Rows(bodies, 0)
  {
    if k == 0 {
      assert [] + Rows(bodies, 0) == Rows(bodies, 0);
    } else {
      RowsSplit(bodies, k - 1);
      var before, body, rest := RowsBefore(bodies, k - 1), bodies[k - 1], Rows(bodies, k);
      assert (before + (body + "\n")) + rest == before + (body + ("\n" + rest));
    }
  }

  predicate IsKeyLine(body: string, indent: nat, key: string, value: string) {
    && body == Blanks(indent) + (key + ([':'] + value)) && IsPlainKey(key)
    && forall i | 0 <= i < |body| :: !IsLineBreak(body[i])
  }

  lemma {:induction false} BodyReads(body: string, indent: nat, key: string, value: string)
    requires IsKeyLine(body, indent, key, value)
    ensures LeftStrip(body) == key + ([':'] + value) && IndentWidth(body, 0) == indent
    ensures SplitKey(key + ([':'] + value)) == Some((key, value))
  {
    var entry := key + ([':'] + value);
    assert entry[0] == key[0];
    BlanksAreStripped(indent, entry, 0);
    KeyIsRead(key, value);
    assert entry[|key|..] == [':'] + value && entry[..|key|] == key;
    assert ([':'] + value)[1..] == value;
  }

  lemma {:induction false} RowStands(bodies: seq<string>, k: nat)
    requires k < |bodies|
    ensures var start := |RowsBefore(bodies, k)|; var end := start + |bodies[k]|; var text := Rows(bodies, 0);
      && end <= |text| && text[start..end] == bodies[k]
      && if k + 1 == |bodies| then end == |text| else end < |text| && text[end] == '\n'
  {
    var before, rest := RowsBefore(bodies, k), Rows(bodies, k);
    RowsSplit(bodies, k);
    assert (before + rest)[|before|..] == rest;
    assert rest[..|bodies[k]|] == bodies[k];
  }

  lemma {:induction false} RowEnds(text: string, start: nat, end: nat)
    requires start < end <= |text| && (end == |text| || text[end] == '\n')
    requires forall i | start <= i < end :: !IsLineBreak(text[i])
    ensures ContentEnd(text, start, RawEnd(text, start)) == end
  {
    LineRuns(text, start, end);
    assert ContentEnd(text, start, end) == end;
  }

  /** A row that is blanks, a key, a colon and a value reads as just that. */
  lemma {:induction false} RowReads(text: string, start: nat, end: nat, indent: nat, key: string, value: string)
    requires start < end <= |text| && (end == |text| || text[end] == '\n')
    requires IsKeyLine(text[start..end], indent, key, value)
    ensures IsParsed(text, Line(start, end, indent, Some(key), value, false, false, false))
  {
    var body := text[start..end];
    forall i | start <= i < end ensures !IsLineBreak(text[i]) {
      assert text[i] == body[i - start];
    }
    RowEnds(text, start, end);
    BodyReads(body, indent, key, value);
  }

  /** The line that row `k` should read as. */
  predicate IsRowLine(bodies: seq<string>, k: nat, line: Line)
    requires k < |bodies|
  {
    && line.key.Some? && IsKeyLine(bodies[k], line.indent, line.key.value, line.value)
    && line == Line(|RowsBefore(bodies, k)|, |RowsBefore(bodies, k)| + |bodies[k]|, line.indent, line.key, line.value, false, false, false)
  }

  lemma {:induction false} RowLineReads(bodies: seq<string>, k: nat, line: Line)
    requires k < |bodies| && IsRowLine(bodies, k, line)
    ensures IsParsed(Rows(bodies, 0), line)
  {
    RowStands(bodies, k);
    RowReads(Rows(bodies, 0), line.start, line.end, line.indent, line.key.value, line.value);
  }

  /** Line `i` is not empty, and one line feed separates it from the next. */
  ghost predicate FollowsOn(text: string, lines: seq<Line>, i: nat)
    requires i < |lines|
  {
    var line := lines[i];
    && (i == 0 ==> line.start == 0) && line.start < line.end <= |text| && !IsReturn(text[line.end - 1])
    && if i + 1 == |lines| then line.end == |text|
       else line.end < |text| && text[line.end] == '\n' && lines[i + 1].start == line.end + 1
  }

  lemma {:induction false} LinesTile(text: string, lines: seq<Line>, k: nat)
    requires 0 < k <= |lines| && forall i | 0 <= i < |lines| :: FollowsOn(text, lines, i)
    ensures Tiles(text, lines[..k], 0, if k == |lines| then |text| else lines[k].start)
    decreases k
  {
    var line := lines[k - 1];
    assert FollowsOn(text, lines, k - 1);
    if k > 1 {
      LinesTile(text, lines, k - 1);
    } else {
      assert lines[..0] == [];
    }
    assert lines[..k] == lines[..k - 1] + [line];
    TileMore(text, lines[..k - 1], line, line.start, if k == |lines| then |text| else line.end + 1);
  }

  ghost predicate AreRowLines(bodies: seq<string>, lines: seq<Line>) {
    bodies != [] && |lines| == |bodies| && forall i | 0 <= i < |bodies| :: IsRowLine(bodies, i, lines[i])
  }

  lemma {:induction false} OuterBodies()
    ensures IsKeyLine(NESTED_BODIES[0], 0, "kind", " Secret") && IsKeyLine(NESTED_BODIES[1], 0, "data", "")
  {
    assert Blanks(0) == "";
    assert "kind: Secret" == "" + ("kind" + (":" + " Secret"));
    assert "data:" == "" + ("data" + (":" + ""));
  }

  lemma {:induction false} InnerBodies()
    ensures IsKeyLine(NESTED_BODIES[2], 2, "kind", " Secret") && IsKeyLine(NESTED_BODIES[3], 2, "data", "")
  {
    assert Blanks(1) == " " && Blanks(2) == "  ";
    assert "  kind: Secret" == "  " + ("kind" + (":" + " Secret"));
    assert "  data:" == "  " + ("data" + (":" + ""));
  }

  lemma {:induction false} InnermostBody()
    ensures IsKeyLine(NESTED_BODIES[4], 4, "a", " b")
  {
    assert Blanks(1) == " " && Blanks(2) == "  " && Blanks(3) == "   " && Blanks(4) == "    ";
    assert "    a: b" == "    " + ("a" + (":" + " b"));
  }

  lemma {:induction false} NestedStarts()
    ensures forall k | 0 <= k < 5 :: |RowsBefore(NESTED_BODIES, k)| == NESTED_LINES[k].start
  {
    var bodies := NESTED_BODIES;
    assert RowsBefore(bodies, 0) == [];
    assert |RowsBefore(bodies, 1)| == 13;
    assert |RowsBefore(bodies, 2)| == 19;
    assert |RowsBefore(bodies, 3)| == 34;
    assert |RowsBefore(bodies, 4)| == 42;
  }

  lemma {:induction false} NestedRows()
    ensures AreRowLines(NESTED_BODIES, NESTED_LINES)
  {
    OuterBodies();
    InnerBodies();
    InnermostBody();
    NestedStarts();
  }

  lemma {:induction false} NestedOpeners()
    ensures forall i | 0 <= i < 5 :: OpensSecretData(NESTED_LINES, i) <==> i == 1 || i == 3
  {
    var lines := NESTED_LINES;
    SecretWord();
    assert IsSibling(lines, 1, 0) && IsSecretKind(lines[0]);
    assert IsSibling(lines, 3, 2) && IsSecretKind(lines[2]);
  }

  lemma {:induction false} NestedBlocks()
    ensures AreBlocks(NESTED_LINES, 5, [Region(18, 50), Region(41, 50)]) && KeyedLinesAreFull(NESTED_LINES)
  {
    var lines, outer, both := NESTED_LINES, [Region(18, 50)], [Region(18, 50), Region(41, 50)];
    NestedOpeners();
    assert IsBlockOf(lines, 1, 4, Region(18, 50)) && IsBlockOf(lines, 3, 4, Region(41, 50));
    assert outer[..0] == [] && both[..1] == outer;
    assert AreBlocks(lines, 1, []);
    assert AreBlocks(lines, 2, outer);
    assert AreBlocks(lines, 3, outer);
    assert AreBlocks(lines, 4, both);
  }

  lemma {:induction false} RowFollowsOn(bodies: seq<string>, lines: seq<Line>, i: nat)
    requires |lines| == |bodies| && i < |bodies|
    requires lines[i].start == |RowsBefore(bodies, i)| && lines[i].end == lines[i].start + |bodies[i]|
    requires bodies[i] != [] && !IsReturn(bodies[i][|bodies[i]| - 1])
    requires i + 1 < |bodies| ==> lines[i + 1].start == |RowsBefore(bodies, i + 1)|
    ensures FollowsOn(Rows(bodies, 0), lines, i)
  {
    RowStands(bodies, i);
    var text, body, line := Rows(bodies, 0), bodies[i], lines[i];
    assert text[line.end - 1] == text[line.start..line.end][|body| - 1];
  }

  lemma {:induction false} RowLineFollowsOn(bodies: seq<string>, lines: seq<Line>, i: nat)
    requires AreRowLines(bodies, lines) && i < |lines|
    ensures FollowsOn(Rows(bodies, 0), lines, i)
  {
    assert IsRowLine(bodies, i, lines[i]);
    assert i + 1 < |lines| ==> IsRowLine(bodies, i + 1, lines[i + 1]);
    RowFollowsOn(bodies, lines, i);
  }

  /** Rows of keys and values are read line by line, and give the blocks of those lines. */
  lemma {:induction false} BlocksOfRows(bodies: seq<string>, lines: seq<Line>, blocks: seq<Region>)
    requires AreRowLines(bodies, lines)
    requires AreBlocks(lines, |lines|, blocks) && KeyedLinesAreFull(lines)
    ensures AreSecretBlocks(Rows(bodies, 0), blocks)
  {
    var text := Rows(bodies, 0);
    forall i | 0 <= i < |lines| ensures IsParsed(text, lines[i]) {
      RowLineReads(bodies, i, lines[i]);
    }
    forall i | 0 <= i < |lines| ensures FollowsOn(text, lines, i) {
      RowLineFollowsOn(bodies, lines, i);
    }
    LinesTile(text, lines, |lines|);
    assert lines[..|lines|] == lines;
  }

  /** A text whose blocks are not disjoint: a Secret written inside the data of another has its own
      block inside the outer one. */
  lemma {:induction false} BlocksMayNest()
    ensures AreSecretBlocks(NESTED_MANIFEST, [Region(18, 50), Region(41, 50)])
    ensures Inside(Region(41, 50), Region(18, 50)) && !Disjoint(Region(18, 50), Region(41, 50))
  {
    NestedRows();
    NestedBlocks();
    BlocksOfRows(NESTED_BODIES, NESTED_LINES, [Region(18, 50), Region(41, 50)]);
  }

  lemma {:induction false} SecretWord()
    ensures SaysSecret(" Secret") && IsEmptyValue("")
  {
    assert " Secret"[1..] == "Secret";
    assert LeftStrip("Secret") == "Secret";
    assert LeftStrip(" Secret") == "Secret";
    assert "Secret"[..6] == "Secret" && "Secret"[6..] == [];
  }
}
