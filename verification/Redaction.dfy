/** Finding the values to redact in one text, and rewriting the text once. */
module Redaction {
  import opened Spans
  import opened Wrappers

  const REDACTED := "[REDACTED]"

  /** Where a pattern's value group stands in one match; the group may take no part in it. */
  datatype Match = NoValue | Found(start: nat, end: nat)

  /** One entry of the table. `matches` is the search of a region; `wholeMatch` says that the match
      itself is the value; `within` restricts the regions searched. */
  datatype Pattern = Pattern(
    category: Category,
    matches: (string, nat, nat) -> seq<Match>,
    wholeMatch: bool,
    minimumLength: nat,
    within: Option<string -> seq<Region>>)

  datatype Table = Table(patterns: seq<Pattern>, isPlaceholder: string -> bool)

  /** Matches lie inside the text, and nothing at all is a placeholder. */
  ghost predicate Sound(table: Table, text: string) {
    && table.isPlaceholder([])
    && forall p, a: nat, b: nat, m | p in table.patterns && m in p.matches(text, a, b) ::
         m.Found? ==> m.start <= m.end <= |text|
  }

  // ---------------------------------------------------------------------------------------------
  // Finding
  // ---------------------------------------------------------------------------------------------

  predicate IsNameStart(c: char) {
    'a' <= c <= 'z' || 'A' <= c <= 'Z' || c == '_'
  }

  predicate IsNamePart(c: char) {
    IsNameStart(c) || '0' <= c <= '9' || c == '.'
  }

  predicate OpensCall(rest: string) {
    rest != [] && (rest[0] == '(' || rest[0] == '[' || (IsNamePart(rest[0]) && OpensCall(rest[1..])))
  }

  /** A name applying a call or a subscript, and ending on a bracket: code, not a literal. */
  predicate IsCodeExpression(value: string) {
    && value != [] && IsNameStart(value[0]) && OpensCall(value[1..])
    && (var last := value[|value| - 1]; last == '(' || last == ')' || last == '[' || last == ']')
  }

  predicate Accepts(table: Table, pattern: Pattern, text: string, m: Match) {
    && m.Found? && m.start <= m.end <= |text|
    && var value := text[m.start..m.end];
       && |value| >= pattern.minimumLength && !table.isPlaceholder(value)
       && (pattern.wholeMatch || !IsCodeExpression(value))
  }

  function Regions(pattern: Pattern, text: string): seq<Region> {
    match pattern.within
    case None => [Region(0, |text|)]
    case Some(within) => within(text)
  }

  function SpansOfMatches(table: Table, precedence: nat, text: string, found: seq<Match>): seq<Span>
    requires precedence < |table.patterns|
  {
    if found == [] then []
    else
      var before := SpansOfMatches(table, precedence, text, found[..|found| - 1]);
      var m := found[|found| - 1];
      var pattern := table.patterns[precedence];
      if Accepts(table, pattern, text, m) then before + [Span(m.start, m.end, pattern.category, precedence)] else before
  }

  function SpansOfRegions(table: Table, precedence: nat, text: string, regions: seq<Region>): seq<Span>
    requires precedence < |table.patterns|
  {
    if regions == [] then []
    else
      var region := regions[|regions| - 1];
      SpansOfRegions(table, precedence, text, regions[..|regions| - 1])
      + SpansOfMatches(table, precedence, text, table.patterns[precedence].matches(text, region.start, region.end))
  }

  /** The spans of the first `n` patterns. */
  function SpansOfPatterns(table: Table, text: string, n: nat): seq<Span>
    requires n <= |table.patterns|
  {
    if n == 0 then []
    else
      SpansOfPatterns(table, text, n - 1)
      + SpansOfRegions(table, n - 1, text, Regions(table.patterns[n - 1], text))
  }

  function AllSpans(table: Table, text: string): seq<Span> {
    SpansOfPatterns(table, text, |table.patterns|)
  }

  /** A span is found exactly when some pattern accepts a match of it in one of its regions. */
  ghost predicate Recognized(table: Table, text: string, x: Span) {
    && x.precedence < |table.patterns|
    && var pattern := table.patterns[x.precedence];
       && x.category == pattern.category
       && Accepts(table, pattern, text, Found(x.start, x.end))
       && exists region | region in Regions(pattern, text) ::
            Found(x.start, x.end) in pattern.matches(text, region.start, region.end)
  }

  lemma {:induction false} MatchesRecognized(table: Table, precedence: nat, text: string, found: seq<Match>, x: Span)
    requires precedence < |table.patterns|
    ensures x in SpansOfMatches(table, precedence, text, found)
       <==> && x.precedence == precedence && x.category == table.patterns[precedence].category
            && Accepts(table, table.patterns[precedence], text, Found(x.start, x.end))
            && Found(x.start, x.end) in found
  {
    if found != [] {
      MatchesRecognized(table, precedence, text, found[..|found| - 1], x);
      assert found == found[..|found| - 1] + [found[|found| - 1]];
    }
  }

  lemma {:induction false} RegionsRecognized(table: Table, precedence: nat, text: string, regions: seq<Region>, x: Span)
    requires precedence < |table.patterns|
    ensures x in SpansOfRegions(table, precedence, text, regions)
       <==> && x.precedence == precedence && x.category == table.patterns[precedence].category
            && Accepts(table, table.patterns[precedence], text, Found(x.start, x.end))
            && exists region | region in regions ::
                 Found(x.start, x.end) in table.patterns[precedence].matches(text, region.start, region.end)
  {
    if regions != [] {
      var last := regions[|regions| - 1];
      RegionsRecognized(table, precedence, text, regions[..|regions| - 1], x);
      MatchesRecognized(table, precedence, text, table.patterns[precedence].matches(text, last.start, last.end), x);
      assert regions == regions[..|regions| - 1] + [last];
    }
  }

  lemma {:induction false} PatternsRecognized(table: Table, text: string, n: nat, x: Span)
    requires n <= |table.patterns|
    ensures x in SpansOfPatterns(table, text, n) <==> x.precedence < n && Recognized(table, text, x)
  {
    if n > 0 {
      PatternsRecognized(table, text, n - 1, x);
      RegionsRecognized(table, n - 1, text, Regions(table.patterns[n - 1], text), x);
    }
  }

  /** What is found lies in the text, is not empty, and carries its pattern's category. */
  lemma {:induction false} FoundSpans(table: Table, text: string)
    requires table.isPlaceholder([])
    ensures forall x :: x in AllSpans(table, text) <==> Recognized(table, text, x)
    ensures AllNonEmpty(AllSpans(table, text)) && OneCategory(AllSpans(table, text))
    ensures forall x | x in AllSpans(table, text) :: x.end <= |text|
  {
    forall x
      ensures x in AllSpans(table, text) <==> Recognized(table, text, x)
    {
      PatternsRecognized(table, text, |table.patterns|, x);
    }
    var spans := AllSpans(table, text);
    forall i | 0 <= i < |spans|
      ensures spans[i].NonEmpty() && Recognized(table, text, spans[i])
    {
      assert spans[i] in spans;
    }
  }

  /** The values accepted among the matches of one region. */
  method SearchRegion(table: Table, precedence: nat, text: string, found: seq<Match>) returns (spans: seq<Span>)
    requires precedence < |table.patterns|
    requires forall i | 0 <= i < |found| && found[i].Found? :: found[i].start <= found[i].end <= |text|
    ensures spans == SpansOfMatches(table, precedence, text, found)
  {
    var pattern := table.patterns[precedence];
    spans := [];
    for m := 0 to |found|
      invariant spans == SpansOfMatches(table, precedence, text, found[..m])
    {
      assert found[..m + 1][..m] == found[..m];
      match found[m] {
        case NoValue =>
          continue;
        case Found(start, end) =>
          var value := text[start..end];
          if |value| < pattern.minimumLength || table.isPlaceholder(value) {
            continue;
          }
          if !pattern.wholeMatch && IsCodeExpression(value) {
            continue;
          }
          spans := spans + [Span(start, end, pattern.category, precedence)];
      }
    }
    assert found[..|found|] == found;
  }

  /** The values accepted in the regions of one pattern. */
  method SearchRegions(table: Table, precedence: nat, text: string, regions: seq<Region>) returns (spans: seq<Span>)
    requires Sound(table, text) && precedence < |table.patterns|
    ensures spans == SpansOfRegions(table, precedence, text, regions)
  {
    var pattern := table.patterns[precedence];
    spans := [];
    for r := 0 to |regions|
      invariant spans == SpansOfRegions(table, precedence, text, regions[..r])
    {
      assert regions[..r + 1][..r] == regions[..r];
      var found := pattern.matches(text, regions[r].start, regions[r].end);
      assert pattern in table.patterns;
      assert forall i | 0 <= i < |found| :: found[i] in found;
      var accepted := SearchRegion(table, precedence, text, found);
      spans := spans + accepted;
    }
    assert regions[..|regions|] == regions;
  }

  /** Every value any pattern recognizes, unresolved. */
  method FindSpans(table: Table, text: string) returns (spans: seq<Span>)
    requires Sound(table, text)
    ensures spans == AllSpans(table, text)
  {
    spans := [];
    for precedence := 0 to |table.patterns|
      invariant spans == SpansOfPatterns(table, text, precedence)
    {
      var accepted := SearchRegions(table, precedence, text, Regions(table.patterns[precedence], text));
      spans := spans + accepted;
    }
  }

  // ---------------------------------------------------------------------------------------------
  // Rewriting
  // ---------------------------------------------------------------------------------------------

  /** Spans that can be replaced in the part of a text that starts at `cursor`. */
  ghost predicate Fits(text: string, cursor: nat, spans: seq<Span>) {
    && Chain(spans) && cursor <= |text|
    && (spans != [] ==> cursor <= spans[0].start && spans[|spans| - 1].end <= |text|)
  }

  lemma {:induction false} FitsTail(text: string, cursor: nat, spans: seq<Span>)
    requires Fits(text, cursor, spans) && spans != []
    ensures spans[0].start <= spans[0].end <= |text| && Fits(text, spans[0].end, spans[1..])
  {
    assert spans[0].end <= |text| by {
      assert |spans| > 1 ==> spans[0].end <= spans[|spans| - 1].start && spans[|spans| - 1].NonEmpty();
    }
  }

  /** The text from `cursor` on, with each span replaced. */
  function Splice(text: string, cursor: nat, spans: seq<Span>): string
    requires Fits(text, cursor, spans)
    decreases |spans|
  {
    if spans == [] then text[cursor..]
    else
      FitsTail(text, cursor, spans);
      text[cursor..spans[0].start] + REDACTED + Splice(text, spans[0].end, spans[1..])
  }

  /** Where, in the rewritten text, what follows the first `k` spans begins. */
  function Place(cursor: nat, spans: seq<Span>, k: nat): int
    requires k <= |spans|
  {
    if k == 0 then 0
    else Place(cursor, spans, k - 1) + (spans[k - 1].start - From(cursor, spans, k - 1)) + |REDACTED|
  }

  /** The stretch of text kept between span `k - 1` and span `k`. */
  function From(cursor: nat, spans: seq<Span>, k: nat): nat
    requires k <= |spans|
  {
    if k == 0 then cursor else spans[k - 1].end
  }

  function To(text: string, spans: seq<Span>, k: nat): nat
    requires k <= |spans|
  {
    if k == |spans| then |text| else spans[k].start
  }

  lemma {:induction false} PlaceTail(cursor: nat, spans: seq<Span>, k: nat)
    requires 0 < k <= |spans|
    ensures Place(cursor, spans, k)
         == Place(spans[0].end, spans[1..], k - 1) + (spans[0].start - cursor) + |REDACTED|
  {
    if k > 1 {
      PlaceTail(cursor, spans, k - 1);
      assert spans[1..][k - 2] == spans[k - 1];
    } else {
      assert Place(cursor, spans, 0) == 0;
    }
  }

  /** The stretch kept before span `k` stands at its place, unchanged; after it stands either the
      replacement or the end of the text. */
  ghost predicate Stands(text: string, cursor: nat, spans: seq<Span>, out: string, k: nat)
    requires k <= |spans|
  {
    var at, from, to := Place(cursor, spans, k), From(cursor, spans, k), To(text, spans, k);
    && from <= to <= |text| && 0 <= at && at + (to - from) <= |out|
    && out[at..at + (to - from)] == text[from..to]
    && (if k == |spans| then at + (to - from) == |out|
        else Place(cursor, spans, k + 1) <= |out| && out[at + (to - from)..Place(cursor, spans, k + 1)] == REDACTED)
  }

  /** Every character outside the spans survives, in order and at its place, and each span has
      become exactly one replacement. */
  lemma {:induction false} SpliceKeepsTheRest(text: string, cursor: nat, spans: seq<Span>, k: nat)
    requires Fits(text, cursor, spans) && k <= |spans|
    ensures Stands(text, cursor, spans, Splice(text, cursor, spans), k)
    decreases |spans|
  {
    if spans == [] {
    } else {
      FitsTail(text, cursor, spans);
      var rest := Splice(text, spans[0].end, spans[1..]);
      if k == 0 {
        FirstStands(text, cursor, spans, rest);
      } else {
        SpliceKeepsTheRest(text, spans[0].end, spans[1..], k - 1);
        LaterStands(text, cursor, spans, rest, k);
      }
    }
  }

  lemma {:induction false} FirstStands(text: string, cursor: nat, spans: seq<Span>, rest: string)
    requires spans != [] && cursor <= spans[0].start <= |text|
    ensures Stands(text, cursor, spans, text[cursor..spans[0].start] + REDACTED + rest, 0)
  {
    assert Place(cursor, spans, 0) == 0;
    assert Place(cursor, spans, 1) == spans[0].start - cursor + |REDACTED|;
  }

  lemma {:induction false} LaterStands(text: string, cursor: nat, spans: seq<Span>, rest: string, k: nat)
    requires 0 < k <= |spans| && cursor <= spans[0].start <= |text|
    requires Stands(text, spans[0].end, spans[1..], rest, k - 1)
    ensures Stands(text, cursor, spans, text[cursor..spans[0].start] + REDACTED + rest, k)
  {
    var head := text[cursor..spans[0].start] + REDACTED;
    PlaceTail(cursor, spans, k);
    var at, length := Place(spans[0].end, spans[1..], k - 1), To(text, spans, k) - From(cursor, spans, k);
    SliceAfter(head, rest, at, at + length);
    if k < |spans| {
      PlaceTail(cursor, spans, k + 1);
      SliceAfter(head, rest, at + length, Place(spans[0].end, spans[1..], k));
    }
  }

  lemma {:induction false} SliceAfter(head: string, rest: string, a: nat, b: nat)
    requires a <= b <= |rest|
    ensures (head + rest)[|head| + a..|head| + b] == rest[a..b]
  {
  }

  // ---------------------------------------------------------------------------------------------
  // Counting
  // ---------------------------------------------------------------------------------------------

  function Categories(spans: seq<Span>): (m: multiset<Category>)
    ensures |m| == |spans|
  {
    if spans == [] then multiset{} else Categories(spans[..|spans| - 1]) + multiset{spans[|spans| - 1].category}
  }

  /** A dictionary of counts without zeros, read as a multiset. */
  ghost predicate Counts(counts: map<Category, nat>, m: multiset<Category>) {
    forall c :: (c in counts <==> c in m) && (c in counts ==> counts[c] == m[c])
  }

  /** The redacted text, as a function. */
  function Redacted(table: Table, text: string): string
    requires table.isPlaceholder([])
  {
    KeptFits(table, text);
    Splice(text, 0, Kept(AllSpans(table, text)))
  }

  /** What was removed, category by category. */
  function Removed(table: Table, text: string): multiset<Category> {
    Categories(Kept(AllSpans(table, text)))
  }

  lemma {:induction false} KeptFits(table: Table, text: string)
    requires table.isPlaceholder([])
    ensures Fits(text, 0, Kept(AllSpans(table, text)))
  {
    FoundSpans(table, text);
    var spans := AllSpans(table, text);
    var kept := Kept(spans);
    KeptIsChain(spans);
    SameMembers(kept, Greedy([], Sort(Before, spans)));
    SortSorts(Before, spans);
    GreedyKeeps(Sort(Before, spans));
    if kept != [] {
      var last := kept[|kept| - 1];
      assert last in kept && last in multiset(Greedy([], Sort(Before, spans)));
      assert last in multiset(Sort(Before, spans));
      assert last in multiset(spans);
      assert last in spans;
    }
  }

  /** Replace every recognized value once, and count what was replaced. */
  method Redact(table: Table, text: string) returns (redacted: string, counts: map<Category, nat>)
    requires Sound(table, text)
    ensures redacted == Redacted(table, text)
    ensures Counts(counts, Removed(table, text))
  {
    var spans := FindSpans(table, text);
    FoundSpans(table, text);
    ghost var order;
    var kept;
    kept, order := Resolve(spans);
    ResolvedIsKept(spans, order, kept);
    KeptFits(table, text);
    if kept == [] {
      assert text[0..] == text;
      return text, map[];
    }
    redacted, counts := Rewrite(text, kept);
  }

  /** One join of the pieces between the spans, and one count per span. */
  method Rewrite(text: string, kept: seq<Span>) returns (redacted: string, counts: map<Category, nat>)
    requires Fits(text, 0, kept)
    ensures redacted == Splice(text, 0, kept) && Counts(counts, Categories(kept))
  {
    redacted, counts := [], map[];
    var cursor: nat := 0;
    assert kept[0..] == kept;
    for n := 0 to |kept|
      invariant Fits(text, cursor, kept[n..])
      invariant redacted + Splice(text, cursor, kept[n..]) == Splice(text, 0, kept)
      invariant Counts(counts, Categories(kept[..n]))
    {
      var span := kept[n];
      SpliceStep(text, cursor, kept, n, redacted);
      redacted := redacted + (text[cursor..span.start] + REDACTED);
      CountOne(kept, n);
      var so := if span.category in counts then counts[span.category] else 0;
      CountsGrow(counts, Categories(kept[..n]), span.category, so);
      counts := counts[span.category := so + 1];
      cursor := span.end;
    }
    assert kept[..|kept|] == kept;
    redacted := redacted + text[cursor..];
  }

  lemma {:induction false} SpliceStep(text: string, cursor: nat, kept: seq<Span>, n: nat, before: string)
    requires n < |kept| && Fits(text, cursor, kept[n..])
    ensures kept[n].start <= kept[n].end <= |text| && Fits(text, kept[n].end, kept[n + 1..])
    ensures before + Splice(text, cursor, kept[n..])
         == before + (text[cursor..kept[n].start] + REDACTED) + Splice(text, kept[n].end, kept[n + 1..])
  {
    FitsTail(text, cursor, kept[n..]);
    assert kept[n..][1..] == kept[n + 1..];
  }

  lemma {:induction false} CountsGrow(counts: map<Category, nat>, m: multiset<Category>, c: Category, so: nat)
    requires Counts(counts, m) && so == (if c in counts then counts[c] else 0)
    ensures Counts(counts[c := so + 1], m + multiset{c})
  {
  }

  lemma {:induction false} CountOne(kept: seq<Span>, n: nat)
    requires n < |kept|
    ensures Categories(kept[..n + 1]) == Categories(kept[..n]) + multiset{kept[n].category}
  {
    assert kept[..n + 1][..n] == kept[..n];
  }

  /** The counts of the report add up to the number of replacements made; and when nothing is
      recognized the text is left as it was. */
  lemma {:induction false} OneCountPerReplacement(table: Table, text: string)
    requires table.isPlaceholder([])
    ensures |Removed(table, text)| == |Kept(AllSpans(table, text))|
    ensures AllSpans(table, text) == [] ==> Redacted(table, text) == text
  {
    KeptFits(table, text);
    if AllSpans(table, text) == [] {
      KeptIsChain([]);
      assert |multiset(Kept([]))| == 0;
      assert text[0..] == text;
    }
  }
}
