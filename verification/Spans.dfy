/** Choosing which recognized spans of a text to replace.

    The obvious choice asks, span by span in order of precedence, whether anything kept so far
    overlaps it: `Greedy`, which is quadratic. `Resolve` merges pattern by pattern in one walk of
    each list, and is proved to keep exactly the same spans. */
module Spans {

  datatype Category =
    | ApiKey | BearerToken | Jwt | GithubToken | GitlabToken | AnthropicKey | OpenAiKey
    | AwsAccessKey | PrivateKey | Password | ConnectionString | DotenvValue | KubernetesSecret

  /** A part of a text, half-open. */
  datatype Region = Region(start: nat, end: nat)

  /** A region that will be replaced. `precedence` is the pattern's place in the table. */
  datatype Span = Span(start: nat, end: nat, category: Category, precedence: nat) {

    predicate NonEmpty() {
      start < end
    }

    predicate Overlaps(other: Span) {
      start < other.end && other.start < end
    }
  }

  // ---------------------------------------------------------------------------------------------
  // The quadratic choice
  // ---------------------------------------------------------------------------------------------

  predicate OverlapsAny(x: Span, kept: seq<Span>) {
    exists k | k in kept :: x.Overlaps(k)
  }

  /** Keep each span that overlaps none kept before it. */
  function Greedy(kept: seq<Span>, order: seq<Span>): seq<Span> {
    if order == [] then kept
    else
      var before := Greedy(kept, order[..|order| - 1]);
      var x := order[|order| - 1];
      if OverlapsAny(x, before) then before else before + [x]
  }

  predicate AllNonEmpty(spans: seq<Span>) {
    forall i | 0 <= i < |spans| :: spans[i].NonEmpty()
  }

  /** By start, and at one start the longest first. */
  predicate NotAfter(a: Span, b: Span) {
    a.start < b.start || (a.start == b.start && a.end >= b.end)
  }

  /** By precedence, then `NotAfter`. */
  predicate Before(a: Span, b: Span) {
    a.precedence < b.precedence || (a.precedence == b.precedence && NotAfter(a, b))
  }

  ghost predicate SortedBy(before: (Span, Span) -> bool, spans: seq<Span>) {
    forall i, j | 0 <= i < j < |spans| :: before(spans[i], spans[j])
  }

  ghost predicate Ordered(order: seq<Span>) {
    SortedBy(Before, order)
  }

  ghost predicate IncomingSorted(incoming: seq<Span>) {
    SortedBy(NotAfter, incoming)
  }

  /** Sorted, disjoint and without empty spans. */
  ghost predicate Chain(spans: seq<Span>) {
    && AllNonEmpty(spans)
    && forall i, j | 0 <= i < j < |spans| :: spans[i].end <= spans[j].start
  }

  ghost predicate PairwiseDisjoint(spans: seq<Span>) {
    forall i, j | 0 <= i < j < |spans| :: !spans[i].Overlaps(spans[j])
  }

  lemma {:induction false} SameMembers(a: seq<Span>, b: seq<Span>)
    requires multiset(a) == multiset(b)
    ensures forall x :: x in a <==> x in b
  {
    forall x
      ensures x in a <==> x in b
    {
      assert x in a <==> x in multiset(a);
    }
  }

  /** Only what is kept matters, not the order it is listed in. */
  lemma {:induction false} GreedyPermutes(a: seq<Span>, b: seq<Span>, order: seq<Span>)
    requires multiset(a) == multiset(b)
    ensures multiset(Greedy(a, order)) == multiset(Greedy(b, order))
  {
    if order != [] {
      GreedyPermutes(a, b, order[..|order| - 1]);
      SameMembers(Greedy(a, order[..|order| - 1]), Greedy(b, order[..|order| - 1]));
    }
  }

  lemma {:induction false} GreedyAppends(kept: seq<Span>, a: seq<Span>, b: seq<Span>)
    ensures Greedy(kept, a + b) == Greedy(Greedy(kept, a), b)
  {
    if b == [] {
      assert a + b == a;
    } else {
      GreedyAppends(kept, a, b[..|b| - 1]);
      assert (a + b)[..|a + b| - 1] == a + b[..|b| - 1];
    }
  }

  // ---------------------------------------------------------------------------------------------
  // The merge
  // ---------------------------------------------------------------------------------------------

  /** Part-way through a merge: `merged` and the kept spans still ahead are what the quadratic
      choice has kept after the spans of `order`. */
  ghost predicate Merging(kept: seq<Span>, order: seq<Span>, merged: seq<Span>, ahead: seq<Span>) {
    Chain(merged + ahead) && multiset(merged + ahead) == multiset(Greedy(kept, order))
  }

  predicate AllStartBy(spans: seq<Span>, start: nat) {
    forall i | 0 <= i < |spans| :: spans[i].start <= start
  }

  /** Whether the next kept span, or the one just emitted, overlaps `x`. */
  predicate Blocked(merged: seq<Span>, ahead: seq<Span>, x: Span) {
    || (ahead != [] && ahead[0].start < x.end)
    || (merged != [] && merged[|merged| - 1].end > x.start)
  }

  /** Those two settle every overlap. */
  lemma {:induction false} BlockedIsOverlap(merged: seq<Span>, ahead: seq<Span>, x: Span)
    requires Chain(merged + ahead) && x.NonEmpty() && AllStartBy(merged, x.start)
    requires ahead != [] ==> ahead[0].end > x.start
    ensures Blocked(merged, ahead, x) <==> OverlapsAny(x, merged + ahead)
  {
    var all := merged + ahead;
    assert forall i | 0 <= i < |merged| :: all[i] == merged[i];
    assert forall i | 0 <= i < |ahead| :: all[|merged| + i] == ahead[i];
    if ahead != [] && ahead[0].start < x.end {
      assert x.Overlaps(all[|merged|]);
    } else if merged != [] && merged[|merged| - 1].end > x.start {
      assert x.Overlaps(all[|merged| - 1]);
    } else {
      forall i | 0 <= i < |all|
        ensures !x.Overlaps(all[i])
      {
        assert i < |merged| - 1 ==> all[i].end <= all[|merged| - 1].start;
        assert |merged| < i ==> all[|merged|].end <= all[i].start;
      }
    }
  }

  lemma {:induction false} InsertKeepsChain(merged: seq<Span>, ahead: seq<Span>, x: Span)
    requires Chain(merged + ahead) && x.NonEmpty() && !Blocked(merged, ahead, x)
    ensures Chain(merged + [x] + ahead)
  {
    var all := merged + ahead;
    var longer := merged + [x] + ahead;
    assert forall i | 0 <= i < |merged| :: longer[i] == all[i];
    assert longer[|merged|] == x;
    assert forall i | |merged| < i < |longer| :: longer[i] == all[i - 1];
    forall i, j | 0 <= i < j < |longer|
      ensures longer[i].end <= longer[j].start
    {
      if j == |merged| {
        assert all[|merged| - 1] == merged[|merged| - 1];
        assert i < |merged| - 1 ==> all[i].end <= all[|merged| - 1].start;
      } else if i == |merged| {
        assert all[|merged|] == ahead[0];
        assert |merged| < j - 1 ==> all[|merged|].end <= all[j - 1].start;
      }
    }
  }

  lemma {:induction false} MergeStep(kept: seq<Span>, order: seq<Span>, merged: seq<Span>, ahead: seq<Span>, x: Span)
    requires Merging(kept, order, merged, ahead) && x.NonEmpty() && AllStartBy(merged, x.start)
    requires ahead != [] ==> ahead[0].end > x.start
    ensures Merging(kept, order + [x], if Blocked(merged, ahead, x) then merged else merged + [x], ahead)
  {
    var before := Greedy(kept, order);
    BlockedIsOverlap(merged, ahead, x);
    SameOverlaps(merged + ahead, before, x);
    GreedyLast(kept, order, x);
    if !Blocked(merged, ahead, x) {
      InsertKeepsChain(merged, ahead, x);
      InsertCounts(merged, ahead, x);
    }
  }

  lemma {:induction false} SameOverlaps(a: seq<Span>, b: seq<Span>, x: Span)
    requires multiset(a) == multiset(b)
    ensures OverlapsAny(x, a) <==> OverlapsAny(x, b)
  {
    SameMembers(a, b);
  }

  lemma {:induction false} GreedyLast(kept: seq<Span>, order: seq<Span>, x: Span)
    ensures var before := Greedy(kept, order);
            Greedy(kept, order + [x]) == if OverlapsAny(x, before) then before else before + [x]
  {
    assert (order + [x])[..|order|] == order;
  }

  lemma {:induction false} InsertCounts(merged: seq<Span>, ahead: seq<Span>, x: Span)
    ensures multiset(merged + [x] + ahead) == multiset(merged + ahead) + multiset{x}
  {
  }

  lemma {:induction false} MergeTurn(kept: seq<Span>, incoming: seq<Span>, n: nat, merged: seq<Span>, ahead: seq<Span>)
    requires n < |incoming| && IncomingSorted(incoming) && AllNonEmpty(incoming)
    requires Merging(kept, incoming[..n], merged, ahead) && AllStartBy(merged, incoming[n].start)
    requires ahead != [] ==> ahead[0].end > incoming[n].start
    ensures var next := if Blocked(merged, ahead, incoming[n]) then merged else merged + [incoming[n]];
            && Merging(kept, incoming[..n + 1], next, ahead)
            && (n + 1 < |incoming| ==> AllStartBy(next, incoming[n + 1].start))
  {
    MergeStep(kept, incoming[..n], merged, ahead, incoming[n]);
    assert incoming[..n + 1] == incoming[..n] + [incoming[n]];
    assert n + 1 < |incoming| ==> NotAfter(incoming[n], incoming[n + 1]);
  }

  lemma {:induction false} MergeStart(kept: seq<Span>)
    requires Chain(kept)
    ensures Merging(kept, [], [], kept)
  {
    assert [] + kept == kept;
  }

  lemma {:induction false} MergeAdvance(kept: seq<Span>, order: seq<Span>, merged: seq<Span>, ahead: seq<Span>)
    requires Merging(kept, order, merged, ahead) && ahead != []
    ensures Merging(kept, order, merged + [ahead[0]], ahead[1..])
    ensures ahead[0].NonEmpty()
  {
    assert (merged + ahead)[|merged|] == ahead[0];
    assert merged + ahead == (merged + [ahead[0]]) + ahead[1..];
  }

  /** Emit the kept spans that end before `span` starts. */
  method PassKept(kept: seq<Span>, start: nat, emitted: seq<Span>, span: Span, ghost order: seq<Span>)
    returns (index: nat, merged: seq<Span>)
    requires start <= |kept| && Merging(kept, order, emitted, kept[start..]) && AllStartBy(emitted, span.start)
    ensures start <= index <= |kept| && Merging(kept, order, merged, kept[index..])
    ensures AllStartBy(merged, span.start)
    ensures index < |kept| ==> kept[index].end > span.start
  {
    index, merged := start, emitted;
    while index < |kept| && kept[index].end <= span.start
      invariant start <= index <= |kept| && Merging(kept, order, merged, kept[index..])
      invariant AllStartBy(merged, span.start)
    {
      MergeAdvance(kept, order, merged, kept[index..]);
      assert kept[index..][1..] == kept[index + 1..];
      merged := merged + [kept[index]];
      index := index + 1;
    }
  }

  /** One pattern's spans merged into those already kept, in one walk of each list. */
  method Merge(kept: seq<Span>, incoming: seq<Span>) returns (merged: seq<Span>, ghost advances: nat)
    requires Chain(kept) && IncomingSorted(incoming) && AllNonEmpty(incoming)
    ensures Chain(merged)
    ensures multiset(merged) == multiset(Greedy(kept, incoming))
    ensures advances <= |kept| + |incoming|
  {
    merged := [];
    var index := 0;
    advances := 0;
    MergeStart(kept);
    assert incoming[..0] == [] && kept[0..] == kept;
    for n := 0 to |incoming|
      invariant index <= |kept| && Merging(kept, incoming[..n], merged, kept[index..])
      invariant n < |incoming| ==> AllStartBy(merged, incoming[n].start)
      invariant advances == index + n
    {
      var span := incoming[n];
      ghost var passed := index;
      index, merged := PassKept(kept, index, merged, span, incoming[..n]);
      advances := advances + (index - passed) + 1;
      MergeTurn(kept, incoming, n, merged, kept[index..]);
      if !Blocked(merged, kept[index..], span) {
        merged := merged + [span];
      }
    }
    assert incoming[..|incoming|] == incoming;
    merged := merged + kept[index..];
  }

  // ---------------------------------------------------------------------------------------------
  // Pattern by pattern
  // ---------------------------------------------------------------------------------------------

  ghost predicate TotalPreorder(before: (Span, Span) -> bool) {
    && (forall a, b :: before(a, b) || before(b, a))
    && (forall a, b, c :: before(a, b) && before(b, c) ==> before(a, c))
  }

  function Insert(before: (Span, Span) -> bool, x: Span, sorted: seq<Span>): seq<Span> {
    if sorted == [] || before(x, sorted[0]) then [x] + sorted
    else [sorted[0]] + Insert(before, x, sorted[1..])
  }

  /** The spans sorted by `before`. */
  function Sort(before: (Span, Span) -> bool, spans: seq<Span>): seq<Span> {
    if spans == [] then [] else Insert(before, spans[0], Sort(before, spans[1..]))
  }

  lemma {:induction false} InsertSorts(before: (Span, Span) -> bool, x: Span, sorted: seq<Span>)
    requires TotalPreorder(before) && SortedBy(before, sorted)
    ensures SortedBy(before, Insert(before, x, sorted))
    ensures multiset(Insert(before, x, sorted)) == multiset(sorted) + multiset{x}
  {
    if sorted != [] && !before(x, sorted[0]) {
      InsertSorts(before, x, sorted[1..]);
      assert sorted == [sorted[0]] + sorted[1..];
      FirstStays(before, sorted[0], x, sorted[1..], Insert(before, x, sorted[1..]));
    }
  }

  lemma {:induction false} FirstStays(before: (Span, Span) -> bool, first: Span, x: Span, rest: seq<Span>, r: seq<Span>)
    requires multiset(r) == multiset(rest) + multiset{x} && SortedBy(before, r)
    requires SortedBy(before, [first] + rest) && before(first, x)
    ensures SortedBy(before, [first] + r)
  {
    forall i | 0 <= i < |r|
      ensures before(first, r[i])
    {
      assert r[i] in multiset(r);
      var all := [first] + rest;
      if r[i] != x {
        assert r[i] in multiset(rest);
        var j :| 0 <= j < |rest| && rest[j] == r[i];
        assert all[0] == first && all[j + 1] == r[i];
      }
    }
  }

  lemma {:induction false} SortSorts(before: (Span, Span) -> bool, spans: seq<Span>)
    requires TotalPreorder(before)
    ensures SortedBy(before, Sort(before, spans)) && multiset(Sort(before, spans)) == multiset(spans)
  {
    if spans != [] {
      SortSorts(before, spans[1..]);
      InsertSorts(before, spans[0], Sort(before, spans[1..]));
      assert spans == [spans[0]] + spans[1..];
    }
  }

  /** The spans of one pattern, in the order they are listed. */
  function OfPattern(spans: seq<Span>, precedence: nat): (r: seq<Span>) {
    if spans == [] then []
    else
      var rest := OfPattern(spans[..|spans| - 1], precedence);
      var x := spans[|spans| - 1];
      if x.precedence == precedence then rest + [x] else rest
  }

  lemma {:induction false} OfPatternCounts(spans: seq<Span>, precedence: nat, x: Span)
    ensures multiset(OfPattern(spans, precedence))[x] == if x.precedence == precedence then multiset(spans)[x] else 0
  {
    if spans != [] {
      OfPatternCounts(spans[..|spans| - 1], precedence, x);
      assert spans == spans[..|spans| - 1] + [spans[|spans| - 1]];
    }
  }

  method Group(spans: seq<Span>) returns (byPattern: map<nat, seq<Span>>)
    ensures forall p :: p in byPattern <==> OfPattern(spans, p) != []
    ensures forall p | p in byPattern :: byPattern[p] == OfPattern(spans, p)
  {
    byPattern := map[];
    for n := 0 to |spans|
      invariant forall p :: p in byPattern <==> OfPattern(spans[..n], p) != []
      invariant forall p | p in byPattern :: byPattern[p] == OfPattern(spans[..n], p)
    {
      var span := spans[n];
      assert spans[..n + 1][..n] == spans[..n];
      var listed := if span.precedence in byPattern then byPattern[span.precedence] else [];
      byPattern := byPattern[span.precedence := listed + [span]];
    }
    assert spans[..|spans|] == spans;
  }

  method Least(keys: set<nat>) returns (least: nat)
    requires keys != {}
    ensures least in keys && forall k | k in keys :: least <= k
  {
    var todo := keys;
    least :| least in todo;
    while todo != {}
      invariant least in keys && todo <= keys
      invariant forall k | k in keys :: k in todo || least <= k
      decreases todo
    {
      var k :| k in todo;
      if k < least {
        least := k;
      }
      todo := todo - {k};
    }
  }

  /** The spans of the patterns not yet merged are exactly those not in `order`. */
  ghost predicate Taken(spans: seq<Span>, order: seq<Span>, todo: set<nat>) {
    && Ordered(order)
    && (forall i, p | 0 <= i < |order| && p in todo :: order[i].precedence < p)
    && (forall x :: multiset(order)[x] == if x.precedence in todo then 0 else multiset(spans)[x])
  }

  lemma {:induction false} TakePattern(spans: seq<Span>, order: seq<Span>, todo: set<nat>, precedence: nat, incoming: seq<Span>)
    requires Taken(spans, order, todo) && precedence in todo && forall k | k in todo :: precedence <= k
    requires IncomingSorted(incoming) && multiset(incoming) == multiset(OfPattern(spans, precedence))
    ensures Taken(spans, order + incoming, todo - {precedence})
  {
    TakeCounts(spans, order, todo, precedence, incoming);
    IncomingPrecedence(spans, precedence, incoming);
    ExtendOrder(order, incoming, precedence);
    TakeBelow(order, incoming, todo, precedence);
  }

  lemma {:induction false} TakeBelow(order: seq<Span>, incoming: seq<Span>, todo: set<nat>, precedence: nat)
    requires forall i, p | 0 <= i < |order| && p in todo :: order[i].precedence < p
    requires forall i | 0 <= i < |incoming| :: incoming[i].precedence == precedence
    requires forall k | k in todo :: precedence <= k
    ensures var all := order + incoming;
            forall i, p | 0 <= i < |all| && p in todo - {precedence} :: all[i].precedence < p
  {
  }

  lemma {:induction false} TakeCounts(spans: seq<Span>, order: seq<Span>, todo: set<nat>, precedence: nat, incoming: seq<Span>)
    requires forall x: Span :: multiset(order)[x] == if x.precedence in todo then 0 else multiset(spans)[x]
    requires precedence in todo && multiset(incoming) == multiset(OfPattern(spans, precedence))
    ensures forall x: Span :: multiset(order + incoming)[x] ==
              if x.precedence in todo - {precedence} then 0 else multiset(spans)[x]
  {
    forall x: Span
      ensures multiset(order + incoming)[x] == if x.precedence in todo - {precedence} then 0 else multiset(spans)[x]
    {
      OfPatternCounts(spans, precedence, x);
    }
  }

  lemma {:induction false} IncomingPrecedence(spans: seq<Span>, precedence: nat, incoming: seq<Span>)
    requires multiset(incoming) == multiset(OfPattern(spans, precedence))
    ensures forall i | 0 <= i < |incoming| :: incoming[i].precedence == precedence
  {
    forall i | 0 <= i < |incoming|
      ensures incoming[i].precedence == precedence
    {
      OfPatternCounts(spans, precedence, incoming[i]);
      assert incoming[i] in multiset(incoming);
    }
  }

  lemma {:induction false} ExtendOrder(order: seq<Span>, incoming: seq<Span>, precedence: nat)
    requires Ordered(order) && IncomingSorted(incoming)
    requires forall i | 0 <= i < |order| :: order[i].precedence < precedence
    requires forall i | 0 <= i < |incoming| :: incoming[i].precedence == precedence
    ensures Ordered(order + incoming)
  {
  }

  lemma {:induction false} IncomingNonEmpty(spans: seq<Span>, precedence: nat, incoming: seq<Span>)
    requires AllNonEmpty(spans) && multiset(incoming) == multiset(OfPattern(spans, precedence))
    ensures AllNonEmpty(incoming)
  {
    forall i | 0 <= i < |incoming|
      ensures incoming[i].NonEmpty()
    {
      OfPatternCounts(spans, precedence, incoming[i]);
      assert incoming[i] in multiset(incoming);
      assert incoming[i] in multiset(spans);
    }
  }

  lemma {:induction false} AllTaken(spans: seq<Span>, order: seq<Span>)
    requires Taken(spans, order, {})
    ensures multiset(order) == multiset(spans)
  {
  }

  lemma {:induction false} NothingTaken(spans: seq<Span>, todo: set<nat>)
    requires forall p :: p in todo <==> OfPattern(spans, p) != []
    ensures Taken(spans, [], todo)
  {
    var none: seq<Span> := [];
    forall x: Span
      ensures multiset(none)[x] == if x.precedence in todo then 0 else multiset(spans)[x]
    {
      OfPatternCounts(spans, x.precedence, x);
    }
  }

  /** Drop every span that overlaps one already kept, most specific pattern first. The ghost result
      is the order the spans were taken in. */
  method Resolve(spans: seq<Span>) returns (kept: seq<Span>, ghost order: seq<Span>)
    requires AllNonEmpty(spans)
    ensures Chain(kept)
    ensures Ordered(order) && multiset(order) == multiset(spans)
    ensures multiset(kept) == multiset(Greedy([], order))
  {
    var byPattern := Group(spans);
    kept, order := [], [];
    var todo := byPattern.Keys;
    NothingTaken(spans, todo);
    while todo != {}
      invariant todo <= byPattern.Keys && Chain(kept) && Taken(spans, order, todo)
      invariant multiset(kept) == multiset(Greedy([], order))
      decreases todo
    {
      var precedence := Least(todo);
      var incoming := Sort(NotAfter, byPattern[precedence]);
      SortSorts(NotAfter, byPattern[precedence]);
      IncomingNonEmpty(spans, precedence, incoming);
      ghost var was := kept;
      ghost var advances;
      kept, advances := Merge(kept, incoming);
      GreedyPermutes(was, Greedy([], order), incoming);
      GreedyAppends([], order, incoming);
      TakePattern(spans, order, todo, precedence, incoming);
      order := order + incoming;
      todo := todo - {precedence};
    }
    AllTaken(spans, order);
  }

  // ---------------------------------------------------------------------------------------------
  // What the choice promises
  // ---------------------------------------------------------------------------------------------

  /** Nothing is kept that was not found; what is kept does not overlap; and what is dropped
      overlaps something kept that comes before it. */
  ghost predicate Chosen(order: seq<Span>, kept: seq<Span>) {
    && multiset(kept) <= multiset(order)
    && PairwiseDisjoint(kept)
    && forall i | 0 <= i < |order| && order[i] !in kept :: DroppedFor(order, kept, i)
  }

  ghost predicate DroppedFor(order: seq<Span>, kept: seq<Span>, i: nat)
    requires i < |order|
  {
    exists j | 0 <= j < i :: order[j] in kept && order[i].Overlaps(order[j])
  }

  lemma {:induction false} GreedyChooses(order: seq<Span>)
    ensures Chosen(order, Greedy([], order))
  {
    GreedyKeeps(order);
    GreedyDrops(order);
  }

  lemma {:induction false} GreedyKeeps(order: seq<Span>)
    ensures multiset(Greedy([], order)) <= multiset(order)
    ensures PairwiseDisjoint(Greedy([], order))
  {
    if order != [] {
      var kept := Greedy([], order[..|order| - 1]);
      GreedyKeeps(order[..|order| - 1]);
      InitCounts(order);
      if !OverlapsAny(order[|order| - 1], kept) {
        AppendDisjoint(kept, order[|order| - 1]);
      }
    }
  }

  lemma {:induction false} AppendDisjoint(kept: seq<Span>, x: Span)
    requires PairwiseDisjoint(kept) && !OverlapsAny(x, kept)
    ensures PairwiseDisjoint(kept + [x])
  {
    forall i | 0 <= i < |kept|
      ensures !kept[i].Overlaps(x)
    {
      assert kept[i] in kept;
    }
  }

  lemma {:induction false} GreedyDrops(order: seq<Span>)
    ensures forall i | 0 <= i < |order| && order[i] !in Greedy([], order) :: DroppedFor(order, Greedy([], order), i)
  {
    if order != [] {
      var before, x := order[..|order| - 1], order[|order| - 1];
      GreedyDrops(before);
      assert order == before + [x];
      var kept, all := Greedy([], before), Greedy([], order);
      forall i | 0 <= i < |order| && order[i] !in all
        ensures DroppedFor(before + [x], all, i)
      {
        if i < |before| {
          KeepsDropping(before, x, kept, all, i);
        } else {
          GreedyKeeps(before);
          LastDroppedFor(before, x, kept, i);
        }
      }
    }
  }

  lemma {:induction false} KeepsDropping(before: seq<Span>, x: Span, kept: seq<Span>, all: seq<Span>, i: nat)
    requires i < |before| && DroppedFor(before, kept, i) && (all == kept || all == kept + [x])
    ensures DroppedFor(before + [x], all, i)
  {
    var order := before + [x];
    var j :| 0 <= j < i && before[j] in kept && before[i].Overlaps(before[j]);
    assert order[j] == before[j] && order[i] == before[i] && order[j] in all;
  }

  lemma {:induction false} LastDroppedFor(before: seq<Span>, x: Span, kept: seq<Span>, i: nat)
    requires OverlapsAny(x, kept) && multiset(kept) <= multiset(before) && i == |before|
    ensures DroppedFor(before + [x], kept, i)
  {
    var k :| k in kept && x.Overlaps(k);
    assert k in multiset(kept) && k in multiset(before);
    var j :| 0 <= j < |before| && before[j] == k;
    assert (before + [x])[j] == k;
  }

  lemma {:induction false} InitCounts(a: seq<Span>)
    requires a != []
    ensures a == a[..|a| - 1] + [a[|a| - 1]]
    ensures multiset(a) == multiset(a[..|a| - 1]) + multiset{a[|a| - 1]}
    ensures multiset(a[..|a| - 1]) == multiset(a) - multiset{a[|a| - 1]}
  {
    assert a == a[..|a| - 1] + [a[|a| - 1]];
  }

  lemma {:induction false} SameLength(a: seq<Span>, b: seq<Span>)
    requires multiset(a) == multiset(b)
    ensures |a| == |b|
  {
    assert |multiset(a)| == |multiset(b)|;
  }

  /** The spans of one pattern share its category. */
  ghost predicate OneCategory(spans: seq<Span>) {
    forall i, j | 0 <= i < |spans| && 0 <= j < |spans| && spans[i].precedence == spans[j].precedence ::
      spans[i].category == spans[j].category
  }

  /** There is one such order: no freedom is left in what `Resolve` keeps. */
  lemma {:induction false} OrderIsUnique(a: seq<Span>, b: seq<Span>)
    requires multiset(a) == multiset(b) && Ordered(a) && Ordered(b) && OneCategory(a)
    ensures a == b
  {
    SameLength(a, b);
    if a != [] {
      SameLast(a, b);
      InitCounts(a);
      InitCounts(b);
      OrderIsUnique(a[..|a| - 1], b[..|b| - 1]);
    }
  }

  lemma {:induction false} SameLast(a: seq<Span>, b: seq<Span>)
    requires multiset(a) == multiset(b) && Ordered(a) && Ordered(b) && OneCategory(a) && a != [] && b != []
    ensures a[|a| - 1] == b[|b| - 1]
  {
    SameMembers(a, b);
    var x, y := a[|a| - 1], b[|b| - 1];
    assert x in a && y in b;
    var i :| 0 <= i < |a| && a[i] == y;
    var j :| 0 <= j < |b| && b[j] == x;
    assert i < |a| - 1 ==> Before(y, x);
    assert j < |b| - 1 ==> Before(x, y);
    assert x.precedence == y.precedence ==> x.category == y.category;
  }

  /** Two sorted disjoint lists of the same spans are the same list. */
  lemma {:induction false} ChainIsUnique(a: seq<Span>, b: seq<Span>)
    requires multiset(a) == multiset(b) && Chain(a) && Chain(b)
    ensures a == b
  {
    SameLength(a, b);
    if a != [] {
      SameChainLast(a, b);
      InitCounts(a);
      InitCounts(b);
      ChainIsUnique(a[..|a| - 1], b[..|b| - 1]);
    }
  }

  lemma {:induction false} SameChainLast(a: seq<Span>, b: seq<Span>)
    requires multiset(a) == multiset(b) && Chain(a) && Chain(b) && a != [] && b != []
    ensures a[|a| - 1] == b[|b| - 1]
  {
    SameMembers(a, b);
    var x, y := a[|a| - 1], b[|b| - 1];
    assert x in a && y in b;
    var i :| 0 <= i < |a| && a[i] == y;
    var j :| 0 <= j < |b| && b[j] == x;
    assert i < |a| - 1 ==> y.end <= x.start;
    assert j < |b| - 1 ==> x.end <= y.start;
  }

  lemma {:induction false} OneCategoryPermutes(a: seq<Span>, b: seq<Span>)
    requires OneCategory(a) && multiset(a) == multiset(b)
    ensures OneCategory(b)
  {
    SameMembers(a, b);
    forall i, j | 0 <= i < |b| && 0 <= j < |b| && b[i].precedence == b[j].precedence
      ensures b[i].category == b[j].category
    {
      assert b[i] in a && b[j] in a;
    }
  }

  /** What `Resolve` answers is a function of the spans it is given, whatever order they come in. */
  lemma {:induction false} ResolutionIsUnique(spans: seq<Span>, listed: seq<Span>, order1: seq<Span>, kept1: seq<Span>,
                           order2: seq<Span>, kept2: seq<Span>)
    requires OneCategory(spans) && multiset(spans) == multiset(listed)
    requires Ordered(order1) && multiset(order1) == multiset(spans)
    requires Ordered(order2) && multiset(order2) == multiset(listed)
    requires Chain(kept1) && multiset(kept1) == multiset(Greedy([], order1))
    requires Chain(kept2) && multiset(kept2) == multiset(Greedy([], order2))
    ensures kept1 == kept2
  {
    OneCategoryPermutes(spans, order1);
    OrderIsUnique(order1, order2);
    ChainIsUnique(kept1, kept2);
  }

  /** The choice as a function: the quadratic pass over the spans in order, sorted by start. */
  function Kept(spans: seq<Span>): seq<Span> {
    Sort(NotAfter, Greedy([], Sort(Before, spans)))
  }

  lemma {:induction false} KeptIsChain(spans: seq<Span>)
    requires AllNonEmpty(spans)
    ensures Chain(Kept(spans)) && multiset(Kept(spans)) == multiset(Greedy([], Sort(Before, spans)))
  {
    var order := Sort(Before, spans);
    SortSorts(Before, spans);
    GreedyKeeps(order);
    var chosen := Greedy([], order);
    SortSorts(NotAfter, chosen);
    forall i | 0 <= i < |chosen|
      ensures chosen[i].NonEmpty()
    {
      assert chosen[i] in multiset(chosen) && chosen[i] in multiset(order);
      assert chosen[i] in multiset(spans) && chosen[i] in spans;
    }
    SortedDisjoint(chosen, Sort(NotAfter, chosen));
  }

  /** Disjoint spans, sorted, are a chain. */
  lemma {:induction false} SortedDisjoint(chosen: seq<Span>, sorted: seq<Span>)
    requires AllNonEmpty(chosen) && PairwiseDisjoint(chosen)
    requires SortedBy(NotAfter, sorted) && multiset(sorted) == multiset(chosen)
    ensures Chain(sorted)
  {
    SameMembers(chosen, sorted);
    forall i | 0 <= i < |sorted|
      ensures sorted[i].NonEmpty()
    {
      assert sorted[i] in chosen;
    }
    forall i, j | 0 <= i < j < |sorted|
      ensures sorted[i].end <= sorted[j].start
    {
      SortedApart(chosen, sorted, i, j);
    }
  }

  /** Two places of the sorted list are two places of the disjoint one. */
  lemma {:induction false} SortedApart(chosen: seq<Span>, sorted: seq<Span>, i: nat, j: nat)
    requires AllNonEmpty(chosen) && PairwiseDisjoint(chosen)
    requires SortedBy(NotAfter, sorted) && multiset(sorted) == multiset(chosen)
    requires i < j < |sorted|
    ensures sorted[i].end <= sorted[j].start
  {
    SameMembers(chosen, sorted);
    var x, y := sorted[i], sorted[j];
    assert x in chosen && y in chosen;
    if x == y {
      DisjointNoRepeat(chosen, x);
      Repeated(sorted, i, j);
    } else {
      var a :| 0 <= a < |chosen| && chosen[a] == x;
      var b :| 0 <= b < |chosen| && chosen[b] == y;
      assert NotAfter(x, y);
    }
  }

  lemma {:induction false} Repeated(spans: seq<Span>, i: nat, j: nat)
    requires i < j < |spans| && spans[i] == spans[j]
    ensures multiset(spans)[spans[i]] >= 2
  {
    assert spans == spans[..j] + [spans[j]] + spans[j + 1..];
    assert spans[i] in spans[..j];
  }

  lemma {:induction false} DisjointNoRepeat(chosen: seq<Span>, x: Span)
    requires AllNonEmpty(chosen) && PairwiseDisjoint(chosen)
    ensures multiset(chosen)[x] <= 1
  {
    if chosen != [] {
      DisjointNoRepeat(chosen[..|chosen| - 1], x);
      InitCounts(chosen);
    }
  }

  /** What `Resolve` keeps is exactly that. */
  lemma {:induction false} ResolvedIsKept(spans: seq<Span>, order: seq<Span>, kept: seq<Span>)
    requires AllNonEmpty(spans) && OneCategory(spans)
    requires Ordered(order) && multiset(order) == multiset(spans)
    requires Chain(kept) && multiset(kept) == multiset(Greedy([], order))
    ensures kept == Kept(spans)
  {
    SortSorts(Before, spans);
    OneCategoryPermutes(spans, order);
    OrderIsUnique(order, Sort(Before, spans));
    KeptIsChain(spans);
    ChainIsUnique(kept, Kept(spans));
  }
}
