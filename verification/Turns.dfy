/** Tool calls folded together with the results that answer them. */
module Turns {
  import opened Conversations
  import opened Json
  import opened Wrappers

  /** One message of the thread: the export's body, and the turn it was read as. */
  datatype Item = Item(body: Json, turn: Message)

  /** The tool an assistant message addresses, or None for an ordinary turn. */
  function ToolCall(item: Item): Option<string> {
    match item.body.Get("recipient")
    case Text(tool) => if item.turn.role.Assistant? && tool != "" && tool != "all" then Some(tool) else None
    case _ => None
  }

  function ToolName(body: Json): Json {
    body.Get("author").Get("name")
  }

  /** `next` is the result of the call that `item` makes. */
  predicate Answers(item: Item, next: Item) {
    ToolCall(item).Some? && next.turn.role.Tool? && ToolName(next.body) == Text(ToolCall(item).value)
  }

  /** Item `i` is folded into the one before it. */
  predicate Folded(items: seq<Item>, i: nat) {
    0 < i < |items| && Answers(items[i - 1], items[i])
  }

  function TextOrNone(text: string): Option<string> {
    if text == [] then None else Some(text)
  }

  /** The turn that item `i` becomes, when it is not folded. */
  function TurnAt(items: seq<Item>, i: nat): Message
    requires i < |items|
  {
    var turn := items[i].turn;
    match ToolCall(items[i])
    case None => turn
    case Some(tool) =>
      if Folded(items, i + 1) then
        turn.(text := [],
              toolActivity := [ToolActivity(tool, TextOrNone(turn.text), Some(items[i + 1].turn.text))],
              nonTextParts := turn.nonTextParts + items[i + 1].turn.nonTextParts)
      else
        turn.(text := [], toolActivity := [ToolActivity(tool, TextOrNone(turn.text), None)])
  }

  /** The turns of the first `n` items: one for each that is not folded into its neighbour. */
  function TurnsOf(items: seq<Item>, n: nat): seq<Message>
    requires n <= |items|
    decreases n
  {
    if n == 0 then []
    else if Folded(items, n - 1) then TurnsOf(items, n - 1)
    else TurnsOf(items, n - 1) + [TurnAt(items, n - 1)]
  }

  function FoldedCount(items: seq<Item>, n: nat): nat
    requires n <= |items|
    decreases n
  {
    if n == 0 then 0 else FoldedCount(items, n - 1) + (if Folded(items, n - 1) then 1 else 0)
  }

  /** The turns of all items, and how many were folded. */
  predicate AreFolded(items: seq<Item>, turns: seq<Message>, folded: nat) {
    turns == TurnsOf(items, |items|) && folded == FoldedCount(items, |items|)
  }

  /** What was folded answers a call, so it makes none. */
  lemma {:induction false} FoldedMakesNoCall(items: seq<Item>, i: nat)
    requires Folded(items, i)
    ensures ToolCall(items[i]).None? && !Folded(items, i + 1)
  {
  }

  /** The walk over the items, looking one ahead from each call, folds exactly the answering
      neighbours. */
  method FoldToolCalls(items: seq<Item>) returns (turns: seq<Message>, folded: nat)
    ensures AreFolded(items, turns, folded)
  {
    turns, folded := [], 0;
    var position := 0;
    while position < |items|
      invariant position <= |items| && !Folded(items, position)
      invariant turns == TurnsOf(items, position) && folded == FoldedCount(items, position)
    {
      ghost var here := position;
      var item := items[position];
      position := position + 1;
      var tool := ToolCall(item);
      if tool == None {
        turns := turns + [item.turn];
        continue;
      }
      var result: Option<string> := None;
      var markers := item.turn.nonTextParts;
      if position < |items| {
        var next := items[position];
        if next.turn.role.Tool? && ToolName(next.body) == Text(tool.value) {
          FoldedMakesNoCall(items, position);
          result := Some(next.turn.text);
          markers := markers + next.turn.nonTextParts;
          folded := folded + 1;
          position := position + 1;
        }
      }
      turns := turns + [item.turn.(text := [],
                                   toolActivity := [ToolActivity(tool.value, TextOrNone(item.turn.text), result)],
                                   nonTextParts := markers)];
    }
  }

  // ---------------------------------------------------------------------------------------------
  // What folding promises
  // ---------------------------------------------------------------------------------------------

  /** Every item became a turn or was folded. */
  lemma {:induction false} NothingIsLost(items: seq<Item>, n: nat)
    requires n <= |items|
    ensures |TurnsOf(items, n)| + FoldedCount(items, n) == n
  {
    if n > 0 {
      NothingIsLost(items, n - 1);
    }
  }

  /** The texts a turn holds: its own, or those of its call and the result. */
  function TextsIn(turn: Message): seq<string> {
    if turn.toolActivity == [] then [turn.text] else ActivityText(turn.toolActivity[0])
  }

  function ActivityText(activity: ToolActivity): seq<string> {
    [if activity.request.Some? then activity.request.value else ""]
    + (if activity.result.Some? then [activity.result.value] else [])
  }

  function AllTexts(turns: seq<Message>): seq<string> {
    if turns == [] then [] else AllTexts(turns[..|turns| - 1]) + TextsIn(turns[|turns| - 1])
  }

  function AllMarkers(turns: seq<Message>): seq<NonTextPart> {
    if turns == [] then [] else AllMarkers(turns[..|turns| - 1]) + turns[|turns| - 1].nonTextParts
  }

  function OriginalTexts(items: seq<Item>): (texts: seq<string>)
    ensures |texts| == |items|
  {
    if items == [] then [] else OriginalTexts(items[..|items| - 1]) + [items[|items| - 1].turn.text]
  }

  function OriginalMarkers(items: seq<Item>): seq<NonTextPart> {
    if items == [] then [] else OriginalMarkers(items[..|items| - 1]) + items[|items| - 1].turn.nonTextParts
  }

  /** Messages read from an export carry no tool activity of their own. */
  predicate Plain(items: seq<Item>) {
    forall i | 0 <= i < |items| :: items[i].turn.toolActivity == []
  }

  /** How many items the first turns account for: a call brings the answer after it along. */
  function Covered(items: seq<Item>, n: nat): (c: nat)
    requires n <= |items|
    ensures n <= c <= |items|
  {
    if Folded(items, n) then n + 1 else n
  }

  lemma {:induction false} PrefixSteps(items: seq<Item>, n: nat)
    requires n < |items|
    ensures OriginalTexts(items[..n + 1]) == OriginalTexts(items[..n]) + [items[n].turn.text]
    ensures OriginalMarkers(items[..n + 1]) == OriginalMarkers(items[..n]) + items[n].turn.nonTextParts
  {
    assert items[..n + 1][..n] == items[..n];
  }

  lemma {:induction false} AppendTurn(turns: seq<Message>, turn: Message)
    ensures AllTexts(turns + [turn]) == AllTexts(turns) + TextsIn(turn)
    ensures AllMarkers(turns + [turn]) == AllMarkers(turns) + turn.nonTextParts
  {
    assert (turns + [turn])[..|turns|] == turns;
  }

  /** A turn holds the text and the markers of the items it stands for. */
  lemma {:induction false} TurnHolds(items: seq<Item>, n: nat)
    requires n < |items| && items[n].turn.toolActivity == []
    ensures TextsIn(TurnAt(items, n))
         == [items[n].turn.text] + (if Folded(items, n + 1) then [items[n + 1].turn.text] else [])
    ensures TurnAt(items, n).nonTextParts
         == items[n].turn.nonTextParts + (if Folded(items, n + 1) then items[n + 1].turn.nonTextParts else [])
  {
  }

  /** The turns of the first `n` items hold the texts and the markers of the items they account for. */
  ghost predicate Flattens(items: seq<Item>, n: nat)
    requires n <= |items|
  {
    && AllTexts(TurnsOf(items, n)) == OriginalTexts(items[..Covered(items, n)])
    && AllMarkers(TurnsOf(items, n)) == OriginalMarkers(items[..Covered(items, n)])
  }

  lemma {:induction false} NextFlattens(items: seq<Item>, n: nat)
    requires n < |items| && Plain(items) && !Folded(items, n) && Flattens(items, n)
    ensures Flattens(items, n + 1)
  {
    AppendTurn(TurnsOf(items, n), TurnAt(items, n));
    TurnHolds(items, n);
    Spread(items, n);
  }

  lemma {:induction false} FoldedFlattens(items: seq<Item>, n: nat)
    requires n < |items| && Folded(items, n) && Flattens(items, n)
    ensures Flattens(items, n + 1)
  {
    FoldedMakesNoCall(items, n);
    assert Covered(items, n) == n + 1 == Covered(items, n + 1);
    assert TurnsOf(items, n + 1) == TurnsOf(items, n);
  }

  lemma {:induction false} NothingFlattens(items: seq<Item>)
    ensures Flattens(items, 0)
  {
  }

  lemma {:induction false} PrefixFlattens(items: seq<Item>, n: nat)
    requires n <= |items| && Plain(items)
    ensures Flattens(items, n)
  {
    if n == 0 {
      NothingFlattens(items);
    } else {
      PrefixFlattens(items, n - 1);
      if Folded(items, n - 1) {
        FoldedFlattens(items, n - 1);
      } else {
        NextFlattens(items, n - 1);
      }
    }
  }

  lemma {:induction false} Spread(items: seq<Item>, n: nat)
    requires n < |items|
    ensures OriginalTexts(items[..Covered(items, n + 1)])
         == OriginalTexts(items[..n])
            + ([items[n].turn.text] + (if Folded(items, n + 1) then [items[n + 1].turn.text] else []))
    ensures OriginalMarkers(items[..Covered(items, n + 1)])
         == OriginalMarkers(items[..n])
            + (items[n].turn.nonTextParts + (if Folded(items, n + 1) then items[n + 1].turn.nonTextParts else []))
  {
    PrefixSteps(items, n);
    if Folded(items, n + 1) {
      PrefixSteps(items, n + 1);
    }
  }

  /** Unfolding gives back every text and every marker of the thread, in order. */
  lemma {:induction false} FoldingKeepsEverything(items: seq<Item>)
    requires Plain(items)
    ensures AllTexts(TurnsOf(items, |items|)) == OriginalTexts(items)
    ensures AllMarkers(TurnsOf(items, |items|)) == OriginalMarkers(items)
  {
    PrefixFlattens(items, |items|);
    assert items[..|items|] == items;
  }
}
