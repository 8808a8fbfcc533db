/** One export record as a conversation, with an account of what became of every node of its graph. */
module ParsedRecords {
  import opened Conversations
  import opened Json
  import opened Threads
  import opened Turns
  import opened Wrappers
  import Canonical

  /** A message's outcome: a turn, or the reason it was left out. */
  datatype ReadMessage = Turn(message: Message, unrecognized: set<string>) | Hidden | HiddenReasoning

  /** How one message body is read; its rendering of each content type is a parameter here. */
  type MessageReader = Json -> Result<ReadMessage, Rule>

  /** The reader takes a turn's time from the message, as the export states it. */
  ghost predicate ReadsExportTimes(read: MessageReader) {
    forall body {:trigger read(body)} :: read(body).Success? && read(body).value.Turn? ==>
      ExportTime(body.Get("create_time")) == Success(read(body).value.message.sentAt)
  }

  ghost predicate ReadsPlainTurns(read: MessageReader) {
    forall body :: read(body).Success? && read(body).value.Turn? ==> read(body).value.message.toolActivity == []
  }

  datatype ThreadAccount = ThreadAccount(
    sourceId: string,
    nodes: int,
    turns: int,
    foldedToolResults: int,
    structural: int,
    hidden: int,
    hiddenReasoning: int,
    abandonedBranch: int,
    fallbackBranch: bool,
    startFromMessages: bool,
    inconsistentTimes: bool,
    unrecognized: set<string>)
  {
    /** The account's own check: no count negative, and every node accounted for. */
    predicate AddsUp() {
      && turns >= 0 && foldedToolResults >= 0 && structural >= 0
      && hidden >= 0 && hiddenReasoning >= 0 && abandonedBranch >= 0
      && turns + foldedToolResults + structural + hidden + hiddenReasoning + abandonedBranch == nodes
    }
  }

  datatype ReadConversation = ReadConversation(conversation: Conversation, account: ThreadAccount)

  // ---------------------------------------------------------------------------------------------
  // Times
  // ---------------------------------------------------------------------------------------------

  /** 1970-01-01, in microseconds since 0001-01-01. */
  const EPOCH := Canonical.DaysBefore(1970) * Canonical.MICROSECONDS_IN_A_DAY

  function RoundHalfEven(x: real): int {
    var whole := x.Floor;
    var rest := x - whole as real;
    if rest < 0.5 || (rest == 0.5 && whole % 2 == 0) then whole else whole + 1
  }

  /** Seconds since the epoch as an instant, None where the export has none. */
  function ExportTime(value: Json): Result<Option<Moment>, Rule> {
    match value
    case Null => Success(None)
    case Number(seconds) =>
      var local := EPOCH + RoundHalfEven(seconds * 1000000.0);
      if 0 <= local < Canonical.END_OF_TIME then Success(Some(Moment(local, 0))) else Failure(BadTime)
    case _ => Failure(BadTime)
  }

  /** An export's time is one that can be written in canonical bytes. */
  lemma {:induction false} ExportTimesCanBeWritten(value: Json)
    requires ExportTime(value).Success? && ExportTime(value).value.Some?
    ensures Canonical.Representable(ExportTime(value).value.value.Instant())
  {
    Canonical.RepresentableInterval(ExportTime(value).value.value.Instant());
  }

  /** The earliest time a turn carries; the first of those that share it. */
  function Earliest(turns: seq<Message>): Option<Moment> {
    if turns == [] then None
    else
      var before, last := Earliest(turns[..|turns| - 1]), turns[|turns| - 1].sentAt;
      if before.None? then last
      else if last.Some? && last.value.Instant() < before.value.Instant() then last
      else before
  }

  lemma {:induction false} EarliestIsEarliest(turns: seq<Message>)
    ensures Earliest(turns).None? <==> forall i | 0 <= i < |turns| :: turns[i].sentAt.None?
    ensures Earliest(turns).Some? ==>
              && (exists i | 0 <= i < |turns| :: turns[i].sentAt == Earliest(turns))
              && forall i | 0 <= i < |turns| && turns[i].sentAt.Some? ::
                   Earliest(turns).value.Instant() <= turns[i].sentAt.value.Instant()
  {
    if turns != [] {
      var n := |turns| - 1;
      EarliestIsEarliest(turns[..n]);
      assert forall i | 0 <= i < n :: turns[..n][i] == turns[i];
      if Earliest(turns) == turns[n].sentAt {
      } else {
        var i :| 0 <= i < n && turns[..n][i].sentAt == Earliest(turns[..n]);
        assert turns[i].sentAt == Earliest(turns);
      }
    }
  }

  // ---------------------------------------------------------------------------------------------
  // Reading the nodes of the thread
  // ---------------------------------------------------------------------------------------------

  datatype Collected = Collected(
    items: seq<Item>,
    structural: nat,
    hidden: nat,
    hiddenReasoning: nat,
    unrecognized: set<string>)

  /** One node's message added to what was collected before it. */
  function Collect(before: Collected, node: Json, read: MessageReader): Result<Collected, Rule> {
    var body := node.Get("message");
    match body
    case Null => Success(before.(structural := before.structural + 1))
    case Object(_) =>
      (match read(body)
       case Failure(rule) => Failure(rule)
       case Success(Hidden) => Success(before.(hidden := before.hidden + 1))
       case Success(HiddenReasoning) => Success(before.(hiddenReasoning := before.hiddenReasoning + 1))
       case Success(Turn(message, unrecognized)) =>
         Success(before.(items := before.items + [Item(body, message)],
                         unrecognized := before.unrecognized + unrecognized)))
    case _ => Failure(NotAMessage)
  }

  function CollectAll(m: Mapping, ids: seq<string>, read: MessageReader): Result<Collected, Rule>
    requires forall i | 0 <= i < |ids| :: ids[i] in m
  {
    if ids == [] then Success(Collected([], 0, 0, 0, {}))
    else
      match CollectAll(m, ids[..|ids| - 1], read)
      case Failure(rule) => Failure(rule)
      case Success(before) => Collect(before, m[ids[|ids| - 1]], read)
  }

  method ReadNodes(m: Mapping, ids: seq<string>, read: MessageReader) returns (collected: Result<Collected, Rule>)
    requires forall i | 0 <= i < |ids| :: ids[i] in m
    ensures collected == CollectAll(m, ids, read)
  {
    var items: seq<Item> := [];
    var structural, hidden, hiddenReasoning := 0, 0, 0;
    var unrecognized: set<string> := {};
    for n := 0 to |ids|
      invariant CollectAll(m, ids[..n], read) == Success(Collected(items, structural, hidden, hiddenReasoning, unrecognized))
    {
      assert ids[..n + 1][..n] == ids[..n];
      FailureStays(m, ids, read, n + 1);
      var body := m[ids[n]].Get("message");
      if body.Null? {
        structural := structural + 1;
        continue;
      }
      if !body.Object? {
        return Failure(NotAMessage);
      }
      var one := read(body);
      match one {
        case Failure(rule) =>
          return Failure(rule);
        case Success(Hidden) =>
          hidden := hidden + 1;
        case Success(HiddenReasoning) =>
          hiddenReasoning := hiddenReasoning + 1;
        case Success(Turn(message, types)) =>
          items := items + [Item(body, message)];
          unrecognized := unrecognized + types;
      }
    }
    assert ids[..|ids|] == ids;
    return Success(Collected(items, structural, hidden, hiddenReasoning, unrecognized));
  }

  lemma {:induction false} FailureStays(m: Mapping, ids: seq<string>, read: MessageReader, n: nat)
    requires forall i | 0 <= i < |ids| :: ids[i] in m
    requires n <= |ids|
    ensures CollectAll(m, ids[..n], read).Failure? ==> CollectAll(m, ids, read) == CollectAll(m, ids[..n], read)
    decreases |ids| - n
  {
    if n < |ids| {
      assert ids[..n + 1][..n] == ids[..n];
      FailureStays(m, ids, read, n + 1);
    } else {
      assert ids[..n] == ids;
    }
  }

  /** Every node of the thread is a turn, structural or hidden. */
  lemma {:induction false} EveryNodeCounts(m: Mapping, ids: seq<string>, read: MessageReader)
    requires forall i | 0 <= i < |ids| :: ids[i] in m
    requires CollectAll(m, ids, read).Success?
    ensures var c := CollectAll(m, ids, read).value;
            && |c.items| + c.structural + c.hidden + c.hiddenReasoning == |ids|
            && (ReadsPlainTurns(read) ==> Plain(c.items))
  {
    if ids != [] {
      EveryNodeCounts(m, ids[..|ids| - 1], read);
    }
  }

  // ---------------------------------------------------------------------------------------------
  // The record
  // ---------------------------------------------------------------------------------------------

  function NonEmptyText(value: Json): Option<string> {
    if value.Text? && value.text != [] then Some(value.text) else None
  }

  function SourceId(record: Json): Option<string> {
    var first := NonEmptyText(record.Get("conversation_id"));
    if first.Some? then first else NonEmptyText(record.Get("id"))
  }

  /** Blanks, and the control characters. */
  predicate IsUnusable(c: char) {
    || c <= ' ' || c == '\U{7F}' || c == '\U{85}' || c == '\U{A0}' || c == '\U{1680}' || '\U{2000}' <= c <= '\U{200A}'
    || '\U{2028}' <= c <= '\U{2029}' || c == '\U{202F}' || c == '\U{205F}' || c == '\U{3000}'
  }

  /** What a conversation may be called by its source. */
  predicate IsIdentifier(s: string) {
    s != [] && forall i | 0 <= i < |s| :: !IsUnusable(s[i])
  }

  /** When the conversation started, and whether that was read off its messages. */
  function StartOf(record: Json, turns: seq<Message>): Result<Moment, Rule> {
    match ExportTime(record.Get("create_time"))
    case Failure(rule) => Failure(rule)
    case Success(Some(moment)) => Success(moment)
    case Success(None) =>
      match Earliest(turns)
      case None => Failure(NoStart)
      case Some(moment) => Success(moment)
  }

  /** The conversation and its account, once the thread and its messages are known. */
  function Assemble(record: Json, sourceId: string, thread: Thread, nodes: nat, c: Collected): Result<ReadConversation, Rule> {
    var turns := TurnsOf(c.items, |c.items|);
    match StartOf(record, turns)
    case Failure(rule) => Failure(rule)
    case Success(start) =>
      match ExportTime(record.Get("update_time"))
      case Failure(rule) => Failure(rule)
      case Success(updated) =>
        var inconsistent := updated.Some? && updated.value.Instant() < start.Instant();
        var title := record.Get("title");
        if !IsIdentifier(sourceId) then Failure(BadIdentifier)
        else Success(ReadConversation(
          Conversation(ChatGpt, sourceId, if title.Text? then Some(title.text) else None, start,
                       if inconsistent then None else updated, turns),
          ThreadAccount(sourceId, nodes, |turns|, FoldedCount(c.items, |c.items|), c.structural, c.hidden,
                        c.hiddenReasoning, thread.abandoned, thread.fallbackBranch,
                        record.Get("create_time").Null?, inconsistent, c.unrecognized)))
  }

  ghost predicate InMapping(mapping: Json, thread: Thread) {
    mapping.Object? && forall i | 0 <= i < |thread.nodeIds| :: thread.nodeIds[i] in mapping.fields
  }

  /** `parsed` is what the record says, read along the thread of its graph. */
  ghost predicate Says(record: Json, read: MessageReader, thread: Thread, parsed: ReadConversation) {
    && record.Object? && SourceId(record).Some?
    && var mapping := record.Get("mapping");
       && IsThread(mapping, record.Get("current_node"), thread) && InMapping(mapping, thread)
       && CollectAll(mapping.fields, thread.nodeIds, read).Success?
       && Assemble(record, SourceId(record).value, thread, |mapping.fields|,
                   CollectAll(mapping.fields, thread.nodeIds, read).value) == Success(parsed)
  }

  lemma {:induction false} ThreadInMapping(mapping: Json, current: Json, thread: Thread)
    requires IsThread(mapping, current, thread)
    ensures InMapping(mapping, thread)
  {
  }

  method ParseRecord(record: Json, read: MessageReader) returns (parsed: Result<ReadConversation, Rule>)
    ensures parsed.Success? ==> exists thread :: Says(record, read, thread, parsed.value)
    ensures parsed.Failure? ==> forall thread, other :: !Says(record, read, thread, other)
  {
    if !record.Object? {
      return Failure(NotAnObject);
    }
    var sourceId := SourceId(record);
    if sourceId == None {
      return Failure(NoIdentifier);
    }
    var mapping := record.Get("mapping");
    var thread :- Reconstruct(mapping, record.Get("current_node"));
    ThreadInMapping(mapping, record.Get("current_node"), thread);
    var collected := ReadNodes(mapping.fields, thread.nodeIds, read);
    forall t, other | Says(record, read, t, other)
      ensures t == thread
    {
      ThreadIsUnique(mapping, record.Get("current_node"), t, thread);
    }
    if collected.Failure? {
      return Failure(collected.error);
    }
    var c := collected.value;
    var turns, folded := FoldToolCalls(c.items);
    var created := ExportTime(record.Get("create_time"));
    if created.Failure? {
      return Failure(created.error);
    }
    var startFromMessages := created.value.None?;
    var start := if startFromMessages then Earliest(turns) else created.value;
    if start.None? {
      return Failure(NoStart);
    }
    var lastActivity := ExportTime(record.Get("update_time"));
    if lastActivity.Failure? {
      return Failure(lastActivity.error);
    }
    var last := lastActivity.value;
    var inconsistent := last.Some? && last.value.Instant() < start.value.Instant();
    if inconsistent {
      last := None;
    }
    if !IsIdentifier(sourceId.value) {
      return Failure(BadIdentifier);
    }
    var title := record.Get("title");
    var result := ReadConversation(
      Conversation(ChatGpt, sourceId.value, if title.Text? then Some(title.text) else None, start.value, last, turns),
      ThreadAccount(sourceId.value, |mapping.fields|, |turns|, folded, c.structural, c.hidden, c.hiddenReasoning,
                    thread.abandoned, thread.fallbackBranch, startFromMessages, inconsistent, c.unrecognized));
    assert Says(record, read, thread, result);
    return Success(result);
  }

  // ---------------------------------------------------------------------------------------------
  // What a parsed record promises
  // ---------------------------------------------------------------------------------------------

  /** Every node of the graph is accounted for, so the account's own check never refuses; and a
      conversation never ends before it starts. */
  lemma {:induction false} AccountAlwaysAddsUp(record: Json, read: MessageReader, thread: Thread, parsed: ReadConversation)
    requires Says(record, read, thread, parsed)
    ensures parsed.account.AddsUp() && parsed.account.nodes == |record.Get("mapping").fields|
    ensures var c := parsed.conversation;
            c.lastActivityAt.Some? ==> c.startedAt.Instant() <= c.lastActivityAt.value.Instant()
  {
    var mapping := record.Get("mapping");
    ThreadIsUnique(mapping, record.Get("current_node"), thread, thread);
    EveryNodeCounts(mapping.fields, thread.nodeIds, read);
    var c := CollectAll(mapping.fields, thread.nodeIds, read).value;
    NothingIsLost(c.items, |c.items|);
  }

  /** A message whose time, where it has one, can be written. */
  predicate Timed(m: Message) {
    m.sentAt.Some? ==> Canonical.Representable(m.sentAt.value.Instant())
  }

  lemma {:induction false} ItemsAreTimed(m: Mapping, ids: seq<string>, read: MessageReader)
    requires (forall i | 0 <= i < |ids| :: ids[i] in m) && ReadsExportTimes(read)
    requires CollectAll(m, ids, read).Success?
    ensures var items := CollectAll(m, ids, read).value.items; forall i | 0 <= i < |items| :: Timed(items[i].turn)
  {
    if ids != [] {
      ItemsAreTimed(m, ids[..|ids| - 1], read);
      var body := m[ids[|ids| - 1]].Get("message");
      if body.Object? && read(body).Success? && read(body).value.Turn? && read(body).value.message.sentAt.Some? {
        ExportTimesCanBeWritten(body.Get("create_time"));
      }
    }
  }

  predicate AllTimed(turns: seq<Message>) {
    forall i | 0 <= i < |turns| :: Timed(turns[i])
  }

  lemma {:induction false} TurnsAreTimed(items: seq<Item>, n: nat)
    requires n <= |items| && forall i | 0 <= i < |items| :: Timed(items[i].turn)
    ensures AllTimed(TurnsOf(items, n))
  {
    if n > 0 {
      var before, turn := TurnsOf(items, n - 1), TurnAt(items, n - 1);
      TurnsAreTimed(items, n - 1);
      assert Timed(items[n - 1].turn);
      assert turn.sentAt == items[n - 1].turn.sentAt;
      assert AllTimed(before + [turn]);
    }
  }

  lemma {:induction false} AssembledTells(record: Json, sourceId: string, thread: Thread, nodes: nat, c: Collected, parsed: ReadConversation)
    requires Assemble(record, sourceId, thread, nodes, c) == Success(parsed)
    ensures parsed.conversation.messages == TurnsOf(c.items, |c.items|)
    ensures IsIdentifier(sourceId) && parsed.conversation.sourceId == sourceId && parsed.conversation.source == ChatGpt
  {
  }

  /** Whatever an export yields has canonical bytes, and so a content hash; and its identifier is one the
      importer's models take. */
  lemma {:induction false} WhatIsYieldedCanBeHashed(record: Json, read: MessageReader, thread: Thread, parsed: ReadConversation)
    requires Says(record, read, thread, parsed) && ReadsExportTimes(read)
    ensures Canonical.CanonicalBytes(parsed.conversation).Success? && IsIdentifier(parsed.conversation.sourceId)
  {
    var mapping := record.Get("mapping");
    ItemsAreTimed(mapping.fields, thread.nodeIds, read);
    var c := CollectAll(mapping.fields, thread.nodeIds, read).value;
    TurnsAreTimed(c.items, |c.items|);
    AssembledTells(record, SourceId(record).value, thread, |mapping.fields|, c, parsed);
    assert forall i | 0 <= i < |parsed.conversation.messages| :: Timed(parsed.conversation.messages[i]);
    Canonical.BytesExist(parsed.conversation);
  }

  /** A record says one thing: parsing it again gives the same conversation. */
  lemma {:induction false} RecordSaysOneThing(record: Json, read: MessageReader, t: Thread, a: ReadConversation,
                                              u: Thread, b: ReadConversation)
    requires Says(record, read, t, a) && Says(record, read, u, b)
    ensures a == b && t == u
  {
    ThreadIsUnique(record.Get("mapping"), record.Get("current_node"), t, u);
  }

  /** Every text and marker of the thread is in the conversation, in order. */
  lemma {:induction false} ThreadTextsAreKept(record: Json, read: MessageReader, thread: Thread, parsed: ReadConversation)
    requires Says(record, read, thread, parsed) && ReadsPlainTurns(read)
    ensures var items := CollectAll(record.Get("mapping").fields, thread.nodeIds, read).value.items;
            && AllTexts(parsed.conversation.messages) == OriginalTexts(items)
            && AllMarkers(parsed.conversation.messages) == OriginalMarkers(items)
  {
    EveryNodeCounts(record.Get("mapping").fields, thread.nodeIds, read);
    FoldingKeepsEverything(CollectAll(record.Get("mapping").fields, thread.nodeIds, read).value.items);
  }
}
