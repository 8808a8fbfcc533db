/** The secret sanitizer: every text field of a conversation redacted, everything else copied, and
    one report of what was removed. */
module Sanitizer {
  import opened Conversations
  import opened Redaction
  import opened Spans
  import opened Wrappers

  // ---------------------------------------------------------------------------------------------
  // The specification, field by field
  // ---------------------------------------------------------------------------------------------

  /** What becomes of one text, and what is removed from it. An empty text is left alone. */
  function Cleaner(table: Table): string -> string
    requires table.isPlaceholder([])
  {
    (text: string) => if text == [] then [] else Redacted(table, text)
  }

  function Remover(table: Table): string -> multiset<Category> {
    (text: string) => if text == [] then multiset{} else Removed(table, text)
  }

  function CleanField(clean: string -> string, field: Option<string>): Option<string>
  {
    match field
    case None => None
    case Some(text) => Some(clean(text))
  }

  function CleanActivity(clean: string -> string, activity: ToolActivity): ToolActivity
  {
    ToolActivity(clean(activity.name), CleanField(clean, activity.request), CleanField(clean, activity.result))
  }

  function CleanPart(clean: string -> string, part: NonTextPart): NonTextPart
  {
    part.(name := CleanField(clean, part.name))
  }

  function CleanMessage(clean: string -> string, m: Message): Message
  {
    m.(text := clean(m.text),
       toolActivity := seq(|m.toolActivity|, i requires 0 <= i < |m.toolActivity| => CleanActivity(clean, m.toolActivity[i])),
       nonTextParts := seq(|m.nonTextParts|, i requires 0 <= i < |m.nonTextParts| => CleanPart(clean, m.nonTextParts[i])))
  }

  function CleanConversation(clean: string -> string, c: Conversation): Conversation
  {
    c.(title := CleanField(clean, c.title),
       messages := seq(|c.messages|, i requires 0 <= i < |c.messages| => CleanMessage(clean, c.messages[i])))
  }

  /** What is removed from a list of texts: the sum of what is removed from each. */
  function RemovedFrom(removed: string -> multiset<Category>, texts: seq<string>): multiset<Category> {
    if texts == [] then multiset{}
    else RemovedFrom(removed, texts[..|texts| - 1]) + removed(texts[|texts| - 1])
  }

  // ---------------------------------------------------------------------------------------------
  // The sanitizer
  // ---------------------------------------------------------------------------------------------

  ghost predicate SoundTable(table: Table) {
    table.isPlaceholder([]) && forall text :: Sound(table, text)
  }

  ghost function Total(removed: string -> multiset<Category>): seq<string> -> multiset<Category> {
    (texts: seq<string>) => RemovedFrom(removed, texts)
  }

  /** The counts a whole conversation accumulates into; `texts` are the texts counted so far, and
      `removed` says what each of them, and all of them, gave up. */
  class Tally {
    ghost const removed: string -> multiset<Category>
    ghost const total: seq<string> -> multiset<Category>
    var counts: map<Category, nat>
    ghost var texts: seq<string>

    ghost predicate Adds(before: seq<string>, text: string) {
      total(before + [text]) == total(before) + removed(text)
    }

    ghost predicate Valid()
      reads this
    {
      Counts(counts, total(texts)) && forall before, text :: Adds(before, text)
    }

    constructor (ghost removed: string -> multiset<Category>)
      ensures Valid() && texts == []
      ensures this.removed == removed && total == Total(removed)
    {
      this.removed := removed;
      total := Total(removed);
      counts, texts := map[], [];
      new;
      forall before, text
        ensures Adds(before, text)
      {
        assert (before + [text])[..|before|] == before;
      }
    }

    method AddAll(found: map<Category, nat>, ghost text: string)
      requires Valid() && Counts(found, removed(text))
      modifies this
      ensures Valid() && texts == old(texts) + [text]
    {
      counts := AddCounts(counts, found, total(texts), removed(text));
      assert Adds(texts, text);
      texts := texts + [text];
    }
  }

  /** One dictionary of counts added into another. */
  method AddCounts(before: map<Category, nat>, found: map<Category, nat>,
                   ghost m: multiset<Category>, ghost n: multiset<Category>)
    returns (counts: map<Category, nat>)
    requires Counts(before, m) && Counts(found, n)
    ensures Counts(counts, m + n)
  {
    counts := before;
    var todo := found.Keys;
    while todo != {}
      invariant todo <= found.Keys
      invariant forall c :: c in counts <==> c in before || (c in found && c !in todo)
      invariant forall c | c in counts ::
                  counts[c] == (if c in before then before[c] else 0)
                             + (if c in found && c !in todo then found[c] else 0)
      decreases todo
    {
      var category :| category in todo;
      var so := if category in counts then counts[category] else 0;
      counts := counts[category := so + found[category]];
      todo := todo - {category};
    }
    CountsSum(before, m, found, n, counts);
  }

  lemma {:induction false} CountsSum(a: map<Category, nat>, m: multiset<Category>, b: map<Category, nat>, n: multiset<Category>,
                  sum: map<Category, nat>)
    requires Counts(a, m) && Counts(b, n)
    requires forall c :: c in sum <==> c in a || c in b
    requires forall c | c in sum :: sum[c] == (if c in a then a[c] else 0) + (if c in b then b[c] else 0)
    ensures Counts(sum, m + n)
  {
  }

  lemma {:induction false} ActivityTextsGrow(before: seq<string>, activities: seq<ToolActivity>, n: nat)
    requires n < |activities|
    ensures before + ActivityTexts(activities[..n]) + OneActivityTexts(activities[n]) == before + ActivityTexts(activities[..n + 1])
  {
    assert activities[..n + 1][..n] == activities[..n];
  }

  lemma {:induction false} PartTextsGrow(before: seq<string>, parts: seq<NonTextPart>, n: nat)
    requires n < |parts|
    ensures before + PartTexts(parts[..n]) + FieldTexts(parts[n].name) == before + PartTexts(parts[..n + 1])
  {
    assert parts[..n + 1][..n] == parts[..n];
  }

  lemma {:induction false} MessagesTextsGrow(before: seq<string>, messages: seq<Message>, n: nat)
    requires n < |messages|
    ensures before + MessagesTexts(messages[..n]) + MessageTexts(messages[n]) == before + MessagesTexts(messages[..n + 1])
  {
    assert messages[..n + 1][..n] == messages[..n];
  }

  /** The first `n` items, each rewritten. */
  ghost predicate Rewrites<S, T>(rewrite: S -> T, items: seq<S>, n: nat, result: seq<T>)
    requires n <= |items|
  {
    |result| == n && forall i | 0 <= i < n :: result[i] == rewrite(items[i])
  }

  lemma {:induction false} RewritesMore<S, T>(rewrite: S -> T, items: seq<S>, n: nat, result: seq<T>, one: T)
    requires n < |items| && Rewrites(rewrite, items, n, result) && one == rewrite(items[n])
    ensures Rewrites(rewrite, items, n + 1, result + [one])
  {
  }

  class SecretSanitizer {
    const table: Table
    ghost const clean: string -> string
    ghost const removed: string -> multiset<Category>

    constructor (table: Table)
      requires SoundTable(table)
      ensures Valid() && this.table == table && clean == Cleaner(table) && removed == Remover(table)
    {
      this.table := table;
      clean := Cleaner(table);
      removed := Remover(table);
      new;
      assert forall text :: Sound(table, text) && Agrees(text);
    }

    /** Redacting this text is what `clean` and `removed` say. */
    ghost predicate Agrees(text: string) {
      && table.isPlaceholder([]) && Sound(table, text)
      && clean(text) == (if text == [] then [] else Redacted(table, text))
      && removed(text) == (if text == [] then multiset{} else Removed(table, text))
    }

    ghost predicate Valid() {
      forall text :: Agrees(text)
    }

    ghost predicate Ready(tally: Tally)
      reads tally
    {
      Valid() && tally.removed == removed && tally.Valid()
    }

    method CleanOne(text: string, tally: Tally) returns (rewritten: string)
      requires Ready(tally)
      modifies tally
      ensures Ready(tally) && rewritten == clean(text) && (text != [] ==> rewritten != [])
      ensures tally.texts == old(tally.texts) + [text]
    {
      assert Agrees(text);
      var found := map[];
      rewritten := text;
      if text != [] {
        rewritten, found := Redact(table, text);
        RedactedNotEmpty(table, text);
      }
      tally.AddAll(found, text);
    }

    method Field(field: Option<string>, tally: Tally) returns (result: Option<string>)
      requires Ready(tally)
      modifies tally
      ensures Ready(tally) && result == CleanField(clean, field)
      ensures tally.texts == old(tally.texts) + FieldTexts(field)
    {
      match field {
        case None => result := None;
        case Some(text) =>
          var one := CleanOne(text, tally);
          result := Some(one);
      }
    }

    method Activity(activity: ToolActivity, tally: Tally) returns (result: ToolActivity)
      requires Ready(tally)
      modifies tally
      ensures Ready(tally) && result == CleanActivity(clean, activity)
      ensures tally.texts == old(tally.texts) + OneActivityTexts(activity)
    {
      var name := CleanOne(activity.name, tally);
      if name == [] {
        name := activity.name;
      }
      var request := Field(activity.request, tally);
      var answer := Field(activity.result, tally);
      result := ToolActivity(name, request, answer);
    }

    method Activities(activities: seq<ToolActivity>, tally: Tally) returns (result: seq<ToolActivity>)
      requires Ready(tally)
      modifies tally
      ensures Ready(tally) && |result| == |activities|
      ensures forall i | 0 <= i < |result| :: result[i] == CleanActivity(clean, activities[i])
      ensures tally.texts == old(tally.texts) + ActivityTexts(activities)
    {
      result := [];
      ghost var before, rewrite := tally.texts, (item: ToolActivity) => CleanActivity(clean, item);
      for n := 0 to |activities|
        invariant Ready(tally) && Rewrites(rewrite, activities, n, result)
        invariant tally.texts == before + ActivityTexts(activities[..n])
      {
        var one := Activity(activities[n], tally);
        RewritesMore(rewrite, activities, n, result, one);
        result := result + [one];
        ActivityTextsGrow(before, activities, n);
      }
      assert activities[..|activities|] == activities;
    }

    method Parts(parts: seq<NonTextPart>, tally: Tally) returns (result: seq<NonTextPart>)
      requires Ready(tally)
      modifies tally
      ensures Ready(tally) && |result| == |parts|
      ensures forall i | 0 <= i < |result| :: result[i] == CleanPart(clean, parts[i])
      ensures tally.texts == old(tally.texts) + PartTexts(parts)
    {
      result := [];
      ghost var before, rewrite := tally.texts, (item: NonTextPart) => CleanPart(clean, item);
      for n := 0 to |parts|
        invariant Ready(tally) && Rewrites(rewrite, parts, n, result)
        invariant tally.texts == before + PartTexts(parts[..n])
      {
        var name := Field(parts[n].name, tally);
        RewritesMore(rewrite, parts, n, result, parts[n].(name := name));
        result := result + [parts[n].(name := name)];
        PartTextsGrow(before, parts, n);
      }
      assert parts[..|parts|] == parts;
    }

    method CleanedMessage(message: Message, tally: Tally) returns (result: Message)
      requires Ready(tally)
      modifies tally
      ensures Ready(tally) && result == CleanMessage(clean, message)
      ensures tally.texts == old(tally.texts) + MessageTexts(message)
    {
      var text := CleanOne(message.text, tally);
      var activities := Activities(message.toolActivity, tally);
      var parts := Parts(message.nonTextParts, tally);
      result := message.(text := text, toolActivity := activities, nonTextParts := parts);
    }

    method Messages(messages: seq<Message>, tally: Tally) returns (result: seq<Message>)
      requires Ready(tally)
      modifies tally
      ensures Ready(tally) && |result| == |messages|
      ensures forall i | 0 <= i < |result| :: result[i] == CleanMessage(clean, messages[i])
      ensures tally.texts == old(tally.texts) + MessagesTexts(messages)
    {
      result := [];
      ghost var before, rewrite := tally.texts, (item: Message) => CleanMessage(clean, item);
      for n := 0 to |messages|
        invariant Ready(tally) && Rewrites(rewrite, messages, n, result)
        invariant tally.texts == before + MessagesTexts(messages[..n])
      {
        var one := CleanedMessage(messages[n], tally);
        RewritesMore(rewrite, messages, n, result, one);
        result := result + [one];
        MessagesTextsGrow(before, messages, n);
      }
      assert messages[..|messages|] == messages;
    }

    /** The redacted conversation, and the report of what was removed from all of its fields. */
    method Sanitize(conversation: Conversation) returns (result: Conversation, report: map<Category, nat>)
      requires Valid()
      ensures result == CleanConversation(clean, conversation)
      ensures Counts(report, RemovedFrom(removed, ConversationTexts(conversation)))
    {
      var tally := new Tally(removed);
      var title := Field(conversation.title, tally);
      var messages := Messages(conversation.messages, tally);
      assert tally.texts == ConversationTexts(conversation);
      result := conversation.(title := title, messages := messages);
      report := tally.counts;
    }
  }

  // ---------------------------------------------------------------------------------------------
  // What the specification promises
  // ---------------------------------------------------------------------------------------------

  /** A text that was not empty is not empty once redacted, so no fallback ever puts the original
      back. */
  lemma {:induction false} RedactedNotEmpty(table: Table, text: string)
    requires table.isPlaceholder([])
    ensures Redacted(table, text) == [] <==> text == []
  {
    KeptFits(table, text);
    if text == [] {
      FoundSpans(table, text);
      var kept := Kept(AllSpans(table, text));
    }
  }

  /** Identity, times, roles, kinds and the order and number of everything are untouched. */
  lemma {:induction false} IdentityIsUntouched(clean: string -> string, c: Conversation)
    ensures var after := CleanConversation(clean, c);
            && after.DocumentId() == c.DocumentId()
            && after.startedAt == c.startedAt && after.lastActivityAt == c.lastActivityAt
            && |after.messages| == |c.messages|
            && forall i | 0 <= i < |c.messages| :: SameShape(after.messages[i], c.messages[i])
  {
  }

  predicate SameShape(a: Message, b: Message) {
    && a.role == b.role && a.sentAt == b.sentAt
    && |a.toolActivity| == |b.toolActivity| && |a.nonTextParts| == |b.nonTextParts|
    && (forall i | 0 <= i < |a.toolActivity| ::
          && a.toolActivity[i].request.None? == b.toolActivity[i].request.None?
          && a.toolActivity[i].result.None? == b.toolActivity[i].result.None?)
    && (forall i | 0 <= i < |a.nonTextParts| ::
          && a.nonTextParts[i].kind == b.nonTextParts[i].kind
          && a.nonTextParts[i].name.None? == b.nonTextParts[i].name.None?)
  }

  /** The texts of the result are the texts of the conversation, each redacted once, in order. */
  lemma {:induction false} EveryTextIsRedacted(clean: string -> string, c: Conversation)
    ensures ConversationTexts(CleanConversation(clean, c)) == CleanTexts(clean, ConversationTexts(c))
  {
    MessagesRedacted(clean, c.messages, CleanConversation(clean, c).messages);
    FieldRedacted(clean, c.title);
    CleanTextsSum(clean, FieldTexts(c.title), MessagesTexts(c.messages));
  }

  function CleanTexts(clean: string -> string, texts: seq<string>): seq<string>
  {
    seq(|texts|, i requires 0 <= i < |texts| => clean(texts[i]))
  }

  lemma {:induction false} CleanTextsSum(clean: string -> string, a: seq<string>, b: seq<string>)
    ensures CleanTexts(clean, a + b) == CleanTexts(clean, a) + CleanTexts(clean, b)
  {
  }

  lemma {:induction false} FieldRedacted(clean: string -> string, field: Option<string>)
    ensures FieldTexts(CleanField(clean, field)) == CleanTexts(clean, FieldTexts(field))
  {
  }

  lemma {:induction false} ActivitiesRedacted(clean: string -> string, activities: seq<ToolActivity>, after: seq<ToolActivity>)
    requires |after| == |activities|
    requires forall i | 0 <= i < |after| :: after[i] == CleanActivity(clean, activities[i])
    ensures ActivityTexts(after) == CleanTexts(clean, ActivityTexts(activities))
  {
    if activities != [] {
      var n := |activities| - 1;
      var last := activities[n];
      ActivitiesRedacted(clean, activities[..n], after[..n]);
      FieldRedacted(clean, last.request);
      FieldRedacted(clean, last.result);
      CleanTextsSum(clean, [last.name], FieldTexts(last.request));
      CleanTextsSum(clean, [last.name] + FieldTexts(last.request), FieldTexts(last.result));
      CleanTextsSum(clean, ActivityTexts(activities[..n]), OneActivityTexts(last));
      assert CleanTexts(clean, [last.name]) == [clean(last.name)];
    }
  }

  lemma {:induction false} PartsRedacted(clean: string -> string, parts: seq<NonTextPart>, after: seq<NonTextPart>)
    requires |after| == |parts|
    requires forall i | 0 <= i < |after| :: after[i] == CleanPart(clean, parts[i])
    ensures PartTexts(after) == CleanTexts(clean, PartTexts(parts))
  {
    if parts != [] {
      var n := |parts| - 1;
      PartsRedacted(clean, parts[..n], after[..n]);
      FieldRedacted(clean, parts[n].name);
      CleanTextsSum(clean, PartTexts(parts[..n]), FieldTexts(parts[n].name));
    }
  }

  lemma {:induction false} MessagesRedacted(clean: string -> string, messages: seq<Message>, after: seq<Message>)
    requires |after| == |messages|
    requires forall i | 0 <= i < |after| :: after[i] == CleanMessage(clean, messages[i])
    ensures MessagesTexts(after) == CleanTexts(clean, MessagesTexts(messages))
  {
    if messages != [] {
      var n := |messages| - 1;
      var m := messages[n];
      MessagesRedacted(clean, messages[..n], after[..n]);
      ActivitiesRedacted(clean, m.toolActivity, after[n].toolActivity);
      PartsRedacted(clean, m.nonTextParts, after[n].nonTextParts);
      CleanTextsSum(clean, [m.text], ActivityTexts(m.toolActivity));
      CleanTextsSum(clean, [m.text] + ActivityTexts(m.toolActivity), PartTexts(m.nonTextParts));
      CleanTextsSum(clean, MessagesTexts(messages[..n]), MessageTexts(m));
      assert CleanTexts(clean, [m.text]) == [clean(m.text)];
    }
  }
}
