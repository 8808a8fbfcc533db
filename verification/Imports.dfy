/** What the archive holds after any history of imports, and what replaying it yields. */
module Imports {
  import opened Wrappers
  import opened Conversations
  import opened ParsedRecords
  import opened Pipeline
  import Archive
  import Canonical
  import FileSystem
  import Replay
  import Sanitizer
  import Utf8

  // ---------------------------------------------------------------------------------------------
  // The last archive store of a document
  // ---------------------------------------------------------------------------------------------

  predicate Archives(event: Event, documentId: string) {
    event.Archived? && event.enriched.conversation.DocumentId() == documentId
  }

  /** The last archive store of a document that took effect: what the archive then holds of it. */
  function LastArchived(log: seq<Event>, documentId: string): (last: Option<Event>)
    ensures last.Some? ==> Archives(last.value, documentId)
  {
    if log == [] then None
    else if Archives(log[|log| - 1], documentId) then Some(log[|log| - 1])
    else LastArchived(log[..|log| - 1], documentId)
  }

  lemma {:induction false} LastOfBoth(a: seq<Event>, b: seq<Event>, documentId: string)
    ensures LastArchived(a + b, documentId)
      == if LastArchived(b, documentId).Some? then LastArchived(b, documentId) else LastArchived(a, documentId)
    decreases |b|
  {
    if b == [] {
      assert a + b == a;
    } else {
      assert (a + b)[..|a + b| - 1] == a + b[..|b| - 1];
      LastOfBoth(a, b[..|b| - 1], documentId);
    }
  }

  lemma {:induction false} SomeArchived(log: seq<Event>, i: nat, documentId: string)
    requires i < |log| && Archives(log[i], documentId)
    ensures LastArchived(log, documentId).Some?
  {
    if i < |log| - 1 {
      SomeArchived(log[..|log| - 1], i, documentId);
    }
  }

  /** The stages keep a conversation's identity. */
  ghost predicate KeepsIdentity(stages: Stages) {
    forall c {:trigger stages.sanitize(c)} :: stages.sanitize(c).DocumentId() == c.DocumentId()
  }

  /** The sanitizer does. */
  lemma {:induction false} SanitizerKeepsIdentity(stages: Stages, clean: string -> string)
    requires forall c {:trigger stages.sanitize(c)} :: stages.sanitize(c) == Sanitizer.CleanConversation(clean, c)
    ensures KeepsIdentity(stages)
  {
    forall c: Conversation ensures stages.sanitize(c).DocumentId() == c.DocumentId() {
      Sanitizer.IdentityIsUntouched(clean, c);
    }
  }

  lemma {:induction false} SourceNamesDiffer(a: Source, b: Source, x: string, y: string)
    requires SourceName(a) + ":" + x == SourceName(b) + ":" + y
    ensures a == b && x == y
  {
    var left, right := SourceName(a) + ":" + x, SourceName(b) + ":" + y;
    assert left[0] == SourceName(a)[0] && right[0] == SourceName(b)[0];
    assert left[1] == SourceName(a)[1] && right[1] == SourceName(b)[1];
    assert |SourceName(a)| > 8 ==> left[8] == SourceName(a)[8];
    assert |SourceName(b)| > 8 ==> right[8] == SourceName(b)[8];
    assert a == b;
    assert left[|SourceName(a)| + 1..] == x && right[|SourceName(b)| + 1..] == y;
  }

  /** A document is one identity's. */
  lemma {:induction false} DocumentTellsIdentity(a: Conversation, b: Conversation)
    ensures a.DocumentId() == b.DocumentId() <==> IdentityOf(a) == IdentityOf(b)
  {
    if a.DocumentId() == b.DocumentId() {
      SourceNamesDiffer(a.source, b.source, a.sourceId, b.sourceId);
    }
  }

  // ---------------------------------------------------------------------------------------------
  // What one conversation adds to the log
  // ---------------------------------------------------------------------------------------------

  /** What is archived of one item, and how its import is recorded where its content can be hashed. */
  datatype Part = Part(identity: Identity, enriched: Enriched, original: OriginalPayload, record: Option<ImportRecord>)

  function PartOf(stages: Stages, item: SourceConversation): Part {
    var c, hash := item.conversation, ContentHash(stages, item.conversation);
    Part(IdentityOf(c), EnrichedFrom(stages, c), item.original, if hash.Some? then Some(RecordOf(c, hash.value, None)) else None)
  }

  /** The archive store, the retain and the record of one item, or the first of these. */
  predicate IsWork(part: Part, work: seq<Event>) {
    && |work| <= 3
    && (|work| > 0 ==> work[0].Archived? && work[0].enriched == part.enriched && work[0].original == part.original)
    && (|work| > 1 ==> work[1].Remembered?)
    && (|work| > 2 ==> part.record.Some? && work[2] == Recorded(part.record.value))
  }

  predicate IsFailure(part: Part, event: Event) {
    event.Recorded? && event.record.identity == part.identity && event.record.status == Failed
  }

  /** That work, and the record of a failure where there is one. */
  predicate IsEpisode(part: Part, added: seq<Event>) {
    var n := |added| - 1;
    IsWork(part, added) || (n >= 0 && IsWork(part, added[..n]) && IsFailure(part, added[n]))
  }

  lemma {:induction false} WorkAdds(stages: Stages, w: World, item: SourceConversation, plan: Plan, contentHash: string)
    returns (work: seq<Event>)
    requires ContentHash(stages, item.conversation) == Some(contentHash)
    ensures IsWork(PartOf(stages, item), work) && Work(stages, w, item, plan, contentHash).world.log == w.log + work
    ensures Clean(plan) ==> |work| == 3 && work[0].returned
  {
    var c := item.conversation;
    var stored := Archived(EnrichedFrom(stages, c), item.original, plan.archive.Fine?);
    var kept := Remembered(EnrichedFrom(stages, c), plan.retain.Fine?);
    work := [];
    if plan.sanitize.Fine? && plan.classify.Fine? && plan.enrich.Fine? && plan.archive.TakesEffect() {
      work := [stored];
      if plan.archive.Fine? && plan.retain.TakesEffect() {
        work := [stored, kept];
        assert w.log + [stored] + [kept] == w.log + [stored, kept];
        if plan.retain.Fine? && plan.write.TakesEffect() {
          var record := Recorded(RecordOf(c, contentHash, None));
          work := [stored, kept, record];
          assert w.log + [stored, kept] + [record] == w.log + work;
        }
      }
    }
    assert work == [] ==> w.log + work == w.log;
  }

  lemma {:induction false} EndedAdds(part: Part, log: seq<Event>, reached: Reached, c: Conversation, contentHash: Option<string>,
                                    writeFailure: Fate, work: seq<Event>)
    returns (added: seq<Event>)
    requires IsWork(part, work) && reached.world.log == log + work && part.identity == IdentityOf(c)
    ensures IsEpisode(part, added) && Ended(reached, c, contentHash, writeFailure).world.log == log + added
    ensures reached.fate.Fine? ==> added == work
  {
    added := work;
    if reached.fate.Raises? && contentHash.Some? && writeFailure.TakesEffect() {
      var failure := Recorded(RecordOf(c, contentHash.value, Some(reached.stage)));
      added := work + [failure];
      assert added[..|added| - 1] == work;
      assert log + work + [failure] == log + added;
    }
  }

  lemma {:induction false} ProcessAdds(stages: Stages, w: World, item: SourceConversation, plan: Plan, force: bool)
    returns (added: seq<Event>)
    ensures IsEpisode(PartOf(stages, item), added) && ProcessOne(stages, w, item, plan, force).world.log == w.log + added
    ensures Reach(stages, w, item, plan, force).None? ==> added == []
    ensures Clean(plan) && Reach(stages, w, item, plan, force).Some? && ContentHash(stages, item.conversation).Some? ==>
      |added| == 3 && added[0] == OwnArchived(stages, item)
  {
    var c, reached, part := item.conversation, Reach(stages, w, item, plan, force), PartOf(stages, item);
    added := [];
    assert w.log + added == w.log;
    if reached.Some? {
      if HashFate(stages, c, plan).Fine? && plan.find.Fine? {
        added := WorkAdds(stages, w, item, plan, ContentHash(stages, c).value);
      }
      var hash := if reached.value.stage == Hash then None else ContentHash(stages, c);
      added := EndedAdds(part, w.log, reached.value, c, hash, plan.writeFailure, added);
    }
  }

  function OwnArchived(stages: Stages, item: SourceConversation): Event {
    Archived(EnrichedFrom(stages, item.conversation), item.original, true)
  }

  lemma {:induction false} NoneArchived(log: seq<Event>, documentId: string)
    requires forall i | 0 <= i < |log| :: !Archives(log[i], documentId)
    ensures LastArchived(log, documentId) == None
  {
    if log != [] {
      NoneArchived(log[..|log| - 1], documentId);
    }
  }

  /** An episode archives nothing but its own part, first of all. */
  lemma {:induction false} EpisodeOpens(part: Part, added: seq<Event>)
    requires IsEpisode(part, added)
    ensures forall i | 0 < i < |added| :: !added[i].Archived?
    ensures added != [] && added[0].Archived? ==> added[0].enriched == part.enriched && added[0].original == part.original
  {
  }

  /** After an episode a document is held as before, or, if it is the episode's own, as that says. */
  lemma {:induction false} EpisodeArchives(part: Part, log: seq<Event>, added: seq<Event>, documentId: string)
    requires IsEpisode(part, added)
    ensures LastArchived(log + added, documentId)
      == if documentId == part.enriched.conversation.DocumentId() && added != [] && added[0].Archived? then Some(added[0])
         else LastArchived(log, documentId)
  {
    EpisodeOpens(part, added);
    LastOfBoth(log, added, documentId);
    if added != [] {
      if Archives(added[0], documentId) {
        FirstArchived(added, documentId);
      } else {
        NoneArchived(added, documentId);
      }
    }
  }

  lemma {:induction false} FirstArchived(log: seq<Event>, documentId: string)
    requires log != [] && Archives(log[0], documentId) && forall i | 0 < i < |log| :: !Archives(log[i], documentId)
    ensures LastArchived(log, documentId) == Some(log[0])
  {
    NoneArchived(log[1..], documentId);
    assert log == [log[0]] + log[1..];
    LastOfBoth([log[0]], log[1..], documentId);
  }

  // ---------------------------------------------------------------------------------------------
  // What a run leaves in the archive
  // ---------------------------------------------------------------------------------------------

  function DocumentOf(arrival: Arrival): Option<string> {
    if arrival.Arrives? then Some(arrival.item.conversation.DocumentId()) else None
  }

  lemma {:induction false} ArrivalArchives(stages: Stages, w: World, arrival: Arrival, force: bool, documentId: string)
    requires KeepsIdentity(stages) && DocumentOf(arrival) != Some(documentId)
    ensures LastArchived(WorldAfter(stages, w, arrival, force).log, documentId) == LastArchived(w.log, documentId)
  {
    if arrival.Arrives? {
      var c := arrival.item.conversation;
      assert stages.sanitize(c).DocumentId() == c.DocumentId();
      var added := ProcessAdds(stages, w, arrival.item, arrival.plan, force);
      EpisodeArchives(PartOf(stages, arrival.item), w.log, added, documentId);
    }
  }

  /** A document that does not arrive is held as before. */
  lemma {:induction false} OthersStayArchived(stages: Stages, w: World, arrivals: seq<Arrival>, force: bool,
                                             outcomes: seq<ConversationOutcome>, documentId: string)
    requires KeepsIdentity(stages) && AllUnhindered(stages, arrivals) && DistinctArrivals(arrivals)
    requires forall i | 0 <= i < |arrivals| :: DocumentOf(arrivals[i]) != Some(documentId)
    ensures LastArchived(RunOver(stages, w, arrivals, force, outcomes).world.log, documentId) == LastArchived(w.log, documentId)
    decreases |arrivals|
  {
    if arrivals != [] {
      RestUnhindered(stages, arrivals);
      var later := UnhinderedStep(stages, w, arrivals, force, outcomes);
      ArrivalArchives(stages, w, arrivals[0], force, documentId);
      forall i | 0 <= i < |arrivals[1..]| ensures DocumentOf(arrivals[1..][i]) != Some(documentId) {
        assert DocumentOf(arrivals[i + 1]) != Some(documentId);
      }
      OthersStayArchived(stages, WorldAfter(stages, w, arrivals[0], force), arrivals[1..], force, later, documentId);
    }
  }

  /** Whether an arrival is passed over as imported already. */
  predicate Skips(stages: Stages, w: World, arrival: Arrival, force: bool)
    requires arrival.Arrives?
  {
    !force && IsImported(stages, w, arrival.item.conversation)
  }

  lemma {:induction false} ArrivesFirst(stages: Stages, w: World, arrival: Arrival, force: bool)
    requires KeepsIdentity(stages) && arrival.Arrives? && Unhindered(stages, arrival)
    ensures LastArchived(WorldAfter(stages, w, arrival, force).log, arrival.item.conversation.DocumentId())
      == HeldAfter(stages, w, arrival, force)
  {
    var item, c := arrival.item, arrival.item.conversation;
    assert stages.sanitize(c).DocumentId() == c.DocumentId();
    ReachTells(stages, w, item, arrival.plan, force);
    var added := ProcessAdds(stages, w, item, arrival.plan, force);
    EpisodeArchives(PartOf(stages, item), w.log, added, c.DocumentId());
  }

  /** What the document of an arrival is held as, once the run that began in `w` is over. */
  function HeldAfter(stages: Stages, w: World, arrival: Arrival, force: bool): Option<Event>
    requires arrival.Arrives?
  {
    if Skips(stages, w, arrival, force) then LastArchived(w.log, arrival.item.conversation.DocumentId())
    else Some(OwnArchived(stages, arrival.item))
  }

  lemma {:induction false} FirstIsHeld(stages: Stages, w: World, arrivals: seq<Arrival>, force: bool, outcomes: seq<ConversationOutcome>)
    requires KeepsIdentity(stages) && AllUnhindered(stages, arrivals) && DistinctArrivals(arrivals)
    requires arrivals != [] && arrivals[0].Arrives?
    ensures LastArchived(RunOver(stages, w, arrivals, force, outcomes).world.log, arrivals[0].item.conversation.DocumentId())
      == HeldAfter(stages, w, arrivals[0], force)
  {
    RestUnhindered(stages, arrivals);
    var later := UnhinderedStep(stages, w, arrivals, force, outcomes);
    ArrivesFirst(stages, w, arrivals[0], force);
    NotAmongTheRest(arrivals);
    OthersStayArchived(stages, WorldAfter(stages, w, arrivals[0], force), arrivals[1..], force, later,
                       arrivals[0].item.conversation.DocumentId());
  }

  /** The world an arrival of a run in which nothing fails meets: of its own document, the one the run
      began in. */
  lemma {:induction false} WorldBefore(stages: Stages, w: World, arrivals: seq<Arrival>, force: bool,
                                      outcomes: seq<ConversationOutcome>, i: nat)
    returns (before: World, later: seq<ConversationOutcome>)
    requires KeepsIdentity(stages) && AllUnhindered(stages, arrivals) && DistinctArrivals(arrivals)
    requires i < |arrivals| && arrivals[i].Arrives?
    ensures RunOver(stages, w, arrivals, force, outcomes) == RunOver(stages, before, arrivals[i..], force, later)
    ensures AllUnhindered(stages, arrivals[i..]) && DistinctArrivals(arrivals[i..])
    ensures var c := arrivals[i].item.conversation;
      && before.Find(IdentityOf(c)) == w.Find(IdentityOf(c))
      && LastArchived(before.log, c.DocumentId()) == LastArchived(w.log, c.DocumentId())
    decreases |arrivals|
  {
    if i == 0 {
      before, later := w, outcomes;
      assert arrivals[0..] == arrivals;
    } else {
      RestUnhindered(stages, arrivals);
      NotTheFirst(stages, w, arrivals, force, i);
      var next := UnhinderedStep(stages, w, arrivals, force, outcomes);
      before, later := WorldBefore(stages, WorldAfter(stages, w, arrivals[0], force), arrivals[1..], force, next, i - 1);
      assert arrivals[1..][i - 1..] == arrivals[i..];
    }
  }

  /** After a run in which nothing fails, a document that arrived is held as it arrived, unless it was
      skipped; then it is held as before the run. */
  lemma {:induction false} CleanRunArchives(stages: Stages, w: World, arrivals: seq<Arrival>, force: bool,
                                           outcomes: seq<ConversationOutcome>, i: nat)
    requires KeepsIdentity(stages) && AllUnhindered(stages, arrivals) && DistinctArrivals(arrivals)
    requires i < |arrivals| && arrivals[i].Arrives?
    ensures LastArchived(RunOver(stages, w, arrivals, force, outcomes).world.log, arrivals[i].item.conversation.DocumentId())
      == HeldAfter(stages, w, arrivals[i], force)
  {
    var before, later := WorldBefore(stages, w, arrivals, force, outcomes, i);
    FirstIsHeld(stages, before, arrivals[i..], force, later);
    assert HeldAfter(stages, before, arrivals[i], force) == HeldAfter(stages, w, arrivals[i], force);
  }

  lemma {:induction false} NotAmongTheRest(arrivals: seq<Arrival>)
    requires DistinctArrivals(arrivals) && arrivals != [] && arrivals[0].Arrives?
    ensures var d := arrivals[0].item.conversation.DocumentId(); var rest := arrivals[1..];
      forall j | 0 <= j < |rest| :: DocumentOf(rest[j]) != Some(d)
  {
    var c, rest := arrivals[0].item.conversation, arrivals[1..];
    forall j | 0 <= j < |rest| ensures DocumentOf(rest[j]) != Some(c.DocumentId()) {
      assert ArrivalIdentity(arrivals[0]) != ArrivalIdentity(arrivals[j + 1]);
      if rest[j].Arrives? {
        DocumentTellsIdentity(rest[j].item.conversation, c);
      }
    }
  }

  /** What arrives first decides nothing about what arrives later. */
  lemma {:induction false} NotTheFirst(stages: Stages, w: World, arrivals: seq<Arrival>, force: bool, i: nat)
    requires KeepsIdentity(stages) && AllUnhindered(stages, arrivals) && DistinctArrivals(arrivals)
    requires 0 < i < |arrivals| && arrivals[i].Arrives?
    ensures var next, c := WorldAfter(stages, w, arrivals[0], force), arrivals[i].item.conversation;
      && next.Find(IdentityOf(c)) == w.Find(IdentityOf(c))
      && LastArchived(next.log, c.DocumentId()) == LastArchived(w.log, c.DocumentId())
  {
    var c := arrivals[i].item.conversation;
    if arrivals[0].Arrives? {
      assert ArrivalIdentity(arrivals[0]) != ArrivalIdentity(arrivals[i]);
      DocumentTellsIdentity(arrivals[0].item.conversation, c);
    }
    ArrivalArchives(stages, w, arrivals[0], force, c.DocumentId());
    var later := UnhinderedStep(stages, w, arrivals, force, []);
    assert WorldAfter(stages, w, arrivals[0], force).Find(IdentityOf(c)) == w.Find(IdentityOf(c));
  }

  /** The same conversation under another title, or with other times: importing it again without force
      moves nothing, and the archive keeps the first original. */
  lemma {:induction false} RenamedIsNotArchived(stages: Stages, item: SourceConversation, plan: Plan, renamed: SourceConversation, again: Plan)
    requires KeepsIdentity(stages) && Unhindered(stages, Arrives(item, plan)) && Clean(again)
    requires IdentityOf(renamed.conversation) == IdentityOf(item.conversation)
    requires Canonical.Content(renamed.conversation) == Canonical.Content(item.conversation)
    ensures var first := RunOver(stages, EMPTY, [Arrives(item, plan)], false, []).world;
      var second := RunOver(stages, first, [Arrives(renamed, again)], false, []).world;
      second == first && LastArchived(second.log, renamed.conversation.DocumentId()) == Some(OwnArchived(stages, item))
  {
    var arrivals, arrival := [Arrives(item, plan)], Arrives(renamed, again);
    var first := RunOver(stages, EMPTY, arrivals, false, []).world;
    Converges(stages, EMPTY, arrivals, false, []);
    CleanRunArchives(stages, EMPTY, arrivals, false, [], 0);
    assert Landed(stages, first, arrivals[0]);
    Canonical.EqualBytesEqualContent(item.conversation, renamed.conversation);
    assert IsImported(stages, first, renamed.conversation);
    UnchangedIsSkipped(stages, first, [arrival], []);
  }

  /** So after a conversation was given another title, what the archive holds tells the old one. */
  lemma {:induction false} RetitledIsNotReplayed(stages: Stages, read: MessageReader, item: SourceConversation, plan: Plan,
                                                title: Option<string>, original: OriginalPayload, again: Plan)
    requires KeepsIdentity(stages) && Unhindered(stages, Arrives(item, plan)) && Clean(again)
    requires Replay.Tells(read, item.original, item.conversation) && title != item.conversation.title
    ensures var renamed := SourceConversation(item.conversation.(title := title), original);
      var first := RunOver(stages, EMPTY, [Arrives(item, plan)], false, []).world;
      var second := RunOver(stages, first, [Arrives(renamed, again)], false, []).world;
      var held := LastArchived(second.log, renamed.conversation.DocumentId());
      && second == first && held.Some?
      && Replay.Tells(read, held.value.original, item.conversation) && !Replay.Tells(read, held.value.original, renamed.conversation)
  {
    var renamed := SourceConversation(item.conversation.(title := title), original);
    RenamedIsNotArchived(stages, item, plan, renamed, again);
    if Replay.Tells(read, item.original, renamed.conversation) {
      Replay.TellsOneThing(read, item.original, item.conversation, renamed.conversation);
    }
  }

  // ---------------------------------------------------------------------------------------------
  // Where the log comes from
  // ---------------------------------------------------------------------------------------------

  /** What was archived is one conversation's original, and what the stages make of it. */
  ghost predicate Origin(stages: Stages, read: MessageReader, event: Event, c: Conversation) {
    event.Archived? && Replay.Tells(read, event.original, c) && event.enriched == EnrichedFrom(stages, c)
  }

  /** It was of the identity and the content that the record says are imported. */
  ghost predicate OriginOf(stages: Stages, read: MessageReader, event: Event, record: ImportRecord, c: Conversation) {
    Origin(stages, read, event, c) && IdentityOf(c) == record.identity && ContentHash(stages, c) == Some(record.contentHash)
  }

  /** What is asked of an archive store, and of one whose import is recorded. */
  datatype Trace = Trace(told: Event -> bool, imports: (Event, ImportRecord) -> bool)

  ghost function TraceOf(stages: Stages, read: MessageReader): Trace {
    Trace((event: Event) => exists c :: Origin(stages, read, event, c),
          (event: Event, record: ImportRecord) => exists c :: OriginOf(stages, read, event, record, c))
  }

  /** Each archive store has an origin; each import recorded follows a retain, and that the archive
      store of what it records. */
  ghost predicate IsTraced(trace: Trace, log: seq<Event>, k: nat)
    requires k < |log|
  {
    match log[k]
    case Archived(_, _, _) => trace.told(log[k])
    case Remembered(_, _) => true
    case Recorded(record) =>
      record.status == Imported ==>
        k >= 2 && log[k - 1].Remembered? && log[k - 2].Archived? && trace.imports(log[k - 2], record)
  }

  ghost predicate Traced(trace: Trace, log: seq<Event>) {
    forall k | 0 <= k < |log| :: IsTraced(trace, log, k)
  }

  lemma {:induction false} TracedStays(trace: Trace, log: seq<Event>, added: seq<Event>, k: nat)
    requires k < |log| && IsTraced(trace, log, k)
    ensures IsTraced(trace, log + added, k)
  {
    var longer := log + added;
    assert longer[k] == log[k] && (k >= 1 ==> longer[k - 1] == log[k - 1]) && (k >= 2 ==> longer[k - 2] == log[k - 2]);
  }

  lemma {:induction false} PrefixIsTraced(trace: Trace, log: seq<Event>)
    requires Traced(trace, log) && log != []
    ensures Traced(trace, log[..|log| - 1])
  {
    var shorter := log[..|log| - 1];
    forall k | 0 <= k < |shorter| ensures IsTraced(trace, shorter, k) {
      assert IsTraced(trace, log, k);
      assert shorter[k] == log[k] && (k >= 1 ==> shorter[k - 1] == log[k - 1]) && (k >= 2 ==> shorter[k - 2] == log[k - 2]);
    }
  }

  /** What an episode archives has an origin, and that is what it records as imported. */
  ghost predicate OpensTold(trace: Trace, part: Part, event: Event) {
    trace.told(event) && (part.record.Some? ==> trace.imports(event, part.record.value))
  }

  lemma {:induction false} EpisodeShape(part: Part, added: seq<Event>, k: nat)
    requires IsEpisode(part, added) && k < |added|
    ensures added[k].Archived? ==> k == 0
    ensures added[k].Recorded? && added[k].record.status == Imported ==>
      k == 2 && added[0].Archived? && added[1].Remembered? && part.record == Some(added[k].record)
  {
  }

  lemma {:induction false} EpisodeIsTraced(trace: Trace, part: Part, log: seq<Event>, added: seq<Event>, k: nat)
    requires IsEpisode(part, added) && k < |added| && (added[0].Archived? ==> OpensTold(trace, part, added[0]))
    ensures IsTraced(trace, log + added, |log| + k)
  {
    var longer, at := log + added, |log| + k;
    EpisodeShape(part, added, k);
    assert longer[at] == added[k] && (k >= 1 ==> longer[at - 1] == added[k - 1]) && (k >= 2 ==> longer[at - 2] == added[k - 2]);
  }

  lemma {:induction false} EpisodeKeepsTraced(trace: Trace, part: Part, log: seq<Event>, added: seq<Event>)
    requires Traced(trace, log) && IsEpisode(part, added)
    requires added != [] && added[0].Archived? ==> OpensTold(trace, part, added[0])
    ensures Traced(trace, log + added)
  {
    forall k | 0 <= k < |log + added| ensures IsTraced(trace, log + added, k) {
      if k < |log| {
        TracedStays(trace, log, added, k);
      } else {
        EpisodeIsTraced(trace, part, log, added, k - |log|);
      }
    }
  }

  lemma {:induction false} ItemIsTold(stages: Stages, read: MessageReader, item: SourceConversation, event: Event)
    requires Replay.Tells(read, item.original, item.conversation)
    requires event.Archived? && event.enriched == EnrichedFrom(stages, item.conversation) && event.original == item.original
    ensures OpensTold(TraceOf(stages, read), PartOf(stages, item), event)
  {
    assert Origin(stages, read, event, item.conversation);
    var hash := ContentHash(stages, item.conversation);
    if hash.Some? {
      assert OriginOf(stages, read, event, RecordOf(item.conversation, hash.value, None), item.conversation);
    }
  }

  /** What arrive are conversations with the originals that tell them, as a source yields them. */
  ghost predicate AllTold(read: MessageReader, arrivals: seq<Arrival>) {
    forall i | 0 <= i < |arrivals| && arrivals[i].Arrives? ::
      Replay.Tells(read, arrivals[i].item.original, arrivals[i].item.conversation)
  }

  ghost predicate AllRunsTold(read: MessageReader, runs: seq<Invocation>) {
    forall r | 0 <= r < |runs| :: AllTold(read, runs[r].arrivals)
  }

  lemma {:induction false} ProcessKeepsTraced(stages: Stages, read: MessageReader, w: World, item: SourceConversation, plan: Plan, force: bool)
    requires Traced(TraceOf(stages, read), w.log) && Replay.Tells(read, item.original, item.conversation)
    ensures Traced(TraceOf(stages, read), ProcessOne(stages, w, item, plan, force).world.log)
  {
    var added := ProcessAdds(stages, w, item, plan, force);
    EpisodeOpens(PartOf(stages, item), added);
    if added != [] && added[0].Archived? {
      ItemIsTold(stages, read, item, added[0]);
    }
    EpisodeKeepsTraced(TraceOf(stages, read), PartOf(stages, item), w.log, added);
  }

  lemma {:induction false} RunKeepsTraced(stages: Stages, read: MessageReader, w: World, arrivals: seq<Arrival>, force: bool,
                                         outcomes: seq<ConversationOutcome>)
    requires Traced(TraceOf(stages, read), w.log) && AllTold(read, arrivals)
    ensures Traced(TraceOf(stages, read), RunOver(stages, w, arrivals, force, outcomes).world.log)
    decreases |arrivals|
  {
    if arrivals != [] {
      match arrivals[0] {
        case Arrives(item, plan) =>
          ProcessKeepsTraced(stages, read, w, item, plan, force);
          var done := ProcessOne(stages, w, item, plan, force);
          if done.outcome.Some? {
            RunKeepsTraced(stages, read, done.world, arrivals[1..], force, outcomes + [done.outcome.value]);
          }
        case Malformed(subject) =>
          RunKeepsTraced(stages, read, w, arrivals[1..], force, outcomes + [MalformedOutcome(stages, subject)]);
        case _ =>
      }
    }
  }

  lemma {:induction false} HistoryIsTraced(stages: Stages, read: MessageReader, w: World, runs: seq<Invocation>)
    requires Traced(TraceOf(stages, read), w.log) && AllRunsTold(read, runs)
    ensures Traced(TraceOf(stages, read), History(stages, w, runs).log)
    decreases |runs|
  {
    if runs != [] {
      assert AllTold(read, runs[0].arrivals);
      RunKeepsTraced(stages, read, w, runs[0].arrivals, runs[0].force, []);
      HistoryIsTraced(stages, read, RunOver(stages, w, runs[0].arrivals, runs[0].force, []).world, runs[1..]);
    }
  }

  lemma {:induction false} LastIsTold(trace: Trace, log: seq<Event>, documentId: string)
    requires Traced(trace, log) && LastArchived(log, documentId).Some?
    ensures trace.told(LastArchived(log, documentId).value)
    decreases |log|
  {
    var n := |log| - 1;
    if Archives(log[n], documentId) {
      assert IsTraced(trace, log, n);
    } else {
      PrefixIsTraced(trace, log);
      LastIsTold(trace, log[..n], documentId);
    }
  }

  // ---------------------------------------------------------------------------------------------
  // What a skip leaves in the archive
  // ---------------------------------------------------------------------------------------------

  /** Since the last archive store of the document that took effect, its import or failure was recorded. */
  predicate RecordedSince(log: seq<Event>, identity: Identity, documentId: string) {
    if log == [] || Archives(log[|log| - 1], documentId) then false
    else if log[|log| - 1].Recorded? && log[|log| - 1].record.identity == identity then true
    else RecordedSince(log[..|log| - 1], identity, documentId)
  }

  /** The archive stores that imports of this identity record are of this document. */
  ghost predicate Files(trace: Trace, identity: Identity, documentId: string) {
    forall event: Event, record: ImportRecord {:trigger trace.imports(event, record)} |
      event.Archived? && trace.imports(event, record) && record.identity == identity :: Archives(event, documentId)
  }

  lemma {:induction false} ThreeBack(log: seq<Event>, documentId: string)
    requires |log| >= 3 && Archives(log[|log| - 3], documentId) && !log[|log| - 2].Archived? && !log[|log| - 1].Archived?
    ensures LastArchived(log, documentId) == Some(log[|log| - 3])
  {
    var n := |log|;
    var one, two := log[..n - 1], log[..n - 2];
    assert one[..n - 2] == two && one[n - 2] == log[n - 2] && two[n - 3] == log[n - 3];
    assert LastArchived(two, documentId) == Some(log[n - 3]);
    assert LastArchived(one, documentId) == LastArchived(two, documentId);
  }

  /** Then what is recorded as imported is what the archive holds. */
  lemma {:induction false} RecordedIsHeld(trace: Trace, log: seq<Event>, identity: Identity, documentId: string)
    requires Traced(trace, log) && Files(trace, identity, documentId)
    requires identity in LastRecords(log) && LastRecords(log)[identity].status == Imported
    requires RecordedSince(log, identity, documentId)
    ensures var held := LastArchived(log, documentId);
      held.Some? && LastRecords(log)[identity].identity == identity && trace.imports(held.value, LastRecords(log)[identity])
    decreases |log|
  {
    var n := |log| - 1;
    if log[n].Recorded? && log[n].record.identity == identity {
      assert IsTraced(trace, log, n);
      assert trace.imports(log[n - 2], log[n].record);
      ThreeBack(log, documentId);
    } else {
      PrefixIsTraced(trace, log);
      RecordedIsHeld(trace, log[..n], identity, documentId);
    }
  }

  // ---------------------------------------------------------------------------------------------
  // The log and the disk
  // ---------------------------------------------------------------------------------------------

  /** Every record reads as before. */
  ghost predicate Quiet(before: FileSystem.Fs, after: FileSystem.Fs) {
    forall name: string {:trigger after.Read(name)} | FileSystem.IsRecord(name) :: after.Read(name) == before.Read(name)
  }

  /** The disk before and after an event: an archive store replaces its own record, and nothing else
      touches any. */
  ghost predicate Logged(codec: Archive.Codec, before: FileSystem.Fs, after: FileSystem.Fs, event: Event) {
    match event
    case Archived(enriched, original, _) =>
      var stored := Archive.RecordName(codec, enriched.conversation.DocumentId());
      && Archive.Holds(codec, after, enriched, original)
      && forall name: string {:trigger after.Read(name)} | FileSystem.IsRecord(name) && name != stored :: after.Read(name) == before.Read(name)
    case _ => Quiet(before, after)
  }

  /** A store on disk, as the pipeline meets it: what it leaves is that of an archive store that took
      effect, or of none. */
  method Store(archive: Archive.LocalRawArchive, enriched: Enriched, original: OriginalPayload, temporary: string, file: nat)
    returns (fate: Fate)
    requires archive.Valid() && Archive.IsTemporary(temporary)
    requires temporary !in archive.disk.fs.entries && file !in archive.disk.fs.data
    modifies archive.disk
    ensures archive.Valid() && !fate.Stops?
    ensures if fate.TakesEffect()
      then Logged(archive.codec, old(archive.disk.fs), archive.disk.fs, Archived(enriched, original, fate.Fine?))
      else Quiet(old(archive.disk.fs), archive.disk.fs)
  {
    var codec, stored := archive.codec, enriched.conversation.DocumentId();
    var name, bytes := Archive.RecordName(codec, stored), codec.dump(Archive.EnvelopeOf(codec, enriched, original));
    ghost var before := archive.disk.fs;
    Archive.RecordNamesAreRecords(codec, stored);
    var error := archive.Store(enriched, original, temporary, file);
    StoresAreLogged(before, archive.disk.fs, name, bytes);
    fate := if error.None? then Fine else Raises(archive.disk.fs.Read(name) == Some(bytes));
  }

  lemma {:induction false} StoresAreLogged(before: FileSystem.Fs, after: FileSystem.Fs, name: string, bytes: seq<Utf8.Byte>)
    requires FileSystem.Steady(before, after, name, bytes) && FileSystem.IsRecord(name)
    ensures forall other: string {:trigger after.Read(other)} | FileSystem.IsRecord(other) && other != name ::
      after.Read(other) == before.Read(other)
    ensures after.Read(name) == Some(bytes) || Quiet(before, after)
  {
    forall other: string | FileSystem.IsRecord(other)
      ensures after.Read(other) == before.Read(other) || (other == name && after.Read(other) == Some(bytes))
    {
      assert FileSystem.Replaces(before, after, name, bytes, other);
    }
  }

  /** A disk that goes along with a log, event by event. */
  ghost predicate Follows(codec: Archive.Codec, states: seq<FileSystem.Fs>, log: seq<Event>) {
    |states| == |log| + 1 && forall k | 0 <= k < |log| :: Logged(codec, states[k], states[k + 1], log[k])
  }

  /** The digest tells this document apart from all that were archived. */
  ghost predicate ApartFrom(codec: Archive.Codec, log: seq<Event>, documentId: string) {
    forall k | 0 <= k < |log| && log[k].Archived? :: Archive.Apart(codec, log[k].enriched.conversation.DocumentId(), documentId)
  }

  lemma {:induction false} WithoutLast(codec: Archive.Codec, states: seq<FileSystem.Fs>, log: seq<Event>, documentId: string)
    requires Follows(codec, states, log) && ApartFrom(codec, log, documentId) && log != []
    ensures var n := |log| - 1;
      && Follows(codec, states[..n + 1], log[..n]) && ApartFrom(codec, log[..n], documentId)
      && Logged(codec, states[n], states[n + 1], log[n])
  {
    var n := |log| - 1;
    forall k | 0 <= k < n ensures Logged(codec, states[..n + 1][k], states[..n + 1][k + 1], log[..n][k]) {
      assert Logged(codec, states[k], states[k + 1], log[k]);
    }
  }

  /** The disk holds each document as it was last archived. */
  lemma {:induction false} DiskHoldsTheLast(codec: Archive.Codec, states: seq<FileSystem.Fs>, log: seq<Event>, documentId: string)
    requires Archive.Faithful(codec) && Follows(codec, states, log) && ApartFrom(codec, log, documentId)
    requires LastArchived(log, documentId).Some?
    ensures var held := LastArchived(log, documentId).value;
      Archive.Holds(codec, states[|log|], held.enriched, held.original)
    decreases |log|
  {
    var n := |log| - 1;
    WithoutLast(codec, states, log, documentId);
    if !Archives(log[n], documentId) {
      Archive.RecordNamesAreRecords(codec, documentId);
      DiskHoldsTheLast(codec, states[..n + 1], log[..n], documentId);
      assert log[n].Archived? ==> Archive.Apart(codec, log[n].enriched.conversation.DocumentId(), documentId);
    }
  }

  // ---------------------------------------------------------------------------------------------
  // Importing and replaying
  // ---------------------------------------------------------------------------------------------

  /** Replaying the document yields this conversation, and no other. */
  ghost predicate Replays(codec: Archive.Codec, fs: FileSystem.Fs, read: MessageReader, documentId: string, said: Conversation) {
    var loaded := Archive.LoadOriginal(codec, fs, documentId);
    loaded.Success? && forall c :: Replay.ReplaysAs(read, documentId, loaded.value, c) <==> c == said
  }

  /** Whatever was archived last of a document is what replaying it yields. */
  lemma {:induction false} LastIsReplayed(codec: Archive.Codec, stages: Stages, read: MessageReader, states: seq<FileSystem.Fs>,
                                         log: seq<Event>, documentId: string)
    returns (said: Conversation)
    requires Archive.Faithful(codec) && KeepsIdentity(stages) && Follows(codec, states, log) && ApartFrom(codec, log, documentId)
    requires Traced(TraceOf(stages, read), log) && LastArchived(log, documentId).Some?
    ensures Origin(stages, read, LastArchived(log, documentId).value, said) && said.DocumentId() == documentId
    ensures Replays(codec, states[|log|], read, documentId, said)
  {
    var held := LastArchived(log, documentId).value;
    LastIsTold(TraceOf(stages, read), log, documentId);
    said :| Origin(stages, read, held, said);
    assert stages.sanitize(said).DocumentId() == said.DocumentId();
    DiskHoldsTheLast(codec, states, log, documentId);
    Archive.LoadsWhatIsHeld(codec, states[|log|], held.enriched, held.original);
    Replay.ReplaysAsItself(read, held.original, said);
  }

  lemma {:induction false} SkippedWasArchived(stages: Stages, past: seq<Invocation>, c: Conversation)
    requires KeepsIdentity(stages)
    requires var record := History(stages, EMPTY, past).Find(IdentityOf(c)); record.Some? && record.value.status == Imported
    ensures LastArchived(History(stages, EMPTY, past).log, c.DocumentId()).Some?
  {
    var w := History(stages, EMPTY, past);
    var i, imported := ImportedWasArchived(stages, past, IdentityOf(c));
    assert stages.sanitize(imported).DocumentId() == imported.DocumentId();
    DocumentTellsIdentity(imported, c);
    SomeArchived(w.log, i, c.DocumentId());
  }

  /** What replaying a document yields after a run in which nothing fails, whatever came before it: the
      conversation that arrived, unless it was skipped, or the one archived before the run. So the
      replay yields what the source last yielded if and only if that was not skipped or the archive
      held an original of it already. */
  lemma {:induction false} ReplayAfterRun(codec: Archive.Codec, stages: Stages, read: MessageReader, past: seq<Invocation>,
                                         arrivals: seq<Arrival>, force: bool, states: seq<FileSystem.Fs>, i: nat)
    returns (said: Conversation)
    requires Archive.Faithful(codec) && KeepsIdentity(stages) && AllRunsTold(read, past) && AllTold(read, arrivals)
    requires AllUnhindered(stages, arrivals) && DistinctArrivals(arrivals) && i < |arrivals| && arrivals[i].Arrives?
    requires var log := RunOver(stages, History(stages, EMPTY, past), arrivals, force, []).world.log;
      Follows(codec, states, log) && ApartFrom(codec, log, arrivals[i].item.conversation.DocumentId())
    ensures var c, w := arrivals[i].item.conversation, History(stages, EMPTY, past);
      var skipped, held := Skips(stages, w, arrivals[i], force), LastArchived(w.log, c.DocumentId());
      && Replays(codec, states[|states| - 1], read, c.DocumentId(), said)
      && (skipped ==> held.Some? && Replay.Tells(read, held.value.original, said))
      && (said == c <==> !skipped || Replay.Tells(read, held.value.original, c))
  {
    var c, w := arrivals[i].item.conversation, History(stages, EMPTY, past);
    var log := RunOver(stages, w, arrivals, force, []).world.log;
    HistoryIsTraced(stages, read, EMPTY, past);
    RunKeepsTraced(stages, read, w, arrivals, force, []);
    CleanRunArchives(stages, w, arrivals, force, [], i);
    if Skips(stages, w, arrivals[i], force) {
      SkippedWasArchived(stages, past, c);
    }
    said := LastIsReplayed(codec, stages, read, states, log, c.DocumentId());
    var held := LastArchived(log, c.DocumentId()).value;
    if Replay.Tells(read, held.original, c) {
      Replay.TellsOneThing(read, held.original, said, c);
    }
  }

  /** The digest tells the contents of these two conversations apart. */
  ghost predicate DigestTells(stages: Stages, a: Conversation, b: Conversation) {
    ContentHash(stages, a) == ContentHash(stages, b) ==> Canonical.CanonicalBytes(a) == Canonical.CanonicalBytes(b)
  }

  lemma {:induction false} ImportsFile(stages: Stages, read: MessageReader, c: Conversation)
    requires KeepsIdentity(stages)
    ensures Files(TraceOf(stages, read), IdentityOf(c), c.DocumentId())
  {
    var trace := TraceOf(stages, read);
    forall event: Event, record: ImportRecord | event.Archived? && trace.imports(event, record) && record.identity == IdentityOf(c)
      ensures Archives(event, c.DocumentId())
    {
      var imported :| OriginOf(stages, read, event, record, imported);
      assert stages.sanitize(imported).DocumentId() == imported.DocumentId();
      DocumentTellsIdentity(imported, c);
    }
  }

  lemma {:induction false} HeldAsRecorded(stages: Stages, read: MessageReader, past: seq<Invocation>, c: Conversation)
    returns (said: Conversation)
    requires KeepsIdentity(stages) && AllRunsTold(read, past)
    requires var w := History(stages, EMPTY, past);
      && IdentityOf(c) in w.records && w.records[IdentityOf(c)].status == Imported
      && RecordedSince(w.log, IdentityOf(c), c.DocumentId())
    ensures var w := History(stages, EMPTY, past); var held := LastArchived(w.log, c.DocumentId());
      held.Some? && OriginOf(stages, read, held.value, w.records[IdentityOf(c)], said)
    ensures IdentityOf(said) == IdentityOf(c)
  {
    var w, trace := History(stages, EMPTY, past), TraceOf(stages, read);
    HistoryIsTraced(stages, read, EMPTY, past);
    EveryHistoryIsSound(stages, past);
    ImportsFile(stages, read, c);
    RecordedIsHeld(trace, w.log, IdentityOf(c), c.DocumentId());
    var held, record := LastArchived(w.log, c.DocumentId()).value, w.records[IdentityOf(c)];
    assert trace.imports(held, record);
    said :| OriginOf(stages, read, held, record, said);
  }

  /** Where a skipped document's last archive store was followed by a record of it, the archive holds
      what the record says, and that has the content of what was skipped: it can differ in its title
      and in the conversation's times, but in no message. */
  lemma {:induction false} SkippedKeepsContent(stages: Stages, read: MessageReader, past: seq<Invocation>, c: Conversation)
    returns (said: Conversation)
    requires KeepsIdentity(stages) && AllRunsTold(read, past)
    requires IsImported(stages, History(stages, EMPTY, past), c)
    requires RecordedSince(History(stages, EMPTY, past).log, IdentityOf(c), c.DocumentId())
    ensures var held := LastArchived(History(stages, EMPTY, past).log, c.DocumentId());
      held.Some? && Origin(stages, read, held.value, said)
    ensures IdentityOf(said) == IdentityOf(c) && (DigestTells(stages, said, c) ==> Canonical.Content(said) == Canonical.Content(c))
  {
    said := HeldAsRecorded(stages, read, past, c);
    if DigestTells(stages, said, c) {
      SameHashSameContent(stages, said, c);
    }
  }

  lemma {:induction false} SameHashSameContent(stages: Stages, a: Conversation, b: Conversation)
    requires ContentHash(stages, a) == ContentHash(stages, b) && ContentHash(stages, b).Some? && DigestTells(stages, a, b)
    ensures Canonical.Content(a) == Canonical.Content(b)
  {
    Canonical.EqualBytesEqualContent(a, b);
  }

  // ---------------------------------------------------------------------------------------------
  // An export, imported and replayed
  // ---------------------------------------------------------------------------------------------

  function ArrivalOf(pulled: Replay.Pulled, plan: Plan): Arrival
    requires !pulled.Exhausted?
  {
    match pulled
    case Item(item) => Arrives(item, plan)
    case Malformed(subject) => Malformed(subject)
  }

  /** What an export yields, as it arrives at the pipeline: nothing fails for any of it. */
  ghost predicate ArrivesFrom(arrivals: seq<Arrival>, pulls: seq<Replay.Pulled>) {
    && |arrivals| == |pulls|
    && forall i | 0 <= i < |pulls| && !pulls[i].Exhausted? ::
      exists plan :: Clean(plan) && arrivals[i] == ArrivalOf(pulls[i], plan)
  }

  lemma {:induction false} HashedIsUnhindered(stages: Stages, item: SourceConversation, plan: Plan)
    requires Clean(plan) && Canonical.CanonicalBytes(item.conversation).Success?
    ensures Unhindered(stages, Arrives(item, plan))
  {
  }

  lemma {:induction false} PulledIsUnhindered(stages: Stages, read: MessageReader, pulled: Replay.Pulled, plan: Plan)
    requires !pulled.Exhausted? && Replay.FromRecord(read, pulled) && ReadsExportTimes(read) && Clean(plan)
    ensures Unhindered(stages, ArrivalOf(pulled, plan))
    ensures pulled.Item? ==> Replay.Tells(read, pulled.item.original, pulled.item.conversation)
    ensures pulled.Item? ==> pulled.item.conversation.source == ChatGpt
  {
    if pulled.Item? {
      var record :| Replay.SaidBy(read, pulled.item, record);
      Replay.ItemReplays(read, pulled.item, record);
      Replay.ToldCanBeHashed(read, pulled.item.original, pulled.item.conversation);
      HashedIsUnhindered(stages, pulled.item, plan);
    }
  }

  /** An export's own yield meets what a settling run asks of its arrivals. */
  lemma {:induction false} ExportArrives(stages: Stages, read: MessageReader, files: seq<string>, arrivals: seq<Arrival>)
    requires ReadsExportTimes(read) && ArrivesFrom(arrivals, Replay.PullsOf(read, files))
    ensures AllUnhindered(stages, arrivals) && DistinctArrivals(arrivals) && AllTold(read, arrivals)
  {
    var pulls := Replay.PullsOf(read, files);
    Replay.PullsAreSaid(read, Replay.NOTHING_YET, files, {});
    Replay.PullsAreDistinct(read, Replay.NOTHING_YET, files, {});
    Replay.PullsGoOn(read, Replay.NOTHING_YET, files, {});
    forall i | 0 <= i < |arrivals|
      ensures Unhindered(stages, arrivals[i])
      ensures arrivals[i].Arrives? ==> Replay.Tells(read, arrivals[i].item.original, arrivals[i].item.conversation)
      ensures arrivals[i].Arrives? ==> arrivals[i].item.conversation.source == ChatGpt && pulls[i] == Replay.Item(arrivals[i].item)
    {
      assert Replay.FromRecord(read, pulls[i]);
      var plan :| Clean(plan) && arrivals[i] == ArrivalOf(pulls[i], plan);
      PulledIsUnhindered(stages, read, pulls[i], plan);
    }
  }

  /** Any history of imports, then an export imported without a failure, then a replay of the archive:
      each document the export yielded is replayed as the conversation it yielded, unless that was
      skipped and the archive held another original. */
  lemma {:induction false} ReplayAfterImport(codec: Archive.Codec, stages: Stages, read: MessageReader, past: seq<Invocation>,
                                            files: seq<string>, arrivals: seq<Arrival>, force: bool, states: seq<FileSystem.Fs>, i: nat)
    returns (said: Conversation)
    requires Archive.Faithful(codec) && KeepsIdentity(stages) && ReadsExportTimes(read) && AllRunsTold(read, past)
    requires ArrivesFrom(arrivals, Replay.PullsOf(read, files)) && i < |arrivals| && arrivals[i].Arrives?
    requires var log := RunOver(stages, History(stages, EMPTY, past), arrivals, force, []).world.log;
      Follows(codec, states, log) && ApartFrom(codec, log, arrivals[i].item.conversation.DocumentId())
    ensures var c, w := arrivals[i].item.conversation, History(stages, EMPTY, past);
      var skipped, held := Skips(stages, w, arrivals[i], force), LastArchived(w.log, c.DocumentId());
      && Replays(codec, states[|states| - 1], read, c.DocumentId(), said)
      && (skipped ==> held.Some? && Replay.Tells(read, held.value.original, said))
      && (said == c <==> !skipped || Replay.Tells(read, held.value.original, c))
  {
    ExportArrives(stages, read, files, arrivals);
    said := ReplayAfterRun(codec, stages, read, past, arrivals, force, states, i);
  }

  /** And whatever was in the way before, it settles the import of everything it yields. */
  lemma {:induction false} ExportSettles(stages: Stages, read: MessageReader, past: seq<Invocation>, files: seq<string>,
                                        arrivals: seq<Arrival>, later: seq<Invocation>)
    requires ReadsExportTimes(read) && ArrivesFrom(arrivals, Replay.PullsOf(read, files))
    requires forall r | 0 <= r < |later| ::
      !later[r].force && forall i | 0 <= i < |later[r].arrivals| :: Repeats(arrivals, later[r].arrivals[i])
    ensures var settled := RunOver(stages, History(stages, EMPTY, past), arrivals, false, []).world;
      && (forall i | 0 <= i < |arrivals| :: Landed(stages, settled, arrivals[i]))
      && History(stages, settled, later) == settled
  {
    ExportArrives(stages, read, files, arrivals);
    OneGoodRunSettles(stages, past, arrivals, later);
  }
}
