/** Importing conversations one by one, over boundaries that may fail or be interrupted anywhere. */
module Pipeline {
  import opened Wrappers
  import opened Conversations
  import Canonical
  import Utf8

  datatype Stage = SourceStage | Hash | StateRead | Sanitize | Classify | Enrich | ArchiveStage | RetainStage | StateWrite

  datatype ImportStatus = Imported | Skipped | Failed

  datatype Identity = Identity(source: Source, sourceId: string)

  function IdentityOf(c: Conversation): Identity {
    Identity(c.source, c.sourceId)
  }

  datatype ImportRecord = ImportRecord(
    identity: Identity,
    documentId: string,
    contentHash: string,
    status: ImportStatus,
    error: Option<Stage>)
  {
    /** A skip is never remembered, and exactly the failures explain themselves. */
    predicate Valid() {
      status != Skipped && (status == Failed <==> error.Some?)
    }
  }

  /** Whether a conversation can be skipped before any other call is made. */
  predicate MaySkip(record: Option<ImportRecord>, contentHash: string, force: bool) {
    !force && record.Some? && record.value.status == Imported && record.value.contentHash == contentHash
  }

  // ---------------------------------------------------------------------------------------------
  // Boundaries
  // ---------------------------------------------------------------------------------------------

  /** What a boundary call does: return, raise, or be interrupted, having taken effect or not. */
  datatype Fate = Fine | Raises(effect: bool) | Stops(effect: bool) {

    predicate TakesEffect() {
      Fine? || effect
    }
  }

  /** What happens to each call made for one conversation. */
  datatype Plan = Plan(
    hash: Fate,
    find: Fate,
    sanitize: Fate,
    classify: Fate,
    enrich: Fate,
    archive: Fate,
    retain: Fate,
    write: Fate,
    writeFailure: Fate)

  datatype Arrival = Arrives(item: SourceConversation, plan: Plan) | Malformed(subject: Option<string>) | Breaks | Halts

  datatype Stages = Stages(
    sanitize: Conversation -> Conversation,
    classify: Conversation -> string,
    digest: seq<Utf8.Byte> -> string,
    isIdentifier: string -> bool)

  function ContentHash(stages: Stages, c: Conversation): Option<string> {
    match Canonical.CanonicalBytes(c)
    case Success(bytes) => Some(stages.digest(bytes))
    case Failure(_) => None
  }

  function EnrichedFrom(stages: Stages, c: Conversation): Enriched {
    var sanitized := stages.sanitize(c);
    Enriched(sanitized, stages.classify(sanitized))
  }

  // ---------------------------------------------------------------------------------------------
  // What runs leave behind
  // ---------------------------------------------------------------------------------------------

  /** An effect on the world outside; `returned` says whether the call that had it also returned. */
  datatype Event =
    | Archived(enriched: Enriched, original: OriginalPayload, returned: bool)
    | Remembered(enriched: Enriched, returned: bool)
    | Recorded(record: ImportRecord)

  /** The state store keeps the last record of each identity. */
  datatype World = World(records: map<Identity, ImportRecord>, log: seq<Event>) {

    function Find(identity: Identity): Option<ImportRecord> {
      if identity in records then Some(records[identity]) else None
    }

    function Add(event: Event): World {
      this.(log := log + [event])
    }

    function Record(record: ImportRecord): World {
      World(records[record.identity := record], log + [Recorded(record)])
    }
  }

  datatype ConversationOutcome = ConversationOutcome(
    sourceId: Option<string>,
    documentId: Option<string>,
    status: ImportStatus,
    error: Option<Stage>,
    stateRecordFailed: bool)

  // ---------------------------------------------------------------------------------------------
  // One conversation
  // ---------------------------------------------------------------------------------------------

  function RecordOf(c: Conversation, contentHash: string, error: Option<Stage>): (r: ImportRecord)
    ensures r.Valid()
  {
    ImportRecord(IdentityOf(c), c.DocumentId(), contentHash, if error.Some? then Failed else Imported, error)
  }

  function OutcomeOf(c: Conversation, status: ImportStatus, error: Option<Stage>, stateRecordFailed: bool): ConversationOutcome {
    ConversationOutcome(Some(c.sourceId), Some(c.DocumentId()), status, error, stateRecordFailed)
  }

  /** How far a conversation got: to the end, to an exception at some stage, or to an interruption. */
  datatype Reached = Reached(world: World, fate: Fate, stage: Stage)

  function After(world: World, fate: Fate, event: Event): World {
    if fate.TakesEffect() then world.Add(event) else world
  }

  /** Everything after the skip was refused. */
  function Work(stages: Stages, world: World, item: SourceConversation, plan: Plan, contentHash: string): Reached {
    var c := item.conversation;
    var enriched := EnrichedFrom(stages, c);
    if !plan.sanitize.Fine? then Reached(world, plan.sanitize, Sanitize)
    else if !plan.classify.Fine? then Reached(world, plan.classify, Classify)
    else if !plan.enrich.Fine? then Reached(world, plan.enrich, Enrich)
    else
      var archived := After(world, plan.archive, Archived(enriched, item.original, plan.archive.Fine?));
      if !plan.archive.Fine? then Reached(archived, plan.archive, ArchiveStage)
      else
        var remembered := After(archived, plan.retain, Remembered(enriched, plan.retain.Fine?));
        if !plan.retain.Fine? then Reached(remembered, plan.retain, RetainStage)
        else
          var record := RecordOf(c, contentHash, None);
          Reached(if plan.write.TakesEffect() then remembered.Record(record) else remembered, plan.write, StateWrite)
  }

  /** An outcome, or none when the run was interrupted. */
  datatype Processed = Processed(world: World, outcome: Option<ConversationOutcome>)

  function FailedAt(world: World, c: Conversation, contentHash: Option<string>, stage: Stage, writeFailure: Fate): Processed {
    match contentHash
    case None => Processed(world, Some(OutcomeOf(c, Failed, Some(stage), false)))
    case Some(hash) =>
      var after := if writeFailure.TakesEffect() then world.Record(RecordOf(c, hash, Some(stage))) else world;
      Processed(after, if writeFailure.Stops? then None else Some(OutcomeOf(c, Failed, Some(stage), !writeFailure.Fine?)))
  }

  function Ended(reached: Reached, c: Conversation, contentHash: Option<string>, writeFailure: Fate): Processed {
    match reached.fate
    case Stops(_) => Processed(reached.world, None)
    case Raises(_) => FailedAt(reached.world, c, contentHash, reached.stage, writeFailure)
    case Fine => Processed(reached.world, Some(OutcomeOf(c, Imported, None, false)))
  }

  /** The hash is computed, or the attempt raises: also where a message's instant has no UTC form. */
  function HashFate(stages: Stages, c: Conversation, plan: Plan): Fate {
    if plan.hash.Fine? && ContentHash(stages, c).None? then Raises(false) else plan.hash
  }

  /** How far the conversation gets; nowhere when it is skipped. */
  function Reach(stages: Stages, world: World, item: SourceConversation, plan: Plan, force: bool): Option<Reached> {
    var c := item.conversation;
    var hashFate := HashFate(stages, c, plan);
    if !hashFate.Fine? then Some(Reached(world, hashFate, Hash))
    else if !plan.find.Fine? then Some(Reached(world, plan.find, StateRead))
    else
      var hash := ContentHash(stages, c).value;
      if MaySkip(world.Find(IdentityOf(c)), hash, force) then None
      else Some(Work(stages, world, item, plan, hash))
  }

  function ProcessOne(stages: Stages, world: World, item: SourceConversation, plan: Plan, force: bool): Processed {
    var c := item.conversation;
    match Reach(stages, world, item, plan, force)
    case None => Processed(world, Some(OutcomeOf(c, Skipped, None, false)))
    case Some(reached) =>
      Ended(reached, c, if reached.stage == Hash then None else ContentHash(stages, c), plan.writeFailure)
  }

  // ---------------------------------------------------------------------------------------------
  // A run, and a history of runs
  // ---------------------------------------------------------------------------------------------

  datatype RunReport = RunReport(outcomes: seq<ConversationOutcome>, terminalError: Option<Stage>)

  /** A report, or none when the run was interrupted. */
  datatype Ran = Ran(world: World, report: Option<RunReport>)

  /** What cannot be read is reported under its identifier, where that is one. */
  function MalformedOutcome(stages: Stages, subject: Option<string>): ConversationOutcome {
    var usable := if subject.Some? && stages.isIdentifier(subject.value) then subject else None;
    ConversationOutcome(usable, None, Failed, Some(SourceStage), false)
  }

  function RunOver(stages: Stages, world: World, arrivals: seq<Arrival>, force: bool, outcomes: seq<ConversationOutcome>): Ran
    decreases |arrivals|
  {
    if arrivals == [] then Ran(world, Some(RunReport(outcomes, None)))
    else
      match arrivals[0]
      case Halts => Ran(world, None)
      case Breaks => Ran(world, Some(RunReport(outcomes, Some(SourceStage))))
      case Malformed(subject) => RunOver(stages, world, arrivals[1..], force, outcomes + [MalformedOutcome(stages, subject)])
      case Arrives(item, plan) =>
        var done := ProcessOne(stages, world, item, plan, force);
        if done.outcome.None? then Ran(done.world, None)
        else RunOver(stages, done.world, arrivals[1..], force, outcomes + [done.outcome.value])
  }

  datatype Invocation = Invocation(arrivals: seq<Arrival>, force: bool)

  function History(stages: Stages, world: World, runs: seq<Invocation>): World
    decreases |runs|
  {
    if runs == [] then world
    else History(stages, RunOver(stages, world, runs[0].arrivals, runs[0].force, []).world, runs[1..])
  }

  const EMPTY := World(map[], [])

  // ---------------------------------------------------------------------------------------------
  // What every history keeps
  // ---------------------------------------------------------------------------------------------

  /** Whether an archive store of this version returned before event `i`. */
  ghost predicate ArchivedBefore(log: seq<Event>, i: nat, enriched: Enriched) {
    exists j :: 0 <= j < i && j < |log| && log[j].Archived? && log[j].enriched == enriched && log[j].returned
  }

  /** Whether a retain returned before event `i`, for content of this identity and hash, and an
      archive store of what was retained before that. */
  ghost predicate ImportedBefore(stages: Stages, log: seq<Event>, i: nat, record: ImportRecord) {
    exists j, c: Conversation ::
      && 0 <= j < i && j < |log| && log[j] == Remembered(EnrichedFrom(stages, c), true)
      && IdentityOf(c) == record.identity && c.DocumentId() == record.documentId
      && ContentHash(stages, c) == Some(record.contentHash)
  }

  ghost predicate Justified(stages: Stages, log: seq<Event>, i: nat)
    requires i < |log|
  {
    match log[i]
    case Archived(_, _, _) => true
    case Remembered(enriched, _) => ArchivedBefore(log, i, enriched)
    case Recorded(record) => record.Valid() && (record.status == Imported ==> ImportedBefore(stages, log, i, record))
  }

  /** Each memory of a version follows an archive store of it that returned; each record is valid, and
      an imported one follows a retain that returned; the store holds each identity's last record. */
  ghost predicate Sound(stages: Stages, w: World) {
    && (forall i | 0 <= i < |w.log| :: Justified(stages, w.log, i))
    && w.records == LastRecords(w.log)
  }

  function LastRecords(log: seq<Event>): map<Identity, ImportRecord> {
    if log == [] then map[]
    else
      var before, last := LastRecords(log[..|log| - 1]), log[|log| - 1];
      if last.Recorded? then before[last.record.identity := last.record] else before
  }

  lemma {:induction false} JustifiedStays(stages: Stages, log: seq<Event>, event: Event, i: nat)
    requires i < |log| && Justified(stages, log, i)
    ensures Justified(stages, log + [event], i)
  {
    var longer := log + [event];
    assert longer[i] == log[i] && forall j | 0 <= j < |log| :: longer[j] == log[j];
    match log[i] {
      case Archived(_, _, _) =>
      case Remembered(enriched, _) =>
        var j :| 0 <= j < i && log[j].Archived? && log[j].enriched == enriched && log[j].returned;
        assert longer[j] == log[j];
      case Recorded(record) =>
        if record.status == Imported {
          var j, c: Conversation :| 0 <= j < i && log[j] == Remembered(EnrichedFrom(stages, c), true)
            && IdentityOf(c) == record.identity && c.DocumentId() == record.documentId
            && ContentHash(stages, c) == Some(record.contentHash);
          assert longer[j] == log[j];
        }
    }
  }

  lemma {:induction false} AddKeepsSound(stages: Stages, w: World, event: Event)
    requires Sound(stages, w) && !event.Recorded? && Justified(stages, w.log + [event], |w.log|)
    ensures Sound(stages, w.Add(event))
  {
    var longer := w.log + [event];
    forall i | 0 <= i < |longer| ensures Justified(stages, longer, i) {
      if i < |w.log| {
        JustifiedStays(stages, w.log, event, i);
      }
    }
    assert longer[..|w.log|] == w.log;
  }

  lemma {:induction false} RecordKeepsSound(stages: Stages, w: World, record: ImportRecord)
    requires Sound(stages, w) && Justified(stages, w.log + [Recorded(record)], |w.log|)
    ensures Sound(stages, w.Record(record))
  {
    var longer := w.log + [Recorded(record)];
    forall i | 0 <= i < |longer| ensures Justified(stages, longer, i) {
      if i < |w.log| {
        JustifiedStays(stages, w.log, Recorded(record), i);
      }
    }
    assert longer[..|w.log|] == w.log;
  }

  lemma {:induction false} FailureKeepsSound(stages: Stages, w: World, record: ImportRecord)
    requires Sound(stages, w) && record.Valid() && record.status == Failed
    ensures Sound(stages, w.Record(record))
  {
    assert (w.log + [Recorded(record)])[|w.log|] == Recorded(record);
    RecordKeepsSound(stages, w, record);
  }

  lemma {:induction false} WorkKeepsSound(stages: Stages, w: World, item: SourceConversation, plan: Plan, contentHash: string)
    requires Sound(stages, w) && ContentHash(stages, item.conversation) == Some(contentHash)
    ensures Sound(stages, Work(stages, w, item, plan, contentHash).world)
  {
    var c, n := item.conversation, |w.log|;
    var enriched := EnrichedFrom(stages, c);
    if plan.sanitize.Fine? && plan.classify.Fine? && plan.enrich.Fine? {
      var stored := Archived(enriched, item.original, plan.archive.Fine?);
      AddKeepsSound(stages, w, stored);
      if plan.archive.Fine? {
        var archived, kept := w.Add(stored), Remembered(enriched, plan.retain.Fine?);
        assert (archived.log + [kept])[n] == stored;
        assert ArchivedBefore(archived.log + [kept], n + 1, enriched);
        AddKeepsSound(stages, archived, kept);
        if plan.retain.Fine? {
          var remembered, record := archived.Add(kept), RecordOf(c, contentHash, None);
          assert (remembered.log + [Recorded(record)])[n + 1] == kept;
          assert ImportedBefore(stages, remembered.log + [Recorded(record)], n + 2, record);
          RecordKeepsSound(stages, remembered, record);
        }
      }
    }
  }

  lemma {:induction false} EndedKeepsSound(stages: Stages, reached: Reached, c: Conversation, contentHash: Option<string>, writeFailure: Fate)
    requires Sound(stages, reached.world)
    ensures Sound(stages, Ended(reached, c, contentHash, writeFailure).world)
  {
    if contentHash.Some? {
      FailureKeepsSound(stages, reached.world, RecordOf(c, contentHash.value, Some(reached.stage)));
    }
  }

  lemma {:induction false} ReachKeepsSound(stages: Stages, w: World, item: SourceConversation, plan: Plan, force: bool)
    requires Sound(stages, w)
    ensures var reached := Reach(stages, w, item, plan, force); reached.Some? ==> Sound(stages, reached.value.world)
  {
    var hash := ContentHash(stages, item.conversation);
    if hash.Some? {
      WorkKeepsSound(stages, w, item, plan, hash.value);
    }
  }

  lemma {:induction false} ProcessKeepsSound(stages: Stages, w: World, item: SourceConversation, plan: Plan, force: bool)
    requires Sound(stages, w)
    ensures Sound(stages, ProcessOne(stages, w, item, plan, force).world)
  {
    ReachKeepsSound(stages, w, item, plan, force);
    var reached, c := Reach(stages, w, item, plan, force), item.conversation;
    if reached.Some? {
      EndedKeepsSound(stages, reached.value, c, if reached.value.stage == Hash then None else ContentHash(stages, c), plan.writeFailure);
    }
  }

  lemma {:induction false} RunKeepsSound(stages: Stages, w: World, arrivals: seq<Arrival>, force: bool, outcomes: seq<ConversationOutcome>)
    requires Sound(stages, w)
    ensures Sound(stages, RunOver(stages, w, arrivals, force, outcomes).world)
    decreases |arrivals|
  {
    if arrivals != [] {
      match arrivals[0] {
        case Arrives(item, plan) =>
          ProcessKeepsSound(stages, w, item, plan, force);
          var done := ProcessOne(stages, w, item, plan, force);
          if done.outcome.Some? {
            RunKeepsSound(stages, done.world, arrivals[1..], force, outcomes + [done.outcome.value]);
          }
        case Malformed(subject) =>
          RunKeepsSound(stages, w, arrivals[1..], force, outcomes + [MalformedOutcome(stages, subject)]);
        case _ =>
      }
    }
  }

  lemma {:induction false} HistoryFrom(stages: Stages, w: World, runs: seq<Invocation>)
    requires Sound(stages, w)
    ensures Sound(stages, History(stages, w, runs))
    decreases |runs|
  {
    if runs != [] {
      RunKeepsSound(stages, w, runs[0].arrivals, runs[0].force, []);
      HistoryFrom(stages, RunOver(stages, w, runs[0].arrivals, runs[0].force, []).world, runs[1..]);
    }
  }

  /** Over every history of runs, whatever fails or is interrupted in them. */
  lemma {:induction false} EveryHistoryIsSound(stages: Stages, runs: seq<Invocation>)
    ensures Sound(stages, History(stages, EMPTY, runs))
  {
    HistoryFrom(stages, EMPTY, runs);
  }

  lemma {:induction false} StoredIsLogged(log: seq<Event>, identity: Identity)
    requires identity in LastRecords(log)
    ensures LastRecords(log)[identity].identity == identity
    ensures exists i :: 0 <= i < |log| && log[i] == Recorded(LastRecords(log)[identity])
  {
    var n := |log| - 1;
    if log[n].Recorded? && log[n].record.identity == identity {
      assert log[n] == Recorded(LastRecords(log)[identity]);
    } else {
      StoredIsLogged(log[..n], identity);
      var i :| 0 <= i < n && log[..n][i] == Recorded(LastRecords(log[..n])[identity]);
      assert log[i] == log[..n][i];
    }
  }

  /** The archive store and the retain behind a logged import. */
  lemma {:induction false} BehindImport(stages: Stages, log: seq<Event>, k: nat)
    returns (i: nat, j: nat, c: Conversation)
    requires k < |log| && Justified(stages, log, k) && log[k].Recorded? && log[k].record.status == Imported
    requires forall n | 0 <= n < |log| :: Justified(stages, log, n)
    ensures i < j < k && log[j] == Remembered(EnrichedFrom(stages, c), true)
    ensures log[i].Archived? && log[i].enriched == EnrichedFrom(stages, c) && log[i].returned
    ensures IdentityOf(c) == log[k].record.identity && ContentHash(stages, c) == Some(log[k].record.contentHash)
  {
    var record := log[k].record;
    assert ImportedBefore(stages, log, k, record);
    var at, imported: Conversation :|
      && 0 <= at < k && at < |log| && log[at] == Remembered(EnrichedFrom(stages, imported), true)
      && IdentityOf(imported) == record.identity && imported.DocumentId() == record.documentId
      && ContentHash(stages, imported) == Some(record.contentHash);
    j, c := at, imported;
    assert Justified(stages, log, j);
    i := ArchivedFirst(log, j, EnrichedFrom(stages, c));
  }

  lemma {:induction false} ArchivedFirst(log: seq<Event>, j: nat, enriched: Enriched) returns (i: nat)
    requires j < |log| && ArchivedBefore(log, j, enriched)
    ensures i < j && log[i].Archived? && log[i].enriched == enriched && log[i].returned
  {
    i :| 0 <= i < j && i < |log| && log[i].Archived? && log[i].enriched == enriched && log[i].returned;
  }

  /** What the state store says is imported was archived and then retained, under that very hash; what
      it stores is never a skip. */
  lemma {:induction false} StoredImportsHappened(stages: Stages, runs: seq<Invocation>, identity: Identity)
    requires identity in History(stages, EMPTY, runs).records
    ensures var w := History(stages, EMPTY, runs); var record := w.records[identity];
      && record.identity == identity && record.status != Skipped
      && (record.status == Imported ==> exists i, j, c: Conversation ::
        && 0 <= i < j < |w.log| && IdentityOf(c) == identity && ContentHash(stages, c) == Some(record.contentHash)
        && w.log[j] == Remembered(EnrichedFrom(stages, c), true)
        && w.log[i].Archived? && w.log[i].enriched == EnrichedFrom(stages, c) && w.log[i].returned)
  {
    var w := History(stages, EMPTY, runs);
    var record := w.records[identity];
    EveryHistoryIsSound(stages, runs);
    StoredIsLogged(w.log, identity);
    var k :| 0 <= k < |w.log| && w.log[k] == Recorded(record);
    assert Justified(stages, w.log, k);
    if record.status == Imported {
      var i, j, c := BehindImport(stages, w.log, k);
    }
  }

  lemma {:induction false} ImportedWasArchived(stages: Stages, runs: seq<Invocation>, identity: Identity) returns (i: nat, c: Conversation)
    requires var w := History(stages, EMPTY, runs); identity in w.records && w.records[identity].status == Imported
    ensures var log := History(stages, EMPTY, runs).log;
      i < |log| && log[i].Archived? && log[i].enriched == EnrichedFrom(stages, c) && IdentityOf(c) == identity
  {
    var w := History(stages, EMPTY, runs);
    EveryHistoryIsSound(stages, runs);
    StoredIsLogged(w.log, identity);
    var k :| 0 <= k < |w.log| && w.log[k] == Recorded(w.records[identity]);
    var j;
    i, j, c := BehindImport(stages, w.log, k);
  }

  // ---------------------------------------------------------------------------------------------
  // What outcomes tell
  // ---------------------------------------------------------------------------------------------

  /** The store says this very content was imported. */
  predicate IsImported(stages: Stages, w: World, c: Conversation) {
    var record, hash := w.Find(IdentityOf(c)), ContentHash(stages, c);
    record.Some? && record.value.status == Imported && hash.Some? && record.value.contentHash == hash.value
  }

  ghost predicate OthersKept(before: World, after: World, identity: Identity) {
    forall other: Identity {:trigger after.Find(other)} | other != identity :: after.Find(other) == before.Find(other)
  }

  lemma {:induction false} WorkTells(stages: Stages, w: World, item: SourceConversation, plan: Plan, contentHash: string)
    requires ContentHash(stages, item.conversation) == Some(contentHash)
    ensures var reached := Work(stages, w, item, plan, contentHash);
      && OthersKept(w, reached.world, IdentityOf(item.conversation)) && reached.stage != Hash
      && (reached.fate.Fine? ==> IsImported(stages, reached.world, item.conversation))
  {
  }

  lemma {:induction false} ReachTells(stages: Stages, w: World, item: SourceConversation, plan: Plan, force: bool)
    ensures var reached, c := Reach(stages, w, item, plan, force), item.conversation;
      && (reached.None? <==> HashFate(stages, c, plan).Fine? && plan.find.Fine? && !force && IsImported(stages, w, c))
      && (reached.Some? ==>
        && OthersKept(w, reached.value.world, IdentityOf(c))
        && (reached.value.stage != Hash ==> ContentHash(stages, c).Some?)
        && (reached.value.fate.Fine? ==> IsImported(stages, reached.value.world, c)))
  {
    var hash := ContentHash(stages, item.conversation);
    if hash.Some? {
      WorkTells(stages, w, item, plan, hash.value);
    }
  }

  lemma {:induction false} EndedTells(reached: Reached, c: Conversation, contentHash: Option<string>, writeFailure: Fate)
    ensures var done := Ended(reached, c, contentHash, writeFailure);
      && OthersKept(reached.world, done.world, IdentityOf(c))
      && (done.outcome.Some? ==>
        var o := done.outcome.value;
        && o.sourceId == Some(c.sourceId) && o.status != Skipped && (o.status == Failed <==> o.error.Some?)
        && (o.status == Imported ==> reached.fate.Fine? && done.world == reached.world)
        && (o.status == Failed ==> o.error == Some(reached.stage))
        && (o.status == Failed && contentHash.Some? && !o.stateRecordFailed ==>
          done.world.Find(IdentityOf(c)) == Some(RecordOf(c, contentHash.value, o.error))))
  {
  }

  /** An outcome says what the store holds: imported content is recorded so, a skip changed nothing, a
      failure is recorded with its stage unless its record could not be written or there is no hash. */
  lemma {:induction false} OutcomeTells(stages: Stages, w: World, item: SourceConversation, plan: Plan, force: bool)
    ensures var done, c := ProcessOne(stages, w, item, plan, force), item.conversation;
      && OthersKept(w, done.world, IdentityOf(c))
      && (done.outcome.Some? ==>
        var o := done.outcome.value;
        && o.sourceId == Some(c.sourceId) && (o.status == Failed <==> o.error.Some?)
        && (o.status == Imported ==> IsImported(stages, done.world, c))
        && (o.status == Skipped <==> HashFate(stages, c, plan).Fine? && plan.find.Fine? && !force && IsImported(stages, w, c))
        && (o.status == Skipped ==> done.world == w)
        && (o.status == Failed && o.error != Some(Hash) && !o.stateRecordFailed ==>
          && ContentHash(stages, c).Some?
          && done.world.Find(IdentityOf(c)) == Some(RecordOf(c, ContentHash(stages, c).value, o.error))))
  {
    var reached, c := Reach(stages, w, item, plan, force), item.conversation;
    ReachTells(stages, w, item, plan, force);
    if reached.Some? {
      var hash := if reached.value.stage == Hash then None else ContentHash(stages, c);
      EndedTells(reached.value, c, hash, plan.writeFailure);
      OthersStayKept(w, reached.value.world, ProcessOne(stages, w, item, plan, force).world, IdentityOf(c));
    }
  }

  lemma {:induction false} OthersStayKept(a: World, b: World, c: World, identity: Identity)
    requires OthersKept(a, b, identity) && OthersKept(b, c, identity)
    ensures OthersKept(a, c, identity)
  {
    forall other: Identity | other != identity ensures c.Find(other) == a.Find(other) {
      assert c.Find(other) == b.Find(other);
    }
  }

  predicate Answers(outcome: ConversationOutcome, arrival: Arrival) {
    match arrival
    case Arrives(item, _) => outcome.sourceId == Some(item.conversation.sourceId) && (outcome.status == Failed <==> outcome.error.Some?)
    case Malformed(_) => outcome.status == Failed && outcome.error == Some(SourceStage)
    case _ => false
  }

  /** After `outcomes`, the report answers the arrivals in order: all of them, or those before the source
      broke. */
  ghost predicate Reports(outcomes: seq<ConversationOutcome>, r: RunReport, arrivals: seq<Arrival>) {
    var n := |r.outcomes| - |outcomes|;
    && 0 <= n <= |arrivals| && outcomes <= r.outcomes
    && (forall i | 0 <= i < n :: Answers(r.outcomes[|outcomes| + i], arrivals[i]))
    && if r.terminalError.None? then n == |arrivals| else n < |arrivals| && arrivals[n] == Breaks
  }

  lemma {:induction false} ReportsGrow(outcomes: seq<ConversationOutcome>, next: ConversationOutcome, r: RunReport, arrivals: seq<Arrival>)
    requires arrivals != [] && Answers(next, arrivals[0]) && Reports(outcomes + [next], r, arrivals[1..])
    ensures Reports(outcomes, r, arrivals)
  {
    var longer, n := outcomes + [next], |r.outcomes| - |outcomes|;
    assert r.outcomes[|outcomes|] == longer[|outcomes|] == next;
    assert outcomes <= longer <= r.outcomes;
    forall i | 0 <= i < n ensures Answers(r.outcomes[|outcomes| + i], arrivals[i]) {
      if i > 0 {
        assert Answers(r.outcomes[|longer| + (i - 1)], arrivals[1..][i - 1]);
      }
    }
  }

  /** One outcome for each arrival, in source order: no failure of one conversation ends the run, and
      only the source itself breaking cuts the report short. */
  lemma {:induction false} ReportIsInOrder(stages: Stages, w: World, arrivals: seq<Arrival>, force: bool, outcomes: seq<ConversationOutcome>)
    requires RunOver(stages, w, arrivals, force, outcomes).report.Some?
    ensures Reports(outcomes, RunOver(stages, w, arrivals, force, outcomes).report.value, arrivals)
    decreases |arrivals|
  {
    if arrivals != [] {
      var r := RunOver(stages, w, arrivals, force, outcomes).report.value;
      match arrivals[0] {
        case Arrives(item, plan) =>
          var done := ProcessOne(stages, w, item, plan, force);
          OutcomeTells(stages, w, item, plan, force);
          ReportIsInOrder(stages, done.world, arrivals[1..], force, outcomes + [done.outcome.value]);
          ReportsGrow(outcomes, done.outcome.value, r, arrivals);
        case Malformed(subject) =>
          var next := MalformedOutcome(stages, subject);
          ReportIsInOrder(stages, w, arrivals[1..], force, outcomes + [next]);
          ReportsGrow(outcomes, next, r, arrivals);
        case _ =>
      }
    }
  }

  // ---------------------------------------------------------------------------------------------
  // Convergence
  // ---------------------------------------------------------------------------------------------

  predicate Clean(plan: Plan) {
    && plan.hash.Fine? && plan.find.Fine? && plan.sanitize.Fine? && plan.classify.Fine? && plan.enrich.Fine?
    && plan.archive.Fine? && plan.retain.Fine? && plan.write.Fine?
  }

  /** A conversation whose content can be hashed, and for which no boundary fails; or what cannot be read. */
  predicate Unhindered(stages: Stages, arrival: Arrival) {
    || arrival.Malformed?
    || (arrival.Arrives? && Clean(arrival.plan) && ContentHash(stages, arrival.item.conversation).Some?)
  }

  function ArrivalIdentity(arrival: Arrival): Option<Identity> {
    if arrival.Arrives? then Some(IdentityOf(arrival.item.conversation)) else None
  }

  ghost predicate DistinctArrivals(arrivals: seq<Arrival>) {
    forall i, j | 0 <= i < j < |arrivals| && arrivals[i].Arrives? :: ArrivalIdentity(arrivals[i]) != ArrivalIdentity(arrivals[j])
  }

  /** The store says that what arrived is imported. */
  predicate Landed(stages: Stages, w: World, arrival: Arrival) {
    arrival.Arrives? ==> IsImported(stages, w, arrival.item.conversation)
  }

  ghost predicate Absent(arrivals: seq<Arrival>, identity: Identity) {
    forall i | 0 <= i < |arrivals| :: ArrivalIdentity(arrivals[i]) != Some(identity)
  }

  lemma {:induction false} UnhinderedImports(stages: Stages, w: World, item: SourceConversation, plan: Plan, force: bool)
    requires Unhindered(stages, Arrives(item, plan))
    ensures var done := ProcessOne(stages, w, item, plan, force);
      && done.outcome.Some? && IsImported(stages, done.world, item.conversation)
      && OthersKept(w, done.world, IdentityOf(item.conversation))
  {
    ReachTells(stages, w, item, plan, force);
  }

  /** What one arrival leaves of the world, where nothing interrupts it. */
  function WorldAfter(stages: Stages, w: World, arrival: Arrival, force: bool): World {
    if arrival.Arrives? then ProcessOne(stages, w, arrival.item, arrival.plan, force).world else w
  }

  /** A run in which nothing fails takes its arrivals one after another. */
  lemma {:induction false} UnhinderedStep(stages: Stages, w: World, arrivals: seq<Arrival>, force: bool, outcomes: seq<ConversationOutcome>)
    returns (later: seq<ConversationOutcome>)
    requires arrivals != [] && Unhindered(stages, arrivals[0])
    ensures RunOver(stages, w, arrivals, force, outcomes)
      == RunOver(stages, WorldAfter(stages, w, arrivals[0], force), arrivals[1..], force, later)
    ensures var after := WorldAfter(stages, w, arrivals[0], force);
      forall other: Identity {:trigger after.Find(other)} | ArrivalIdentity(arrivals[0]) != Some(other) ::
        after.Find(other) == w.Find(other)
  {
    match arrivals[0] {
      case Arrives(item, plan) =>
        UnhinderedImports(stages, w, item, plan, force);
        later := outcomes + [ProcessOne(stages, w, item, plan, force).outcome.value];
      case Malformed(subject) =>
        later := outcomes + [MalformedOutcome(stages, subject)];
    }
  }

  lemma {:induction false} UnhinderedLands(stages: Stages, w: World, arrival: Arrival, force: bool)
    requires Unhindered(stages, arrival)
    ensures Landed(stages, WorldAfter(stages, w, arrival, force), arrival)
  {
    if arrival.Arrives? {
      UnhinderedImports(stages, w, arrival.item, arrival.plan, force);
    }
  }

  ghost predicate AllUnhindered(stages: Stages, arrivals: seq<Arrival>) {
    forall i | 0 <= i < |arrivals| :: Unhindered(stages, arrivals[i])
  }

  lemma {:induction false} RestUnhindered(stages: Stages, arrivals: seq<Arrival>)
    requires arrivals != [] && AllUnhindered(stages, arrivals) && DistinctArrivals(arrivals)
    ensures Unhindered(stages, arrivals[0])
    ensures AllUnhindered(stages, arrivals[1..]) && DistinctArrivals(arrivals[1..])
    ensures arrivals[0].Arrives? ==> Absent(arrivals[1..], IdentityOf(arrivals[0].item.conversation))
  {
    var rest := arrivals[1..];
    assert forall i | 0 <= i < |rest| :: rest[i] == arrivals[i + 1];
    if arrivals[0].Arrives? {
      forall i | 0 <= i < |rest| ensures ArrivalIdentity(rest[i]) != Some(IdentityOf(arrivals[0].item.conversation)) {
        assert ArrivalIdentity(arrivals[0]) != ArrivalIdentity(arrivals[i + 1]);
      }
    }
  }

  /** Who does not arrive is left alone. */
  lemma {:induction false} RunKeepsAbsent(stages: Stages, w: World, arrivals: seq<Arrival>, force: bool,
                                         outcomes: seq<ConversationOutcome>, other: Identity)
    requires AllUnhindered(stages, arrivals) && DistinctArrivals(arrivals) && Absent(arrivals, other)
    ensures RunOver(stages, w, arrivals, force, outcomes).world.Find(other) == w.Find(other)
    decreases |arrivals|
  {
    if arrivals != [] {
      RestUnhindered(stages, arrivals);
      var later := UnhinderedStep(stages, w, arrivals, force, outcomes);
      assert ArrivalIdentity(arrivals[0]) != Some(other);
      forall i | 0 <= i < |arrivals[1..]| ensures ArrivalIdentity(arrivals[1..][i]) != Some(other) {
        assert ArrivalIdentity(arrivals[i + 1]) != Some(other);
      }
      RunKeepsAbsent(stages, WorldAfter(stages, w, arrivals[0], force), arrivals[1..], force, later, other);
    }
  }

  /** One run in which nothing fails leaves every conversation imported at its current hash, whatever
      the runs before it left behind, and whatever else in the source cannot be read. */
  lemma {:induction false} Converges(stages: Stages, w: World, arrivals: seq<Arrival>, force: bool, outcomes: seq<ConversationOutcome>)
    requires AllUnhindered(stages, arrivals) && DistinctArrivals(arrivals)
    ensures var after := RunOver(stages, w, arrivals, force, outcomes).world;
      forall i | 0 <= i < |arrivals| :: Landed(stages, after, arrivals[i])
    decreases |arrivals|
  {
    if arrivals != [] {
      RestUnhindered(stages, arrivals);
      var later := UnhinderedStep(stages, w, arrivals, force, outcomes);
      UnhinderedLands(stages, w, arrivals[0], force);
      var next, rest := WorldAfter(stages, w, arrivals[0], force), arrivals[1..];
      Converges(stages, next, rest, force, later);
      var after := RunOver(stages, w, arrivals, force, outcomes).world;
      if arrivals[0].Arrives? {
        RunKeepsAbsent(stages, next, rest, force, later, IdentityOf(arrivals[0].item.conversation));
      }
      forall i | 0 <= i < |arrivals| ensures Landed(stages, after, arrivals[i]) {
        if i > 0 {
          assert Landed(stages, after, rest[i - 1]);
        }
      }
    }
  }

  /** A conversation that is imported already, and whose hash and record can be read; or what cannot be read. */
  predicate Unchanged(stages: Stages, w: World, arrival: Arrival) {
    || arrival.Malformed?
    || (arrival.Arrives? && Landed(stages, w, arrival) && arrival.plan.hash.Fine? && arrival.plan.find.Fine?)
  }

  function UnchangedStatus(arrival: Arrival): ImportStatus {
    if arrival.Arrives? then Skipped else Failed
  }

  /** After `outcomes`, each conversation is reported skipped, and what cannot be read as failed. */
  ghost predicate SkipsAll(outcomes: seq<ConversationOutcome>, all: seq<ConversationOutcome>, arrivals: seq<Arrival>) {
    && outcomes <= all && |all| == |outcomes| + |arrivals|
    && forall i | 0 <= i < |arrivals| :: all[|outcomes| + i].status == UnchangedStatus(arrivals[i])
  }

  lemma {:induction false} SkipsOneMore(outcomes: seq<ConversationOutcome>, next: ConversationOutcome, all: seq<ConversationOutcome>,
                                       arrivals: seq<Arrival>)
    requires arrivals != [] && next.status == UnchangedStatus(arrivals[0]) && SkipsAll(outcomes + [next], all, arrivals[1..])
    ensures SkipsAll(outcomes, all, arrivals)
  {
    var longer := outcomes + [next];
    assert all[|outcomes|] == longer[|outcomes|];
    assert outcomes <= longer <= all;
    forall i | 0 <= i < |arrivals| ensures all[|outcomes| + i].status == UnchangedStatus(arrivals[i]) {
      if i > 0 {
        assert all[|longer| + (i - 1)].status == UnchangedStatus(arrivals[1..][i - 1]);
      }
    }
  }

  lemma {:induction false} UnchangedStep(stages: Stages, w: World, arrivals: seq<Arrival>, outcomes: seq<ConversationOutcome>)
    returns (next: ConversationOutcome)
    requires arrivals != [] && Unchanged(stages, w, arrivals[0])
    ensures next.status == UnchangedStatus(arrivals[0])
    ensures RunOver(stages, w, arrivals, false, outcomes) == RunOver(stages, w, arrivals[1..], false, outcomes + [next])
  {
    match arrivals[0] {
      case Arrives(item, plan) =>
        ReachTells(stages, w, item, plan, false);
        next := OutcomeOf(item.conversation, Skipped, None, false);
      case Malformed(subject) =>
        next := MalformedOutcome(stages, subject);
    }
  }

  /** An unforced run over imported content skips all of it: it calls nothing and changes nothing. */
  lemma {:induction false} UnchangedIsSkipped(stages: Stages, w: World, arrivals: seq<Arrival>, outcomes: seq<ConversationOutcome>)
    requires forall i | 0 <= i < |arrivals| :: Unchanged(stages, w, arrivals[i])
    ensures var ran := RunOver(stages, w, arrivals, false, outcomes);
      && ran.world == w && ran.report.Some? && ran.report.value.terminalError.None?
      && SkipsAll(outcomes, ran.report.value.outcomes, arrivals)
    decreases |arrivals|
  {
    if arrivals != [] {
      var next := UnchangedStep(stages, w, arrivals, outcomes);
      UnchangedIsSkipped(stages, w, arrivals[1..], outcomes + [next]);
      SkipsOneMore(outcomes, next, RunOver(stages, w, arrivals, false, outcomes).report.value.outcomes, arrivals);
    }
  }

  predicate Repeats(arrivals: seq<Arrival>, later: Arrival) {
    || later.Malformed?
    || (&& later.Arrives? && later.plan.hash.Fine? && later.plan.find.Fine?
        && exists i :: 0 <= i < |arrivals| && arrivals[i].Arrives? && arrivals[i].item.conversation == later.item.conversation)
  }

  lemma {:induction false} NothingMoves(stages: Stages, w: World, runs: seq<Invocation>)
    requires forall r | 0 <= r < |runs| :: !runs[r].force && forall i | 0 <= i < |runs[r].arrivals| :: Unchanged(stages, w, runs[r].arrivals[i])
    ensures History(stages, w, runs) == w
    decreases |runs|
  {
    if runs != [] {
      assert !runs[0].force;
      UnchangedIsSkipped(stages, w, runs[0].arrivals, []);
      NothingMoves(stages, w, runs[1..]);
    }
  }

  /** After any history of failed and interrupted runs, one unhindered run settles everything: all is
      imported, and any number of later unforced runs over the same contents moves nothing. */
  lemma {:induction false} OneGoodRunSettles(stages: Stages, past: seq<Invocation>, arrivals: seq<Arrival>, later: seq<Invocation>)
    requires AllUnhindered(stages, arrivals) && DistinctArrivals(arrivals)
    requires forall r | 0 <= r < |later| ::
      !later[r].force && forall i | 0 <= i < |later[r].arrivals| :: Repeats(arrivals, later[r].arrivals[i])
    ensures var settled := RunOver(stages, History(stages, EMPTY, past), arrivals, false, []).world;
      && (forall i | 0 <= i < |arrivals| :: Landed(stages, settled, arrivals[i]))
      && History(stages, settled, later) == settled
  {
    var w := History(stages, EMPTY, past);
    Converges(stages, w, arrivals, false, []);
    var settled := RunOver(stages, w, arrivals, false, []).world;
    forall r, i | 0 <= r < |later| && 0 <= i < |later[r].arrivals|
      ensures Unchanged(stages, settled, later[r].arrivals[i])
    {
      assert Repeats(arrivals, later[r].arrivals[i]);
      if later[r].arrivals[i].Arrives? {
        var j :| 0 <= j < |arrivals| && arrivals[j].Arrives? && arrivals[j].item.conversation == later[r].arrivals[i].item.conversation;
        assert Landed(stages, settled, arrivals[j]);
      }
    }
    NothingMoves(stages, settled, later);
  }

  // ---------------------------------------------------------------------------------------------
  // The pipeline
  // ---------------------------------------------------------------------------------------------

  /** The archive, the memory and the state store, as the pipeline meets them. */
  class Boundaries {
    var world: World

    constructor ()
      ensures world == EMPTY
    {
      world := EMPTY;
    }

    method Store(enriched: Enriched, original: OriginalPayload, fate: Fate) returns (signal: Fate)
      modifies this
      ensures signal == fate && world == After(old(world), fate, Archived(enriched, original, fate.Fine?))
    {
      world := After(world, fate, Archived(enriched, original, fate.Fine?));
      signal := fate;
    }

    method Retain(enriched: Enriched, fate: Fate) returns (signal: Fate)
      modifies this
      ensures signal == fate && world == After(old(world), fate, Remembered(enriched, fate.Fine?))
    {
      world := After(world, fate, Remembered(enriched, fate.Fine?));
      signal := fate;
    }

    method Record(record: ImportRecord, fate: Fate) returns (signal: Fate)
      requires record.Valid()
      modifies this
      ensures signal == fate && world == if fate.TakesEffect() then old(world).Record(record) else old(world)
    {
      if fate.TakesEffect() {
        world := world.Record(record);
      }
      signal := fate;
    }
  }

  class IngestionPipeline {
    const stages: Stages
    const boundaries: Boundaries

    constructor (stages: Stages, boundaries: Boundaries)
      ensures this.stages == stages && this.boundaries == boundaries
    {
      this.stages := stages;
      this.boundaries := boundaries;
    }

    /** Stage by stage until one of them does not return. */
    method Attempt(item: SourceConversation, plan: Plan, force: bool)
      returns (skipped: bool, signal: Fate, stage: Stage, contentHash: Option<string>)
      modifies boundaries
      ensures Reach(stages, old(boundaries.world), item, plan, force)
        == if skipped then None else Some(Reached(boundaries.world, signal, stage))
      ensures skipped ==> boundaries.world == old(boundaries.world)
      ensures !skipped ==> contentHash == if stage == Hash then None else ContentHash(stages, item.conversation)
    {
      var conversation := item.conversation;
      skipped, contentHash := false, None;
      stage, signal := Hash, HashFate(stages, conversation, plan);
      if !signal.Fine? {
        return;
      }
      contentHash := ContentHash(stages, conversation);
      stage, signal := StateRead, plan.find;
      if !signal.Fine? {
        return;
      }
      var record := boundaries.world.Find(IdentityOf(conversation));
      if MaySkip(record, contentHash.value, force) {
        skipped := true;
        return;
      }
      stage, signal := Sanitize, plan.sanitize;
      if !signal.Fine? {
        return;
      }
      var sanitized := stages.sanitize(conversation);
      stage, signal := Classify, plan.classify;
      if !signal.Fine? {
        return;
      }
      var project := stages.classify(sanitized);
      stage, signal := Enrich, plan.enrich;
      if !signal.Fine? {
        return;
      }
      var enriched := Enriched(sanitized, project);
      stage := ArchiveStage;
      signal := boundaries.Store(enriched, item.original, plan.archive);
      if !signal.Fine? {
        return;
      }
      stage := RetainStage;
      signal := boundaries.Retain(enriched, plan.retain);
      if !signal.Fine? {
        return;
      }
      stage := StateWrite;
      signal := boundaries.Record(RecordOf(conversation, contentHash.value, None), plan.write);
    }

    method Process(item: SourceConversation, plan: Plan, force: bool) returns (outcome: Option<ConversationOutcome>)
      modifies boundaries
      ensures Processed(boundaries.world, outcome) == ProcessOne(stages, old(boundaries.world), item, plan, force)
    {
      var conversation := item.conversation;
      var skipped, signal, stage, contentHash := Attempt(item, plan, force);
      if skipped {
        return Some(OutcomeOf(conversation, Skipped, None, false));
      }
      if signal.Stops? {
        return None;
      }
      if signal.Fine? {
        return Some(OutcomeOf(conversation, Imported, None, false));
      }
      var secondary := false;
      if contentHash.Some? {
        var written := boundaries.Record(RecordOf(conversation, contentHash.value, Some(stage)), plan.writeFailure);
        if written.Stops? {
          return None;
        }
        secondary := !written.Fine?;
      }
      return Some(OutcomeOf(conversation, Failed, Some(stage), secondary));
    }

    /** Outcomes in source order; an interruption leaves no report. */
    method Run(arrivals: seq<Arrival>, force: bool) returns (report: Option<RunReport>)
      modifies boundaries
      ensures Ran(boundaries.world, report) == RunOver(stages, old(boundaries.world), arrivals, force, [])
    {
      var outcomes := [];
      assert arrivals[0..] == arrivals;
      for i := 0 to |arrivals|
        invariant RunOver(stages, boundaries.world, arrivals[i..], force, outcomes)
          == RunOver(stages, old(boundaries.world), arrivals, force, [])
      {
        assert arrivals[i..][1..] == arrivals[i + 1..];
        match arrivals[i] {
          case Halts => return None;
          case Breaks => return Some(RunReport(outcomes, Some(SourceStage)));
          case Malformed(subject) => outcomes := outcomes + [MalformedOutcome(stages, subject)];
          case Arrives(item, plan) =>
            var outcome := Process(item, plan, force);
            if outcome.None? {
              return None;
            }
            outcomes := outcomes + [outcome.value];
        }
      }
      return Some(RunReport(outcomes, None));
    }
  }
}
