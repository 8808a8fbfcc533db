/** The local archive: one record per document, replaced whole, checked when read. */
module Archive {
  import opened Wrappers
  import opened Conversations
  import opened Utf8
  import opened FileSystem

  datatype Original = Original(mediaType: string, contentBase64: string, sha256: string)

  datatype Envelope = Envelope(
    formatVersion: int,
    documentId: string,
    enriched: Enriched,
    contentHash: string,
    original: Original)

  const FORMAT_VERSION := 1

  /** What the archive relies on: its serializer, its two digests and base64. */
  datatype Codec = Codec(
    dump: Envelope -> seq<Byte>,
    parse: seq<Byte> -> Option<Envelope>,
    digest: seq<Byte> -> string,
    contentHash: Conversation -> string,
    encode: seq<Byte> -> string,
    decode: string -> Option<seq<Byte>>)

  /** The serializer and base64 give back what they were given; a digest is 64 hexadecimal digits. */
  ghost predicate Faithful(codec: Codec) {
    && (forall e: Envelope {:trigger codec.dump(e)} :: codec.parse(codec.dump(e)) == Some(e))
    && (forall b: seq<Byte> {:trigger codec.encode(b)} :: codec.decode(codec.encode(b)) == Some(b))
    && (forall b: seq<Byte> {:trigger codec.digest(b)} :: IsHex64(codec.digest(b)))
  }

  predicate IsHexDigit(c: char) {
    '0' <= c <= '9' || 'a' <= c <= 'f'
  }

  predicate IsHex64(s: string) {
    |s| == 64 && forall i | 0 <= i < |s| :: IsHexDigit(s[i])
  }

  predicate IsRecordName(name: string) {
    |name| == 69 && IsHex64(name[..64]) && name[64..] == ".json"
  }

  predicate IsTemporary(name: string) {
    |name| >= 1 && name[0] == '.' && |name| >= 4 && name[|name| - 4..] == ".tmp"
  }

  function RecordName(codec: Codec, documentId: string): string {
    codec.digest(Encode(documentId)) + ".json"
  }

  /** The digest tells these two documents apart, so that each has a record of its own. */
  ghost predicate Apart(codec: Codec, a: string, b: string) {
    RecordName(codec, a) == RecordName(codec, b) ==> a == b
  }

  datatype ArchiveError = Rejected | Unavailable | DocumentNotFound

  // ---------------------------------------------------------------------------------------------
  // Reading
  // ---------------------------------------------------------------------------------------------

  function Payload(codec: Codec, e: Envelope): Option<OriginalPayload> {
    match codec.decode(e.original.contentBase64)
    case None => None
    case Some(content) =>
      if codec.digest(content) == e.original.sha256 then Some(OriginalPayload(content, e.original.mediaType)) else None
  }

  /** A record that names its document, under that document's name, with its content and its original
      both intact. */
  predicate Intact(codec: Codec, name: string, e: Envelope) {
    && e.formatVersion == FORMAT_VERSION
    && e.documentId == e.enriched.conversation.DocumentId()
    && name == RecordName(codec, e.documentId)
    && e.contentHash == codec.contentHash(e.enriched.conversation)
    && Payload(codec, e).Some?
  }

  function ReadRecord(codec: Codec, fs: Fs, name: string, documentId: Option<string>): Result<Envelope, ArchiveError> {
    if !IsRecordName(name) then Failure(Rejected)
    else
      match fs.Read(name)
      case None => Failure(if documentId.Some? then DocumentNotFound else Rejected)
      case Some(bytes) =>
        match codec.parse(bytes)
        case None => Failure(Rejected)
        case Some(e) =>
          if Intact(codec, name, e) && (documentId.Some? ==> e.documentId == documentId.value) then Success(e)
          else Failure(Rejected)
  }

  function Load(codec: Codec, fs: Fs, documentId: string): Result<Enriched, ArchiveError> {
    var e :- ReadRecord(codec, fs, RecordName(codec, documentId), Some(documentId));
    Success(e.enriched)
  }

  function LoadOriginal(codec: Codec, fs: Fs, documentId: string): Result<OriginalPayload, ArchiveError> {
    var e :- ReadRecord(codec, fs, RecordName(codec, documentId), Some(documentId));
    match Payload(codec, e)
    case Some(payload) => Success(payload)
    case None => Failure(Rejected)
  }

  // ---------------------------------------------------------------------------------------------
  // What is stored
  // ---------------------------------------------------------------------------------------------

  function EnvelopeOf(codec: Codec, enriched: Enriched, original: OriginalPayload): Envelope {
    Envelope(
      FORMAT_VERSION,
      enriched.conversation.DocumentId(),
      enriched,
      codec.contentHash(enriched.conversation),
      Original(original.mediaType, codec.encode(original.content), codec.digest(original.content)))
  }

  /** The record holds exactly this. */
  ghost predicate Holds(codec: Codec, fs: Fs, enriched: Enriched, original: OriginalPayload) {
    fs.Read(RecordName(codec, enriched.conversation.DocumentId())) == Some(codec.dump(EnvelopeOf(codec, enriched, original)))
  }

  /** Both forms come back exactly as they were stored. */
  lemma {:induction false} LoadsWhatIsHeld(codec: Codec, fs: Fs, enriched: Enriched, original: OriginalPayload)
    requires Faithful(codec) && Holds(codec, fs, enriched, original)
    ensures var documentId := enriched.conversation.DocumentId();
      && Load(codec, fs, documentId) == Success(enriched)
      && LoadOriginal(codec, fs, documentId) == Success(original)
  {
    var e := EnvelopeOf(codec, enriched, original);
    var name := RecordName(codec, e.documentId);
    RecordNamesAreRecords(codec, e.documentId);
    assert Payload(codec, e) == Some(original);
    assert Intact(codec, name, e);
  }

  lemma {:induction false} RecordNamesAreRecords(codec: Codec, documentId: string)
    requires Faithful(codec)
    ensures IsRecordName(RecordName(codec, documentId)) && IsRecord(RecordName(codec, documentId))
    ensures !IsTemporary(RecordName(codec, documentId))
  {
    var hex := codec.digest(Encode(documentId));
    var name := RecordName(codec, documentId);
    assert name[..64] == hex && name[64..] == ".json" && IsHexDigit(name[0]);
  }

  // ---------------------------------------------------------------------------------------------
  // Crashes
  // ---------------------------------------------------------------------------------------------

  /** A crash at any step of a store leaves every document as it was before, and the one being stored
      as before or wholly as stored; where it loses a directory, no document is found. */
  lemma {:induction false} CrashLeavesDocumentsWhole(codec: Codec, before: Fs, fs: Fs, found: Fs, enriched: Enriched,
                                                    original: OriginalPayload, documentId: string)
    requires Faithful(codec) && Survives(fs, found)
    requires Apart(codec, documentId, enriched.conversation.DocumentId())
    requires Steady(before, fs, RecordName(codec, enriched.conversation.DocumentId()), codec.dump(EnvelopeOf(codec, enriched, original)))
    ensures if found.levels < found.depth then Load(codec, found, documentId) == Failure(DocumentNotFound)
      else || MayFind(before, RecordName(codec, documentId), found.Read(RecordName(codec, documentId)))
           || (documentId == enriched.conversation.DocumentId() && Load(codec, found, documentId) == Success(enriched)
             && LoadOriginal(codec, found, documentId) == Success(original))
  {
    var stored := enriched.conversation.DocumentId();
    RecordNamesAreRecords(codec, documentId);
    CrashFindsOldOrNew(before, fs, found, RecordName(codec, stored), codec.dump(EnvelopeOf(codec, enriched, original)), RecordName(codec, documentId));
    if documentId == stored {
      if found.Read(RecordName(codec, stored)) == Some(codec.dump(EnvelopeOf(codec, enriched, original))) {
        LoadsWhatIsHeld(codec, found, enriched, original);
      }
    }
  }

  lemma {:induction false} EmptyIsConsistent(depth: nat)
    ensures Consistent(Fs(depth, 0, {}, map[], map[], map[], {}))
  {
    var fs := Fs(depth, 0, {}, map[], map[], map[], {});
    forall name: string ensures Reliable(fs, name) {
      assert fs.May(name) == {None};
    }
  }

  /** What happens to an archive: a store, returned or not, or a crash, in a store or between two. */
  datatype Happening = Storing(enriched: Enriched, original: OriginalPayload) | Crashing

  function TurnOf(codec: Codec, h: Happening): Turn {
    match h
    case Storing(enriched, original) =>
      Replacement(RecordName(codec, enriched.conversation.DocumentId()), codec.dump(EnvelopeOf(codec, enriched, original)))
    case Crashing => Crash
  }

  /** The document was stored as this, once. */
  predicate WasStored(happenings: seq<Happening>, documentId: string, enriched: Enriched, original: OriginalPayload) {
    Storing(enriched, original) in happenings && enriched.conversation.DocumentId() == documentId
  }

  /** Over any run of stores, whatever fails in them, and crashes anywhere, an archive that began empty
      has a document as it was stored some time, both forms of it, or does not have it. */
  lemma {:induction false} EveryRunLeavesDocumentsWhole(codec: Codec, states: seq<Fs>, happenings: seq<Happening>, documentId: string)
    returns (enriched: Enriched, original: OriginalPayload)
    requires Faithful(codec) && Runs(states, seq(|happenings|, i requires 0 <= i < |happenings| => TurnOf(codec, happenings[i])))
    requires states[0] == Fs(states[0].depth, 0, {}, map[], map[], map[], {})
    requires forall h | h in happenings && h.Storing? :: Apart(codec, documentId, h.enriched.conversation.DocumentId())
    ensures var last := states[|happenings|];
      || Load(codec, last, documentId) == Failure(DocumentNotFound)
      || (WasStored(happenings, documentId, enriched, original)
        && Load(codec, last, documentId) == Success(enriched) && LoadOriginal(codec, last, documentId) == Success(original))
  {
    var turns := seq(|happenings|, i requires 0 <= i < |happenings| => TurnOf(codec, happenings[i]));
    var name, last := RecordName(codec, documentId), states[|happenings|];
    EmptyIsConsistent(states[0].depth);
    RecordNamesAreRecords(codec, documentId);
    assert states[0].May(name) == {None};
    RunsLeaveRecordsWhole(states, turns, name, {None});
    if last.Read(name) != None {
      var turn :| turn in turns && turn.Replacement? && turn.name == name && last.Read(name) == Some(turn.bytes);
      var i :| 0 <= i < |turns| && turns[i] == turn;
      enriched, original := happenings[i].enriched, happenings[i].original;
      assert happenings[i] in happenings;
      LoadsWhatIsHeld(codec, last, enriched, original);
    } else {
      enriched, original :| true;
    }
  }

  /** What a store returned in state `fs` is found after every crash. */
  ghost predicate Durable(codec: Codec, fs: Fs, enriched: Enriched, original: OriginalPayload) {
    forall found: Fs | Survives(fs, found) :: Holds(codec, found, enriched, original)
  }

  /** The state a store returns in is durable exactly when every directory on the way has its own entry
      on disk: those that existed before are taken as they are. */
  lemma {:induction false} DurableWhenAnchored(codec: Codec, fs: Fs, enriched: Enriched, original: OriginalPayload)
    requires Faithful(codec) && Consistent(fs) && Holds(codec, fs, enriched, original)
    requires fs.levels == fs.depth && fs.SyncDirectory() == fs
    ensures Durable(codec, fs, enriched, original) <==> fs.Anchored(fs.depth)
  {
    var name := RecordName(codec, enriched.conversation.DocumentId());
    RecordNamesAreRecords(codec, enriched.conversation.DocumentId());
    if fs.Anchored(fs.depth) {
      forall found: Fs | Survives(fs, found) ensures Holds(codec, found, enriched, original) {
        CrashFindsDurable(fs, found, name, codec.dump(EnvelopeOf(codec, enriched, original)));
      }
    } else {
      var found := CrashMayLose(fs);
      assert found.Read(name) == None;
    }
  }

  // ---------------------------------------------------------------------------------------------
  // Enumeration
  // ---------------------------------------------------------------------------------------------

  /** An entry of a directory listing, or a listing that breaks off. */
  datatype ListedEntry = Named(name: string) | Broken

  datatype Opening = Opened(entries: seq<ListedEntry>) | Missing | Refused(error: ArchiveError)

  /** What asking for the next document comes to. */
  datatype Advance = Document(documentId: string) | Raised(error: ArchiveError) | Finished

  /** What one entry comes to; nothing where it is passed over. */
  function Visit(codec: Codec, fs: Fs, source: Option<Source>, name: string): Option<Advance> {
    if IsTemporary(name) then None
    else
      match ReadRecord(codec, fs, name, None)
      case Failure(error) => Some(Raised(error))
      case Success(e) =>
        if source.None? || e.enriched.conversation.source == source.value then Some(Document(e.documentId)) else None
  }

  /** Everything a listing comes to, each entry visited once, in order, up to where it breaks off. */
  function Visits(codec: Codec, fs: Fs, source: Option<Source>, entries: seq<ListedEntry>): seq<Advance> {
    if entries == [] then []
    else if entries[0].Broken? then [Raised(Unavailable)]
    else
      var rest := Visits(codec, fs, source, entries[1..]);
      match Visit(codec, fs, source, entries[0].name)
      case None => rest
      case Some(advance) => [advance] + rest
  }

  function Enumerated(codec: Codec, fs: Fs, source: Option<Source>, opening: Opening): seq<Advance> {
    match opening
    case Opened(entries) => Visits(codec, fs, source, entries)
    case Missing => []
    case Refused(error) => [Raised(error)]
  }

  predicate Unbroken(entries: seq<ListedEntry>) {
    forall i | 0 <= i < |entries| :: entries[i].Named?
  }

  /** Whatever the entries before come to, a corrupt record or a skipped file, the ones after are
      visited as if they stood alone. */
  lemma {:induction false} NothingHidesLaterEntries(codec: Codec, fs: Fs, source: Option<Source>, a: seq<ListedEntry>, b: seq<ListedEntry>)
    requires Unbroken(a)
    ensures Visits(codec, fs, source, a + b) == Visits(codec, fs, source, a) + Visits(codec, fs, source, b)
  {
    if a == [] {
      assert a + b == b;
    } else {
      assert (a + b)[1..] == a[1..] + b;
      NothingHidesLaterEntries(codec, fs, source, a[1..], b);
    }
  }

  /** A listed document that the archive holds is found. */
  lemma {:induction false} HeldIsEnumerated(codec: Codec, fs: Fs, source: Option<Source>, before: seq<ListedEntry>, after: seq<ListedEntry>,
                                           enriched: Enriched, original: OriginalPayload)
    requires Faithful(codec) && Holds(codec, fs, enriched, original) && Unbroken(before)
    requires source.None? || source == Some(enriched.conversation.source)
    ensures var d := enriched.conversation.DocumentId();
      Document(d) in Visits(codec, fs, source, before + ([Named(RecordName(codec, d))] + after))
  {
    var d := enriched.conversation.DocumentId();
    var here := [Named(RecordName(codec, d))] + after;
    NothingHidesLaterEntries(codec, fs, source, before, here);
    RecordNamesAreRecords(codec, d);
    var e := EnvelopeOf(codec, enriched, original);
    assert Payload(codec, e) == Some(original) && Intact(codec, RecordName(codec, d), e);
    assert here[1..] == after;
    assert Visits(codec, fs, source, here)[0] == Document(d);
  }

  lemma {:induction false} OnlyItsNameYieldsADocument(codec: Codec, fs: Fs, source: Option<Source>, entries: seq<ListedEntry>, d: string)
    requires Document(d) in Visits(codec, fs, source, entries)
    ensures Named(RecordName(codec, d)) in entries
  {
    if entries[0].Named? && Visit(codec, fs, source, entries[0].name) != Some(Document(d)) {
      OnlyItsNameYieldsADocument(codec, fs, source, entries[1..], d);
    }
  }

  ghost predicate NoneTwice(visits: seq<Advance>) {
    forall i, j | 0 <= i < j < |visits| && visits[i].Document? :: visits[i] != visits[j]
  }

  lemma {:induction false} NoneTwiceGrows(first: Advance, rest: seq<Advance>)
    requires NoneTwice(rest) && (first.Document? ==> first !in rest)
    ensures NoneTwice([first] + rest)
  {
    var visits := [first] + rest;
    forall i, j | 0 <= i < j < |visits| && visits[i].Document? ensures visits[i] != visits[j] {
      assert visits[j] == rest[j - 1];
      assert i > 0 ==> visits[i] == rest[i - 1];
    }
  }

  /** No document is yielded twice from a listing that names no file twice. */
  lemma {:induction false} EachDocumentOnce(codec: Codec, fs: Fs, source: Option<Source>, entries: seq<ListedEntry>)
    requires forall i, j | 0 <= i < j < |entries| :: entries[i] != entries[j]
    ensures NoneTwice(Visits(codec, fs, source, entries))
  {
    if entries != [] && entries[0].Named? {
      var rest, first := Visits(codec, fs, source, entries[1..]), Visit(codec, fs, source, entries[0].name);
      EachDocumentOnce(codec, fs, source, entries[1..]);
      if first.Some? {
        if first.value.Document? && first.value in rest {
          OnlyItsNameYieldsADocument(codec, fs, source, entries[1..], first.value.documentId);
        }
        NoneTwiceGrows(first.value, rest);
      }
    }
  }

  // ---------------------------------------------------------------------------------------------
  // The archive
  // ---------------------------------------------------------------------------------------------

  class LocalRawArchive {
    const codec: Codec
    const disk: Disk

    ghost predicate Valid()
      reads disk
    {
      Faithful(codec) && Consistent(disk.fs)
    }

    constructor (codec: Codec, disk: Disk)
      ensures this.codec == codec && this.disk == disk
    {
      this.codec := codec;
      this.disk := disk;
    }

    /** The bytes go to a temporary file, to disk, and only then under the record's name; what is left
        of the temporary file is removed in any case. */
    method Store(enriched: Enriched, original: OriginalPayload, temporary: string, file: nat) returns (error: Option<ArchiveError>)
      requires Valid() && IsTemporary(temporary) && temporary !in disk.fs.entries && file !in disk.fs.data
      modifies disk
      ensures Valid() && Replaced(enriched, original, old(disk.fs), old(|disk.trail|))
      ensures error.None? ==> Holds(codec, disk.fs, enriched, original) && disk.fs.SyncDirectory() == disk.fs
      ensures error.None? ==> temporary !in disk.fs.entries
      // What it wrote is safe from a crash exactly when the directories it found had their entries on disk.
      ensures error.None? ==> (Durable(codec, disk.fs, enriched, original) <==> old(disk.fs).Anchored(old(disk.fs).levels))
      // Where they had not, no store, returned or failed, makes that good.
      ensures !old(disk.fs).Anchored(old(disk.fs).levels) ==> !disk.fs.Anchored(disk.fs.levels)
      ensures disk.fs.depth == old(disk.fs).depth && old(disk.fs).levels <= disk.fs.levels
      ensures old(disk.fates) == [] ==> error.None? && disk.fates == []
      ensures old(disk.fs).levels + 1 == old(disk.fs).depth && old(disk.fates) == [Works, FailsBefore] ==>
        && error.Some? && disk.fates == [] && disk.fs.levels == disk.fs.depth && disk.fs.synced == old(disk.fs).synced
        && disk.fs.entries == old(disk.fs).entries && disk.fs.data == old(disk.fs).data
    {
      var name := RecordName(codec, enriched.conversation.DocumentId());
      var bytes := codec.dump(EnvelopeOf(codec, enriched, original));
      RecordNamesAreRecords(codec, enriched.conversation.DocumentId());
      ghost var before, from := disk.fs, |disk.trail|;
      var ok := disk.MakeDirectories(disk.fs.depth, before, from, name, bytes);
      if !ok {
        return Some(Unavailable);
      }
      CreatingScratch(disk.fs, name, bytes, temporary, file);
      ok := disk.Call(disk.fs.Create(temporary, file), before, from, name, bytes);
      if !ok {
        return Some(Unavailable);
      }
      ok := WriteAndPublish(name, bytes, temporary, file, before, from);
      if temporary in disk.fs.entries {
        DroppingScratch(disk.fs, name, bytes, temporary);
        var dropped := disk.Call(disk.fs.Drop(temporary), before, from, name, bytes);
      }
      error := if ok then None else Some(Unavailable);
      if ok {
        DurableWhenAnchored(codec, disk.fs, enriched, original);
      }
    }

    /** Every state since `from` was one in which a crash leaves each record as before, or this one
        wholly replaced. */
    ghost predicate Replaced(enriched: Enriched, original: OriginalPayload, before: Fs, from: nat)
      reads disk
    {
      disk.Steadily(before, from, RecordName(codec, enriched.conversation.DocumentId()), codec.dump(EnvelopeOf(codec, enriched, original)))
    }

    method WriteAndPublish(name: string, bytes: seq<Byte>, temporary: string, file: nat, ghost before: Fs, ghost from: nat) returns (ok: bool)
      requires disk.Steadily(before, from, name, bytes) && disk.fs.levels == disk.fs.depth
      requires IsTemporary(temporary) && temporary != name && disk.fs.Entry(temporary) == Some(file) && file !in disk.fs.safe
      modifies disk
      ensures disk.Steadily(before, from, name, bytes)
      ensures disk.fs.levels == disk.fs.depth == old(disk.fs).depth && disk.fs.synced == old(disk.fs).synced
      ensures ok ==> disk.fs.Read(name) == Some(bytes) && disk.fs.SyncDirectory() == disk.fs && temporary !in disk.fs.entries
      ensures old(disk.fates) == [] ==> ok && disk.fates == []
    {
      WritingScratch(disk.fs, name, bytes, file, bytes);
      ok := disk.Call(disk.fs.Write(file, bytes), before, from, name, bytes);
      if !ok {
        return;
      }
      SyncingScratch(disk.fs, name, bytes, file);
      ok := disk.Call(disk.fs.SyncFile(file), before, from, name, bytes);
      if !ok {
        return;
      }
      Publishing(disk.fs, name, bytes, temporary);
      ok := disk.Call(disk.fs.Rename(temporary, name), before, from, name, bytes);
      if !ok {
        return;
      }
      SyncingDirectory(disk.fs, name, bytes);
      ok := disk.Call(disk.fs.SyncDirectory(), before, from, name, bytes);
    }
  }

  /** A store that makes the directory and fails to sync its entry leaves it so for good: the next store
      returns, and what it wrote is lost in the next crash. */
  method UnsyncedDirectoryLosesStores(codec: Codec, first: Enriched, second: Enriched, original: OriginalPayload)
    returns (refused: Option<ArchiveError>, returned: Option<ArchiveError>, archive: LocalRawArchive)
    requires Faithful(codec)
    ensures refused.Some? && returned.None? && archive.codec == codec
    ensures Holds(codec, archive.disk.fs, second, original) && !Durable(codec, archive.disk.fs, second, original)
  {
    var disk := new Disk(Fs(1, 0, {}, map[], map[], map[], {}), [Works, FailsBefore]);
    EmptyIsConsistent(1);
    archive := new LocalRawArchive(codec, disk);
    refused := archive.Store(first, original, ".a.tmp", 0);
    assert 1 !in disk.fs.synced;
    returned := archive.Store(second, original, ".b.tmp", 1);
  }

  /** The cursor over the archive's documents. It moves past an entry before it looks at it. */
  class Identifiers {
    const archive: LocalRawArchive
    const source: Option<Source>
    const opening: Opening
    var entries: Option<seq<ListedEntry>>
    var done: bool

    /** What is still to come. */
    ghost function Ahead(): seq<Advance>
      reads this, archive.disk
    {
      if done then []
      else if entries.None? then Enumerated(archive.codec, archive.disk.fs, source, opening)
      else Visits(archive.codec, archive.disk.fs, source, entries.value)
    }

    constructor (archive: LocalRawArchive, source: Option<Source>, opening: Opening)
      ensures this.archive == archive && this.source == source && this.opening == opening
      ensures Ahead() == Enumerated(archive.codec, archive.disk.fs, source, opening)
    {
      this.archive := archive;
      this.source := source;
      this.opening := opening;
      entries := None;
      done := false;
    }

    method Next() returns (advance: Advance)
      modifies this
      ensures if old(Ahead()) == [] then advance == Finished && Ahead() == []
        else [advance] + Ahead() == old(Ahead()) && advance != Finished
    {
      if done {
        return Finished;
      }
      if entries.None? {
        done := true;
        match opening {
          case Refused(error) => return Raised(error);
          case Missing => return Finished;
          case Opened(listed) => entries := Some(listed);
        }
        done := false;
      }
      while entries.value != []
        invariant entries.Some? && !done
        invariant Visits(archive.codec, archive.disk.fs, source, entries.value) == old(Ahead())
        decreases |entries.value|
      {
        var entry := entries.value[0];
        entries := Some(entries.value[1..]);
        if entry.Broken? {
          done := true;
          return Raised(Unavailable);
        }
        if !IsTemporary(entry.name) {
          match ReadRecord(archive.codec, archive.disk.fs, entry.name, None) {
            case Failure(error) => return Raised(error);
            case Success(e) =>
              if source.None? || e.enriched.conversation.source == source.value {
                return Document(e.documentId);
              }
          }
        }
      }
      done := true;
      return Finished;
    }
  }
}
