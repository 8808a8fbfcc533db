/** Reading an export, archiving what it yields, and replaying the archive: the same conversations. */
module Replay {
  import opened Wrappers
  import opened Conversations
  import opened Json
  import opened Records
  import opened JsonDecoder
  import opened JsonArrays
  import opened Threads
  import opened ParsedRecords
  import opened FileSystem
  import opened Archive
  import Canonical
  import Utf8

  const MEDIA_TYPE := "application/json"

  // ---------------------------------------------------------------------------------------------
  // What one record yields
  // ---------------------------------------------------------------------------------------------

  /** The record parses, and says this conversation. */
  ghost predicate Yields(record: Json, read: MessageReader, c: Conversation) {
    exists thread, parsed: ReadConversation :: Says(record, read, thread, parsed) && parsed.conversation == c
  }

  lemma {:induction false} YieldsOneThing(record: Json, read: MessageReader, a: Conversation, b: Conversation)
    requires Yields(record, read, a) && Yields(record, read, b)
    ensures a == b
  {
    var t, x: ReadConversation :| Says(record, read, t, x) && x.conversation == a;
    var u, y: ReadConversation :| Says(record, read, u, y) && y.conversation == b;
    RecordSaysOneThing(record, read, t, x, u, y);
  }

  /** A record's conversation is filed under the record's own identifier. */
  lemma {:induction false} YieldsItsId(record: Json, read: MessageReader, c: Conversation)
    requires Yields(record, read, c)
    ensures c.source == ChatGpt && SourceId(record) == Some(c.sourceId)
  {
  }

  ghost function ConversationOf(record: Json, read: MessageReader): Option<Conversation> {
    if exists c :: Yields(record, read, c) then
      var c :| Yields(record, read, c);
      Some(c)
    else None
  }

  /** The parser is a function of the record. */
  method Parse(record: Json, read: MessageReader) returns (c: Option<Conversation>)
    ensures c == ConversationOf(record, read)
  {
    var parsed := ParseRecord(record, read);
    if parsed.Failure? {
      assert forall other :: !Yields(record, read, other);
      return None;
    }
    assert Yields(record, read, parsed.value.conversation);
    YieldsOneThing(record, read, parsed.value.conversation, ConversationOf(record, read).value);
    return Some(parsed.value.conversation);
  }

  function OriginalOf(raw: string): OriginalPayload {
    OriginalPayload(Utf8.Encode(raw), MEDIA_TYPE)
  }

  // ---------------------------------------------------------------------------------------------
  // Reading an export
  // ---------------------------------------------------------------------------------------------

  /** One conversations file, scanned from its start. */
  function ScanFile(text: string): (scan: Scan<Json>)
    ensures !scan.ending.Element?
  {
    JsonIsLawful();
    ScanAll(JSON_DECODER, text, Start)
  }

  /** What asking the source for the next conversation comes to. */
  datatype Pulled = Item(item: SourceConversation) | Malformed(subject: Option<string>) | Exhausted

  /** What one record comes to, after the identifiers in `seen`. */
  ghost function Converted(read: MessageReader, record: ExportRecord<Json>, seen: set<string>): Pulled {
    match ConversationOf(record.value, read)
    case None => Malformed(SourceId(record.value))
    case Some(c) =>
      if c.sourceId in seen then Malformed(Some(c.sourceId)) else Item(SourceConversation(c, OriginalOf(record.raw)))
  }

  function SeenAfter(pulled: Pulled, seen: set<string>): set<string> {
    if pulled.Item? then seen + {pulled.item.conversation.sourceId} else seen
  }

  /** Every file's records in order; a record that does not parse, or repeats an identifier, is reported
      and passed over; a file that cannot be scanned further ends the reading. */
  ghost function Pulls(read: MessageReader, scan: Scan<Json>, later: seq<string>, seen: set<string>): seq<Pulled>
    decreases |later|, |scan.records|
  {
    if scan.records != [] then
      var first := Converted(read, scan.records[0], seen);
      [first] + Pulls(read, Scan(scan.records[1..], scan.ending), later, SeenAfter(first, seen))
    else if scan.ending.Refused? then [Malformed(None)]
    else if later == [] then []
    else Pulls(read, ScanFile(later[0]), later[1..], seen)
  }

  const NOTHING_YET: Scan<Json> := Scan([], Stop)

  ghost function PullsOf(read: MessageReader, files: seq<string>): seq<Pulled>
  {
    Pulls(read, NOTHING_YET, files, {})
  }

  class ExportReader {
    const read: MessageReader
    var scan: Scan<Json>
    var later: seq<string>
    var seen: set<string>
    var done: bool

    ghost function Ahead(): seq<Pulled>
      reads this
    {
      if done then [] else Pulls(read, scan, later, seen)
    }

    constructor (files: seq<string>, read: MessageReader)
      ensures this.read == read && Ahead() == PullsOf(read, files)
    {
      this.read := read;
      scan := NOTHING_YET;
      later := files;
      seen := {};
      done := false;
    }

    method NextRecord() returns (record: Result<Option<ExportRecord<Json>>, Refusal>)
      modifies `scan, `later, `done
      ensures match record
        case Success(Some(r)) =>
          !done && old(Ahead()) == [Converted(read, r, seen)] + Pulls(read, scan, later, SeenAfter(Converted(read, r, seen), seen))
        case Success(None) => done && old(Ahead()) == []
        case Failure(_) => done && old(Ahead()) == [Malformed(None)]
    {
      if done {
        return Success(None);
      }
      while scan.records == []
        invariant !done && Pulls(read, scan, later, seen) == old(Ahead())
        decreases |later|, scan.records == []
      {
        if scan.ending.Refused? {
          done := true;
          return Failure(scan.ending.why);
        }
        if later == [] {
          done := true;
          return Success(None);
        }
        scan := ScanFile(later[0]);
        later := later[1..];
      }
      record := Success(Some(scan.records[0]));
      scan := Scan(scan.records[1..], scan.ending);
    }

    method Convert(record: ExportRecord<Json>) returns (pulled: Pulled)
      modifies `seen
      ensures pulled == Converted(read, record, old(seen)) && seen == SeenAfter(pulled, old(seen))
    {
      var subject := SourceId(record.value);
      var c := Parse(record.value, read);
      if c.None? {
        return Malformed(subject);
      }
      if c.value.sourceId in seen {
        return Malformed(Some(c.value.sourceId));
      }
      seen := seen + {c.value.sourceId};
      return Item(SourceConversation(c.value, OriginalOf(record.raw)));
    }

    method Next() returns (pulled: Pulled)
      modifies this
      ensures if old(Ahead()) == [] then pulled == Exhausted && Ahead() == [] else [pulled] + Ahead() == old(Ahead()) && pulled != Exhausted
    {
      var next := NextRecord();
      match next {
        case Failure(_) => return Malformed(None);
        case Success(None) => return Exhausted;
        case Success(Some(record)) => pulled := Convert(record);
      }
    }
  }

  /** No item bears an identifier in `seen`, and no two bear the same. */
  ghost predicate Distinct(pulls: seq<Pulled>, seen: set<string>) {
    && (forall i | 0 <= i < |pulls| && pulls[i].Item? :: pulls[i].item.conversation.sourceId !in seen)
    && (forall i, j | 0 <= i < j < |pulls| && pulls[i].Item? && pulls[j].Item? ::
      pulls[i].item.conversation.sourceId != pulls[j].item.conversation.sourceId)
  }

  lemma {:induction false} DistinctGrows(first: Pulled, tail: seq<Pulled>, seen: set<string>)
    requires first.Item? ==> first.item.conversation.sourceId !in seen
    requires Distinct(tail, SeenAfter(first, seen))
    ensures Distinct([first] + tail, seen)
  {
    var pulls := [first] + tail;
    assert forall i | 0 < i < |pulls| :: pulls[i] == tail[i - 1];
  }

  lemma {:induction false} ConvertedIsFresh(read: MessageReader, record: ExportRecord<Json>, seen: set<string>)
    ensures var pulled := Converted(read, record, seen); pulled.Item? ==> pulled.item.conversation.sourceId !in seen
  {
  }

  /** One reading of an export never yields one identifier twice, whatever the files hold. */
  lemma {:induction false} PullsAreDistinct(read: MessageReader, scan: Scan<Json>, later: seq<string>, seen: set<string>)
    ensures Distinct(Pulls(read, scan, later, seen), seen)
    decreases |later|, |scan.records|
  {
    if scan.records != [] {
      var first, rest := Converted(read, scan.records[0], seen), Scan(scan.records[1..], scan.ending);
      ConvertedIsFresh(read, scan.records[0], seen);
      PullsAreDistinct(read, rest, later, SeenAfter(first, seen));
      DistinctGrows(first, Pulls(read, rest, later, SeenAfter(first, seen)), seen);
    } else if !scan.ending.Refused? && later != [] {
      PullsAreDistinct(read, ScanFile(later[0]), later[1..], seen);
    }
  }

  /** And it never yields that it is exhausted. */
  lemma {:induction false} PullsGoOn(read: MessageReader, scan: Scan<Json>, later: seq<string>, seen: set<string>)
    ensures forall i | 0 <= i < |Pulls(read, scan, later, seen)| :: !Pulls(read, scan, later, seen)[i].Exhausted?
    decreases |later|, |scan.records|
  {
    if scan.records != [] {
      PullsGoOn(read, Scan(scan.records[1..], scan.ending), later, SeenAfter(Converted(read, scan.records[0], seen), seen));
    } else if !scan.ending.Refused? && later != [] {
      PullsGoOn(read, ScanFile(later[0]), later[1..], seen);
    }
  }

  predicate IsRecordOf(record: ExportRecord<Json>) {
    IsValueText(record.raw) && ScanValue(record.raw, 0).value == record.value
  }

  /** The item's bytes are the UTF-8 text of one JSON value, and that value says the conversation. */
  ghost predicate SaidBy(read: MessageReader, item: SourceConversation, record: ExportRecord<Json>) {
    IsRecordOf(record) && item.original == OriginalOf(record.raw) && Yields(record.value, read, item.conversation)
  }

  ghost predicate FromRecord(read: MessageReader, pulled: Pulled) {
    pulled.Item? ==> exists record :: SaidBy(read, pulled.item, record)
  }

  lemma {:induction false} ConvertedIsSaid(read: MessageReader, record: ExportRecord<Json>, seen: set<string>)
    requires IsRecordOf(record)
    ensures FromRecord(read, Converted(read, record, seen))
  {
    var pulled := Converted(read, record, seen);
    if pulled.Item? {
      assert SaidBy(read, pulled.item, record);
    }
  }

  ghost predicate AllSaid(read: MessageReader, pulls: seq<Pulled>) {
    forall i | 0 <= i < |pulls| :: FromRecord(read, pulls[i])
  }

  lemma {:induction false} SaidGrows(read: MessageReader, first: Pulled, tail: seq<Pulled>)
    requires FromRecord(read, first) && AllSaid(read, tail)
    ensures AllSaid(read, [first] + tail)
  {
  }

  predicate AreRecords(records: seq<ExportRecord<Json>>) {
    forall r | 0 <= r < |records| :: IsRecordOf(records[r])
  }

  lemma {:induction false} RecordsSplit(records: seq<ExportRecord<Json>>)
    requires AreRecords(records) && records != []
    ensures IsRecordOf(records[0]) && AreRecords(records[1..])
  {
  }

  /** Every item an export yields is what one of its records says, with that record's exact text. */
  lemma {:induction false} PullsAreSaid(read: MessageReader, scan: Scan<Json>, later: seq<string>, seen: set<string>)
    requires AreRecords(scan.records)
    ensures AllSaid(read, Pulls(read, scan, later, seen))
    decreases |later|, |scan.records|
  {
    if scan.records != [] {
      var first, rest := Converted(read, scan.records[0], seen), Scan(scan.records[1..], scan.ending);
      RecordsSplit(scan.records);
      ConvertedIsSaid(read, scan.records[0], seen);
      PullsAreSaid(read, rest, later, SeenAfter(first, seen));
      SaidGrows(read, first, Pulls(read, rest, later, SeenAfter(first, seen)));
    } else if !scan.ending.Refused? && later != [] {
      FileRecordsAreValues(later[0]);
      PullsAreSaid(read, ScanFile(later[0]), later[1..], seen);
    }
  }

  lemma {:induction false} FileRecordsAreValues(text: string)
    ensures AreRecords(ScanFile(text).records)
  {
    JsonIsLawful();
    var rest := SkipMark(SkipSpace(text));
    if rest != [] && rest[0] == '[' {
      assert Step(JSON_DECODER, text, Start) == Step(JSON_DECODER, rest[1..], First);
      RecordsDecodeAlone(JSON_DECODER, rest[1..], First);
      var records := ScanAll(JSON_DECODER, rest[1..], First).records;
      assert ScanFile(text).records == records;
      forall r | 0 <= r < |records| ensures IsRecordOf(records[r]) {
        assert DecodesAlone(JSON_DECODER, records[r]);
        assert records[r].raw[0..] == records[r].raw;
      }
    }
  }

  // ---------------------------------------------------------------------------------------------
  // Replaying the archive
  // ---------------------------------------------------------------------------------------------

  /** A whole text as one JSON value, blanks around it allowed. */
  function JsonLoads(text: string): Option<Json> {
    if text != [] && text[0] == BYTE_ORDER_MARK then None
    else
      match ScanValue(text, SkipBlanks(text, 0))
      case Bad(_, _) => None
      case Good(v, end) => if SkipBlanks(text, end) == |text| then Some(v) else None
  }

  /** The original decodes, and says this conversation through the current parser. */
  ghost predicate Tells(read: MessageReader, original: OriginalPayload, c: Conversation) {
    && original.mediaType == MEDIA_TYPE
    && var text := Utf8.Decode(original.content);
    && text.Some? && JsonLoads(text.value).Some?
    && Yields(JsonLoads(text.value).value, read, c)
  }

  /** What the original archived under a document is replayed as. */
  ghost predicate ReplaysAs(read: MessageReader, documentId: string, original: OriginalPayload, c: Conversation) {
    Tells(read, original, c) && c.DocumentId() == documentId
  }

  lemma {:induction false} TellsOneThing(read: MessageReader, original: OriginalPayload, a: Conversation, b: Conversation)
    requires Tells(read, original, a) && Tells(read, original, b)
    ensures a == b
  {
    YieldsOneThing(JsonLoads(Utf8.Decode(original.content).value).value, read, a, b);
  }

  lemma {:induction false} ReplaysAsItself(read: MessageReader, original: OriginalPayload, c: Conversation)
    requires Tells(read, original, c)
    ensures forall x :: ReplaysAs(read, c.DocumentId(), original, x) <==> x == c
  {
    forall x | Tells(read, original, x) ensures x == c {
      TellsOneThing(read, original, x, c);
    }
  }

  /** What is told comes from a record of this source, and can be hashed. */
  lemma {:induction false} ToldCanBeHashed(read: MessageReader, original: OriginalPayload, c: Conversation)
    requires Tells(read, original, c) && ReadsExportTimes(read)
    ensures c.source == ChatGpt && Canonical.CanonicalBytes(c).Success?
  {
    var record := JsonLoads(Utf8.Decode(original.content).value).value;
    YieldsItsId(record, read, c);
    var thread, parsed: ReadConversation :| Says(record, read, thread, parsed) && parsed.conversation == c;
    WhatIsYieldedCanBeHashed(record, read, thread, parsed);
  }

  /** What asking the replay for the next conversation comes to: an archive error is passed on as it is,
      an original that does not parse is reported under its document. */
  datatype Replayed = Replay(item: SourceConversation) | Unparsed(documentId: string) | Failing(error: ArchiveError) | End

  class ArchiveReader {
    const archive: LocalRawArchive
    const identities: Identifiers
    const read: MessageReader

    constructor (archive: LocalRawArchive, identities: Identifiers, read: MessageReader)
      ensures this.archive == archive && this.identities == identities && this.read == read
    {
      this.archive := archive;
      this.identities := identities;
      this.read := read;
    }

    method Next() returns (replayed: Replayed)
      modifies identities
      ensures var ahead := old(identities.Ahead());
        if ahead == [] then replayed == End && identities.Ahead() == []
        else ahead == [ahead[0]] + identities.Ahead() && Answers(ahead[0], replayed)
    {
      var advance := identities.Next();
      match advance {
        case Finished => return End;
        case Raised(error) => return Failing(error);
        case Document(documentId) =>
          var original := LoadOriginal(archive.codec, archive.disk.fs, documentId);
          if original.Failure? {
            return Failing(original.error);
          }
          replayed := Convert(documentId, original.value);
      }
    }

    ghost predicate Answers(advance: Advance, replayed: Replayed)
      reads archive.disk
    {
      match advance
      case Finished => false
      case Raised(error) => replayed == Failing(error)
      case Document(documentId) =>
        match LoadOriginal(archive.codec, archive.disk.fs, documentId)
        case Failure(error) => replayed == Failing(error)
        case Success(original) => Converts(documentId, original, replayed)
    }

    ghost predicate Converts(documentId: string, original: OriginalPayload, replayed: Replayed) {
      match replayed
      case Replay(item) => item.original == original && ReplaysAs(read, documentId, original, item.conversation)
      case Unparsed(document) => document == documentId && forall c :: !ReplaysAs(read, documentId, original, c)
      case _ => false
    }

    method Convert(documentId: string, original: OriginalPayload) returns (replayed: Replayed)
      ensures Converts(documentId, original, replayed)
    {
      if original.mediaType != MEDIA_TYPE {
        return Unparsed(documentId);
      }
      var text := Utf8.Decode(original.content);
      if text.None? {
        return Unparsed(documentId);
      }
      var value := JsonLoads(text.value);
      if value.None? {
        return Unparsed(documentId);
      }
      var parsed := ParseRecord(value.value, read);
      if parsed.Failure? {
        return Unparsed(documentId);
      }
      var c := parsed.value.conversation;
      assert Yields(value.value, read, c);
      if c.DocumentId() != documentId {
        forall other | Yields(value.value, read, other) ensures other == c {
          YieldsOneThing(value.value, read, other, c);
        }
        return Unparsed(documentId);
      }
      return Replay(SourceConversation(c, original));
    }
  }

  // ---------------------------------------------------------------------------------------------
  // The round trip
  // ---------------------------------------------------------------------------------------------

  lemma {:induction false} RecordLoads(record: ExportRecord<Json>)
    requires IsRecordOf(record)
    ensures JsonLoads(record.raw) == Some(record.value)
  {
    ValueTextStart(record.raw);
  }

  /** An item's own bytes tell its own conversation, and are replayed as no other. */
  lemma {:induction false} ItemReplays(read: MessageReader, item: SourceConversation, record: ExportRecord<Json>)
    requires SaidBy(read, item, record)
    ensures Tells(read, item.original, item.conversation)
    ensures forall c :: ReplaysAs(read, item.conversation.DocumentId(), item.original, c) <==> c == item.conversation
  {
    Utf8.RoundTrip(record.raw);
    RecordLoads(record);
    ReplaysAsItself(read, item.original, item.conversation);
  }
}
