# Verified model of the conversation importer

This project models the importer that reads exported ChatGPT conversations, redacts secrets from them,
files them under a project, archives them, hands them to a memory engine, and remembers what it did. It
proves, for all inputs and all runs, what its documentation and tests promise of each component.

- `Records`, `JsonDecoder`, `JsonArrays`: the streaming scanner refines a scan of the whole text in one
  buffer, for every chunk size and every short read. The scanner is proved over any decoder that meets four
  laws; a decoder of RFC 8259 (sections 3 to 7) is proved to meet them.
- `Retain`, `Resets`: the client of the memory engine, its table of uncertain operations, and a lossy
  network in front of an engine that runs once per operation id.
- `JsonWriter`, `Utf8`, `Canonical`: the canonical bytes of a conversation, written and read back.
- `FileSystem`, `Archive`: the local archive on a file system with a view programs see, a view a crash
  leaves, failing calls and a crash at any step; and the enumeration cursor.
- `Threads`, `Turns`, `ParsedRecords`: the conversation graph, the thread read off it, tool calls folded
  into turns, and the account that every node is somewhere.
- `Manifest`, `Spans`, `Redaction`, `Sanitizer`: secrets found, overlaps resolved, texts spliced, counts
  reported.
- `Aliases`, `Classifier`: rule validation, alias search, and the project a conversation is filed under.
- `Pipeline`: one conversation after another over boundaries that fail or are interrupted anywhere.
- `Replay`: the export source, and the replay of archived originals through the parser.
- `Imports`: what the archive holds after any history of imports, on disk, and what replaying it yields.
- `Conversations`, `Json`, `Wrappers`: the shared vocabulary.

Code that changes state is modelled by classes and loops, each proved equal to a specification function;
the theorems are about those functions. Exceptions are values (`Result`, `Option`, `Fate`). What the model
takes as given appears as a parameter with a named hypothesis: `Lawful` (the scanner's decoder), `Injective`
(the fingerprint of a request), `Faithful` and `Apart` (the archive's serializer, digest and base64),
`Regular` (case folding and character classes), `SoundTable` (matches in range, in order and not empty).

Where the code does not keep a promise as written, the exact condition is proved instead. A store's
record is durable exactly when every directory on the way already had its own entry on disk (`local.py`
lines 79-86 skip a directory that exists, also one whose entry was never synced). The blocks of Secret
manifests are nested or disjoint, not always disjoint (`patterns.py` lines 184-186). A conversation has
canonical bytes exactly when every message's UTC time fits the years a datetime can hold; whatever an
export yields has them. Importing and then replaying does not always yield what the export last yielded: a
conversation whose title or times alone changed has its old content hash, is skipped, and is replayed from
the original archived before (`pipeline.py` lines 105-112, `canonical.py` lines 94-116).

## Model

| member | source | states |
|---|---|---|
| Records.ScanTilesTheText | src/engineering_memory/ingestion/chatgpt/records.py:113-162 | a one-buffer scan that ends well accounts for every character: the elements' exact texts, in order, with blanks, separating commas and the closing bracket between them, make up the text |
| Records.RecordsDecodeAlone | src/engineering_memory/ingestion/chatgpt/records.py:158-162 | the exact text kept of each element decodes, alone, to the value yielded with it |
| Records.RecordScanner.ReadMore | src/engineering_memory/ingestion/chatgpt/records.py:168-176 | a read of any length, short ones included, only moves text from the stream to the buffer: what is still to be scanned stays the same |
| Records.RecordScanner.Peek | src/engineering_memory/ingestion/chatgpt/records.py:178-191 | the next character that is not blank, wherever chunk boundaries fall; none exactly when only blanks are left |
| Records.RecordScanner.DecodeOne | src/engineering_memory/ingestion/chatgpt/records.py:145-162 | the element one buffer would decode, its exact text, and at most 2 + log2(n) decodes for an element of n characters that is followed by a delimiter, on a stream that fills its reads |
| Records.RecordScanner.CloseArray | src/engineering_memory/ingestion/chatgpt/records.py:138-143 | after the closing bracket only blanks may follow |
| Records.RecordScanner.AdvanceInArray | src/engineering_memory/ingestion/chatgpt/records.py:122-136 | one step inside the array is the one-buffer step, for every chunk size and every short read |
| Records.RecordScanner.Advance | src/engineering_memory/ingestion/chatgpt/records.py:113-136 | the first step skips blanks and one byte-order mark and demands the opening bracket; every step is the one-buffer step |
| Records.RecordScanner.Next | src/engineering_memory/ingestion/chatgpt/records.py:98-111 | the iterator ends for good after its first ending or refusal |
| Records.RecordScanner.ReadAll | src/engineering_memory/ingestion/chatgpt/records.py:98-162 | run to its end it yields exactly the records and the ending of the one-buffer scan, and terminates; a failing stream yields a prefix of them |
| JsonDecoder.JsonIsLawful | src/engineering_memory/ingestion/chatgpt/records.py:145-162 | the decoder of RFC 8259 values meets every hypothesis the scanner puts on its decoder: answers depend on the text from the position on, trusted answers survive any extension of the buffer, and a value is decided by its own text |
| JsonDecoder.ValueRefused | src/engineering_memory/ingestion/chatgpt/records.py:58-61 | a refusal that is not near the end of the buffer and is not an unterminated string stays a refusal whatever text follows |
| JsonArrays.ScanAcceptsExactlyArrays | src/engineering_memory/ingestion/chatgpt/records.py:113-143 | after the opening bracket the scan ends well with given element texts if and only if the text is an array of those JSON values, one comma before the closing bracket tolerated |
| JsonWriter.BuildOrderIsLost | src/engineering_memory/normalization/canonical.py:132-134 | two records of the same fields are written alike, whatever order they were built in |
| JsonWriter.RoundTrip | src/engineering_memory/normalization/canonical.py:132-134 | what the writer writes is decoded to the value it stands for, whatever text surrounds it: escapes, numbers, lists and records alike |
| Utf8.RoundTrip | src/engineering_memory/normalization/canonical.py:132-134 | bytes written from a text decode to that text |
| Canonical.FormatTells | src/engineering_memory/normalization/canonical.py:42-54 | no two instants a datetime can hold are written alike |
| Canonical.MessageTells | src/engineering_memory/normalization/canonical.py:73-91 | two messages whose forms decode alike agree on role, text, instant, tool activity and non-text parts |
| Canonical.BytesDecode | src/engineering_memory/normalization/canonical.py:119-134 | the canonical bytes decode to the form they were written from |
| Canonical.BytesExist | src/engineering_memory/normalization/canonical.py:57-70 | a conversation has canonical bytes exactly when the UTC value of every message's time lies in the years a datetime can hold |
| Canonical.TooEarlyToWrite | src/engineering_memory/normalization/canonical.py:57-70 | a conversation without canonical bytes: a message on the first day of the calendar, at an offset ahead of UTC |
| Canonical.RepresentableInterval | src/engineering_memory/normalization/canonical.py:42-54 | the instants a datetime can hold are those of one interval of 3652059 days, counted over the calendar's months and leap years |
| Canonical.EqualBytesEqualContent | src/engineering_memory/normalization/canonical.py:94-134 | two conversations have equal canonical bytes if and only if their messages agree, in order, on role, text, instant, tool activity and non-text parts: titles, offsets and conversation times never matter |
| Retain.Post | src/engineering_memory/memory/hindsight/store.py:109-121 | at most the bounded number of requests is sent; the engine gains at most this operation with this item; a certain refusal means it gained nothing, an answer that it has it |
| Retain.RetainKeepsGood | src/engineering_memory/memory/hindsight/store.py:179-231 | every retain, whatever is lost, refused, late or interrupted, keeps every id ever minted accounted for: at most one uncertain id per document, 128 in all, none refused that the engine took |
| Retain.RetainedMeansCompleted | src/engineering_memory/memory/hindsight/store.py:204-222 | a retain returns only when an operation the engine accepted with exactly this content has completed, and the document is then no longer uncertain |
| Retain.SameContentSameId | src/engineering_memory/memory/hindsight/store.py:184-193 | the same content handed in again never gets another id: the document keeps the one it has until the engine's verdict |
| Retain.OthersUntouched | src/engineering_memory/memory/hindsight/store.py:179-231 | no retain touches another document's uncertain operation |
| Retain.ExtractionsAreBounded | src/engineering_memory/memory/hindsight/store.py:161-164 | the operations an engine that runs once per id ran for a document are at most 1 + its verdicts + its content changes; refused ids are not among them |
| Retain.EveryRun | src/engineering_memory/memory/hindsight/store.py:95-231 | the bound on extractions and the bound of 128 uncertain operations hold after every sequence of retains against every network |
| Retain.RetriesExtractOnce | src/engineering_memory/memory/hindsight/store.py:184-193 | one content handed in any number of times before the engine decides is extracted at most once |
| Retain.AnsweredIsRetained | src/engineering_memory/memory/hindsight/store.py:204-222 | a retain returns if and only if its request fits, the table has room for its document, and within the bounded attempts an acknowledgement of exactly this operation comes through and then, after any number of polls, a completion; whatever happens later |
| Retain.HindsightStore.PostWithRetries | src/engineering_memory/memory/hindsight/retry.py:57-134 | the attempt loop does what the specification of a POST with retries says, including that a refusal after a lost answer is not certain |
| Retain.HindsightStore.Await | src/engineering_memory/memory/hindsight/store.py:213-231 | polling ends with the specified outcome and forgets the id exactly on completed, failed and cancelled |
| Retain.HindsightStore.Submit | src/engineering_memory/memory/hindsight/store.py:197-212 | the POST, its acknowledgement check and the polling are the specified step; the id is dropped only on a certain refusal of a new operation |
| Retain.HindsightStore.Retain | src/engineering_memory/memory/hindsight/store.py:179-231 | one retain is the specified step on the table and the network, and keeps everything accounted for |
| Resets.IsReset | src/engineering_memory/memory/hindsight/retry.py:22-31 | the walk ends on every chain of causes, circular ones included, and finds a reset if and only if one lies on it |
| FileSystem.CrashFindsOldOrNew | src/engineering_memory/archive/local.py:89-96 | a crash in any state met while a record is replaced leaves that record as some earlier crash could have or wholly new, and every other record as before; where it loses a directory, it leaves no record at all |
| FileSystem.RunsLeaveRecordsWhole | src/engineering_memory/archive/local.py:89-96 | over any run of replacements, finished or not, and crashes, what is read of a record is nothing, what may have been there at first, or wholly one of the contents it was replaced by |
| FileSystem.Disk.MakeDirectories | src/engineering_memory/archive/local.py:79-86 | missing directories are made and synced one by one; those that exist are left as they are |
| Archive.LocalRawArchive.WriteAndPublish | src/engineering_memory/archive/local.py:143-151 | temporary file, file sync, rename and directory sync, any of which may fail with or without effect: in every state passed through, readers and crashes find the record old or wholly new |
| Archive.LocalRawArchive.Store | src/engineering_memory/archive/local.py:126-166 | a store that returns leaves both forms readable under the document's name, synced, with no temporary file, and is safe from a crash if and only if the directories it found had their own entries on disk; one that fails leaves the record old or wholly new; no store makes an unsynced directory good |
| Archive.LoadsWhatIsHeld | src/engineering_memory/archive/local.py:168-202 | load and load_original give back exactly the forms that were stored, through every integrity check |
| Archive.CrashLeavesDocumentsWhole | src/engineering_memory/archive/local.py:126-166 | after a crash at any step of a store, every document is as before, or is the stored one and loads as stored; where the crash loses a directory, no document is found |
| Archive.EveryRunLeavesDocumentsWhole | src/engineering_memory/archive/local.py:126-202 | over any run of stores, whatever fails in them, and crashes anywhere, an archive that began empty loads a document in both forms as it was stored some time, or does not have it |
| Archive.DurableWhenAnchored | src/engineering_memory/archive/local.py:79-96 | what a returned store wrote is found after every crash if and only if every directory on the way already has its own entry on disk |
| Archive.UnsyncedDirectoryLosesStores | src/engineering_memory/archive/local.py:79-86 | against the promise that a returned store is durable: after a store that made the directory and failed to sync its entry, the next store returns and is lost in a crash |
| Archive.NothingHidesLaterEntries | src/engineering_memory/archive/local.py:223-250 | entries after a corrupt record or a temporary file are visited as if they stood alone |
| Archive.HeldIsEnumerated | src/engineering_memory/archive/local.py:223-250 | a listed document the archive holds is found, whatever stands before and after it |
| Archive.EachDocumentOnce | src/engineering_memory/archive/local.py:223-250 | no document is yielded twice |
| Archive.Identifiers.Next | src/engineering_memory/archive/local.py:214-254 | the cursor hands out everything a listing comes to, one by one, past every entry exactly once, and then stays finished |
| Threads.Validate | src/engineering_memory/ingestion/chatgpt/thread.py:54-91 | a mapping is accepted if and only if it is one rooted tree whose parent and child links agree; the root is returned |
| Threads.CountReached | src/engineering_memory/ingestion/chatgpt/thread.py:80-91 | the stack walk counts exactly the nodes reachable from the root, each once, so the overflow guard never fires |
| Threads.PathIsUnique | src/engineering_memory/ingestion/chatgpt/thread.py:108-111 | there is one way down to a node |
| Threads.PathIsSimple | src/engineering_memory/ingestion/chatgpt/thread.py:108-111 | it visits no node twice and is no longer than the mapping |
| Threads.LastChildLeaf | src/engineering_memory/ingestion/chatgpt/thread.py:94-98 | following last children ends, at the leaf at the end of the last-child path |
| Threads.Climb | src/engineering_memory/ingestion/chatgpt/thread.py:108-111 | climbing the parents and reversing gives the path from the root |
| Threads.Reconstruct | src/engineering_memory/ingestion/chatgpt/thread.py:101-115 | on exactly the trees, the thread from the root to the marked node, or to the last-child leaf when none validly is |
| Threads.ThreadIsUnique | src/engineering_memory/ingestion/chatgpt/thread.py:101-115 | a mapping and a marked node have one thread, simple, with path length plus abandoned equal to the number of nodes |
| Turns.FoldToolCalls | src/engineering_memory/ingestion/chatgpt/content.py:186-227 | the loop folds an item exactly when the one before it is a call and it is a tool turn naming that call's tool |
| Turns.NothingIsLost | src/engineering_memory/ingestion/chatgpt/content.py:186-227 | turns plus folded equals the number of items |
| Turns.FoldingKeepsEverything | src/engineering_memory/ingestion/chatgpt/content.py:195-227 | flattening the turns gives back every original text and marker in order |
| ParsedRecords.ParseRecord | src/engineering_memory/ingestion/chatgpt/conversation.py:85-151 | a record is read as what it says along its thread, and refused only when it says nothing |
| ParsedRecords.WhatIsYieldedCanBeHashed | src/engineering_memory/ingestion/chatgpt/conversation.py:85-151 | whatever a record says has canonical bytes, and so a content hash, where message times are read as the export states them; its identifier has no blank and no control character |
| ParsedRecords.EveryNodeCounts | src/engineering_memory/ingestion/chatgpt/conversation.py:93-110 | every node of the thread is a turn, structural, hidden or hidden reasoning, and none is two of them |
| ParsedRecords.EarliestIsEarliest | src/engineering_memory/ingestion/chatgpt/conversation.py:113-120 | the fallback start is the earliest time any turn carries |
| ParsedRecords.AccountAlwaysAddsUp | src/engineering_memory/ingestion/chatgpt/conversation.py:46-60 | turns, folded, structural, hidden, hidden reasoning and abandoned add up to the nodes, so the account's own check never refuses; the last activity never precedes the start |
| ParsedRecords.RecordSaysOneThing | src/engineering_memory/ingestion/chatgpt/conversation.py:85-151 | a record says one conversation: parsing is a function of the decoded value |
| ParsedRecords.ThreadTextsAreKept | src/engineering_memory/ingestion/chatgpt/conversation.py:85-151 | every text and marker of the thread's turns is in the conversation, in order |
| Spans.Merge | src/engineering_memory/sanitization/scanner.py:114-135 | the linear merge keeps exactly what asking every kept span in turn would keep, sorted and disjoint, in at most |kept| + |incoming| advances |
| Spans.Resolve | src/engineering_memory/sanitization/scanner.py:91-111 | pattern by pattern, it keeps the spans of the quadratic pass over precedence, start and longest first |
| Spans.GreedyChooses | src/engineering_memory/sanitization/scanner.py:91-100 | what is kept is pairwise disjoint and maximal: every dropped span overlaps a kept one of equal or more specific precedence |
| Spans.ResolutionIsUnique | src/engineering_memory/sanitization/scanner.py:91-111 | no order of the input spans shows in the result |
| Spans.KeptIsChain | src/engineering_memory/sanitization/scanner.py:91-135 | whatever non-empty spans come in, overlapping or repeated, what is kept is sorted and disjoint |
| Redaction.FindSpans | src/engineering_memory/sanitization/scanner.py:44-62 | the spans of every pattern, region and match, in order |
| Redaction.FoundSpans | src/engineering_memory/sanitization/scanner.py:44-62 | a span is found if and only if some pattern recognizes its value in one of its regions, long enough, no placeholder and no code expression |
| Redaction.SpliceKeepsTheRest | src/engineering_memory/sanitization/scanner.py:148-158 | every character outside the kept spans survives in order and at its place, and each span becomes one replacement |
| Redaction.Rewrite | src/engineering_memory/sanitization/scanner.py:148-158 | the cursor walk is that splice, and counts one per span by category |
| Redaction.Redact | src/engineering_memory/sanitization/scanner.py:138-158 | the text with exactly the kept spans replaced, and counts that are their categories |
| Redaction.OneCountPerReplacement | src/engineering_memory/sanitization/scanner.py:138-158 | the counts sum to the number of kept spans; with nothing recognized the text is unchanged |
| Sanitizer.SecretSanitizer.Sanitize | src/engineering_memory/sanitization/pattern_sanitizer.py:69-83 | the report counts what was removed from every scanned field, and the conversation is rewritten field by field |
| Sanitizer.IdentityIsUntouched | src/engineering_memory/sanitization/pattern_sanitizer.py:94-117 | identity, times, roles, kinds, tool counts and the number and order of messages are unchanged |
| Sanitizer.EveryTextIsRedacted | src/engineering_memory/sanitization/pattern_sanitizer.py:94-117 | the texts of the result are the redactions of the texts of the original, field by field |
| Sanitizer.RedactedNotEmpty | src/engineering_memory/sanitization/pattern_sanitizer.py:108-127 | a non-empty text never becomes empty, so the fallbacks on empty results never put an original back |
| Manifest.Parse | src/engineering_memory/sanitization/patterns.py:199-226 | the parsed lines and their line breaks tile the text |
| Manifest.BlockEnd | src/engineering_memory/sanitization/patterns.py:260-270 | a block ends with the last line more indented than its key before the first that is not |
| Manifest.SecretManifestBlocks | src/engineering_memory/sanitization/patterns.py:188-196 | the blocks of exactly the data keys with an empty value whose enclosing mapping is of kind Secret |
| Manifest.BlocksNest | src/engineering_memory/sanitization/patterns.py:169-196 | two blocks never cross: the later lies inside the earlier if and only if no line between ends the earlier; they are disjoint if and only if one does, or the later is empty and the earlier ends with it |
| Manifest.BlocksAreLaminar | src/engineering_memory/sanitization/patterns.py:169-196 | any two blocks found in any text are nested or disjoint |
| Manifest.BlocksMayNest | src/engineering_memory/sanitization/patterns.py:184-186 | a text whose blocks are not disjoint, against the documentation: a Secret inside the data of another |
| Aliases.SameLengthSameKey | src/engineering_memory/classification/matcher.py:71-78 | two keys of one length never match at one position |
| Aliases.FirstIsLongest | src/engineering_memory/classification/matcher.py:71-78 | the first alternative that matches, longest first, is the longest key that matches, whatever order ties are in |
| Aliases.MatchHasItsKey | src/engineering_memory/classification/matcher.py:89-92 | what an alias matched has that alias's key |
| Aliases.AliasHasKey | src/engineering_memory/classification/rules.py:33-47 | every alias with a letter or a digit has a usable key |
| Aliases.JoinForgesNothing | src/engineering_memory/classification/alias_classifier.py:44-56 | the keys matched in fields joined by NUL are exactly those matched in each field alone, for aliases without NUL |
| Classifier.CheckRule | src/engineering_memory/classification/rules.py:112-132 | a rule is refused exactly when it is reserved, has no alias, or has one without letter or digit |
| Classifier.CheckRules | src/engineering_memory/classification/rules.py:145-169 | a rule set is refused if and only if a project is declared twice or one key is claimed by two projects |
| Classifier.OwnerIsUnique | src/engineering_memory/classification/matcher.py:67-69 | the owner table says exactly what the rules declare |
| Classifier.LookupsSucceed | src/engineering_memory/classification/matcher.py:80-92 | every match has an owner in the table |
| Classifier.AliasMatcher.ProjectsNamed | src/engineering_memory/classification/matcher.py:80-92 | the projects named are the owners of the leftmost, longest, non-overlapping matches |
| Classifier.Sweep | src/engineering_memory/classification/alias_classifier.py:94-113 | the swept text is every text field of the conversation, in order, joined by NUL |
| Classifier.AliasProjectClassifier.Resolve | src/engineering_memory/classification/alias_classifier.py:77-91 | the named project of strictly highest priority, and unknown when the highest is shared |
| Classifier.AliasProjectClassifier.Classify | src/engineering_memory/classification/alias_classifier.py:66-75 | the answer is that of the fields each alone, for aliases without NUL, and that of the joined text for any |
| Classifier.OrderReclassifiesNothing | src/engineering_memory/classification/alias_classifier.py:62-91 | no reordering of rules or of aliases changes an answer |
| Pipeline.EveryHistoryIsSound | src/engineering_memory/ingestion/pipeline.py:62-174 | over every history of runs, with any call failing before or after its effect and interruptions anywhere: nothing reaches memory before an archive store of it returned, no imported record before a retain of it returned, no skip is ever stored |
| Pipeline.StoredImportsHappened | src/engineering_memory/ingestion/state.py:79-103 | what the store says is imported was archived and then retained under that very hash |
| Pipeline.OutcomeTells | src/engineering_memory/ingestion/pipeline.py:94-174 | an outcome says what the store holds; a conversation is skipped if and only if it is not forced and is recorded as imported with its current hash |
| Pipeline.ReportIsInOrder | src/engineering_memory/ingestion/pipeline.py:62-92 | one outcome per arrival in source order; only the source breaking cuts the report short |
| Pipeline.Converges | src/engineering_memory/ingestion/pipeline.py:94-174 | one run in which nothing fails, over distinct identities, leaves each imported at its current hash, whatever came before and whatever else in the source cannot be read |
| Pipeline.UnchangedIsSkipped | src/engineering_memory/ingestion/state.py:106-125 | an unforced run over imported content reports all of it skipped and changes nothing |
| Pipeline.OneGoodRunSettles | src/engineering_memory/ingestion/pipeline.py:62-141 | after any history one good run imports everything, and any number of later unforced runs over the same contents moves nothing |
| Pipeline.IngestionPipeline.Attempt | src/engineering_memory/ingestion/pipeline.py:101-139 | the stages in order, each reached only when the one before it returned |
| Pipeline.IngestionPipeline.Process | src/engineering_memory/ingestion/pipeline.py:94-174 | one conversation is the specified step: its world, its outcome or its interruption |
| Pipeline.IngestionPipeline.Run | src/engineering_memory/ingestion/pipeline.py:62-92 | the run is the specified run |
| Replay.ExportReader.NextRecord | src/engineering_memory/ingestion/chatgpt/source.py:74-94 | the records of every file in turn; the first that cannot be scanned further ends the reading |
| Replay.ExportReader.Convert | src/engineering_memory/ingestion/chatgpt/source.py:96-115 | a record becomes its conversation with its exact text, or is reported under its identifier |
| Replay.ExportReader.Next | src/engineering_memory/ingestion/chatgpt/source.py:70-72 | the source yields exactly what its files come to |
| Replay.PullsAreDistinct | src/engineering_memory/ingestion/chatgpt/source.py:105-110 | one reading never yields an identifier twice |
| Replay.PullsAreSaid | src/engineering_memory/ingestion/chatgpt/source.py:96-115 | every item is what one record says, with that record's text as its original |
| Replay.ArchiveReader.Convert | src/engineering_memory/ingestion/chatgpt/archive_source.py:49-65 | an original is replayed if and only if it decodes, parses and bears its document's identity |
| Replay.ArchiveReader.Next | src/engineering_memory/ingestion/chatgpt/archive_source.py:41-65 | each listed document is loaded and replayed once; archive errors pass through with the cursor moved on |
| Replay.ItemReplays | src/engineering_memory/ingestion/chatgpt/archive_source.py:49-56 | an item's own bytes tell its own conversation, and replay as no other |
| Imports.SanitizerKeepsIdentity | src/engineering_memory/sanitization/pattern_sanitizer.py:94-117 | the sanitizer keeps every document identifier, as the statements about imports ask of the stages |
| Imports.CleanRunArchives | src/engineering_memory/ingestion/pipeline.py:101-126 | after a run in which nothing fails the archive's last store of a document that arrived is the arrival's own, unless it was skipped; then it is the last one before the run |
| Imports.RetitledIsNotReplayed | src/engineering_memory/ingestion/pipeline.py:105-112 | a conversation imported again under another title, without force: nothing moves, and what the archive holds tells the old title, because the content hash leaves titles out |
| Imports.Store | src/engineering_memory/archive/local.py:126-166 | what a store leaves on disk is what the log says of it: its own record replaced and no other, or none touched |
| Imports.ReplayAfterRun | src/engineering_memory/ingestion/chatgpt/archive_source.py:41-65 | after any history and then a run in which nothing fails, replaying a document yields the conversation that arrived if and only if it was not skipped or the archive held an original of it already; a skipped one yields what was archived before |
| Imports.ReplayAfterImport | src/engineering_memory/ingestion/chatgpt/archive_source.py:41-65 | the same for what an export yields, whatever records it holds: importing an export and replaying the archived originals |
| Imports.SkippedKeepsContent | src/engineering_memory/ingestion/state.py:106-125 | where a skipped document's last archive store was followed by a record of it, what is replayed has the same messages as what was skipped |
| Imports.ExportSettles | src/engineering_memory/ingestion/pipeline.py:62-141 | one import of an export in which nothing fails settles it: every conversation it yields is imported, and unforced runs over the same contents move nothing |

## Left out

- Decoder failures other than a refusal of the text (an integer past the digit limit, nesting past the recursion limit): they are not stable when the buffer grows.
- JsonDecoder.ScanString: an unpaired surrogate escape becomes U+FFFD, because Dafny characters are Unicode scalar values; the importer's models refuse such a text.
- Numbers are exact reals rather than binary floats; NaN and the infinities are one value of their own.
- How each content type of a message is rendered is a parameter; only the three outcomes, the text and the markers are kept.
- Times are whole microseconds with an offset; the calendar is the proleptic one datetime uses.
- `recall`, provenance, tags and enrichment: the enriched conversation is the sanitized one and its project.
- HTTP, asyncio, executors, clocks and the waits between attempts: a request's fate says whether it was sent, reached the engine, and came back; the deadline is one more fate, and stopping before a wait that would pass it is the same as finding it passed.
- Retain.HindsightStore.Await: the engine is taken at its word, except that it never reports an operation completed that it does not have.
- SHA-256, UUIDs and case folding: digests tell apart the documents and requests at hand, ids are fresh, folding is character-wise and idempotent. Base64 (section 4 of RFC 4648) is taken to be invertible.
- Symbolic links, junctions, permissions and the Windows publication path of the archive; a partial write is covered because bytes not yet synced may be anything after a crash.
- The names of temporary files and files: a store is handed fresh ones.
- `sqlite_state.py`: the import state is a map where the last write wins and any call may fail.
- `export.py` and zip archives: an export is a sequence of file texts; a file that cannot be opened is not modelled apart from one that cannot be scanned.
- Pipeline.MalformedOutcome: the check of a usable identifier is a parameter.
- A clock that raises inside the pipeline, logging, tracing and the diagnostic sink.
- The credential regular expressions and placeholder lists: a pattern is a function from a text and a region to matches. Nothing is claimed about secrets no pattern recognizes.
- Idempotence of redaction: a second pass may match a value that contains the replacement, so it is not claimed.
- Revalidation when a model is copied: it cannot fail for the rewrites made here.
- The alphabetical order among aliases of one length: ties cannot match at one position, so any order serves.
- The slug shape of project names, and loading rules from a file.
- The dictionary of spans by pattern is visited in increasing precedence by taking the least key, not by sorting the keys.
- CLI, settings, deployment and observability.
