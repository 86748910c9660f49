# Dongam culture analyzer — verified model of its core

A Dafny model of the parts of the Dongam culture analyzer that decide what
is stored, shown and sent. The centre is the backend's realtime field
synchronisation: per-session lock and value tables that several workshop
participants edit at once. Around it sit the session registry, the HTTP
handlers that put the two together, and the pure text transforms the rest
of the application is built on.

Each module follows one source file:

| module | file | what it is |
|---|---|---|
| `Common` | (shared) | options, Python and JavaScript white space, `strip`/`trim`, `includes`/`indexOf`, `replace`, `split`/`join`, decimal numbers, ASCII case |
| `FieldRecord` | backend/modules/realtime_sync.py | the field record of a session: lock table, value table, `lastUpdate` |
| `FieldSync` | backend/modules/realtime_sync.py | lock with the 120-second takeover, unlock, the update gate, the poll, the passive 300-second sweep and the forced sweep, each a load–change–save on the store |
| `Sessions` | backend/modules/session_manager.py | class `SessionStore`: session directories (metadata and field record) and the global index; create, get, list, delete, cleanup and the participant counts |
| `Api` | backend/app.py | the handlers that look a session up before calling the engine |
| `ReportParser` | src/utils/intelligentParser.ts | `**bold**` runs, headings, breaks, paragraphs and lists of a markdown-like report |
| `CultureMapParser` | src/utils/parser.ts | note lines and connection lines of a culture map, type normalisation, intensity, sentiment |
| `Layout` | src/utils/layout.ts | notes grouped by layer and placed on a grid |
| `FileSystem` | src/utils/FileSystemUtil.ts | file-name sanitising, extensions, MIME types and upload paths |
| `PromptLoading` | src/utils/promptLoader.ts | step keys, the five-minute cache, error counts, fallbacks, prompt validation and `{{key}}` interpolation |
| `LlmResult` | frontend/src/components/Dashboard.jsx | reading the JSON a language model returned: as is, without a code fence, or the first balanced object |
| `PromptGenerator` | backend/modules/prompt_generator.py | element-id normalisation, spirit lookup and the analysis prompt, section by section |
| `XlsxToSpirits` | backend/modules/tools/xlsx_to_spirits.py | the first spreadsheet importer: id normalisation, id lists and the merge into the spirits document |
| `SpiritImport` | backend/modules/import_spirits_from_excel.py | the second importer: `norm_id`, the row scan and the order-keeping deduplication |

State that the source changes in place is a class with `modifies` clauses:
`Sessions.SessionStore` (the directory tree and the index file),
`PromptLoading.PromptLoader` (the prompt cache and the error counts) and
`XlsxToSpirits.SpiritEntry` (a spirit of the JSON document). Loops of the
source are methods with invariants, each proved equal to a function that
states what the loop computes. That function's properties are then proved
as lemmas. Regular expressions are written out as functions that follow the
order in which a backtracking engine tries alternatives.

The clock is a parameter `now` in seconds (milliseconds in `PromptLoading`).
Random session codes are a sequence `draws` of candidate codes. The uuid of
a note or a connection is a sequence number. The prompt server is a function
from URL to response, and `JSON.parse` is a function from text to an
optional value.

## Model

Functions that only define a computation, with no contract of their own,
have no row: `SpiritImport.NormId`, `PromptLoading.NormalizeStepKey`,
`PromptLoading.Load`, `FileSystem.SanitizeFileName` and
`CultureMapParser.NormalizeType`, among others, are found through the rows
of the lemmas that state their properties (`SpiritImport.NormIdIdempotent`,
`PromptLoading.NormalizedSpellings`, `PromptLoading.LoadSuccess`,
`FileSystem.SanitizedIsSafe`, `CultureMapParser.CanonicalName`).

| member | source | states |
|---|---|---|
| Common.TrimStartShape | backend/modules/prompt_generator.py:50 | `strip()` drops exactly the longest white-space prefix: what it drops is white space, and what it keeps does not start with white space |
| Common.TrimEndShape | backend/modules/prompt_generator.py:50 | `strip()` drops exactly the longest white-space suffix |
| Common.TrimKeeps | src/utils/parser.ts:33 | a text that neither starts nor ends with white space is its own trim |
| Common.TrimIdempotent | src/utils/parser.ts:69 | trimming a trimmed text changes nothing |
| Common.TrimEmptyIffAllSpace | backend/modules/tools/xlsx_to_spirits.py:46-48 | a text trims to nothing exactly when it is all white space |
| Common.IndexOfFrom | src/utils/FileSystemUtil.ts:111-115 | the position found holds the pattern and no earlier one from the start position does; none is found only when the pattern occurs nowhere |
| Common.ContainsIffIndexOf | src/utils/FileSystemUtil.ts:112 | `includes` holds exactly when a first occurrence exists |
| Common.FirstPieceFree | src/utils/FileSystemUtil.ts:112 | the text before the first occurrence does not contain the pattern |
| Common.ReplaceChar | src/utils/FileSystemUtil.ts:118 | replacing a character by a text without it removes every occurrence, and adds only characters of that text |
| Common.ReplaceCharAbsent | backend/modules/prompt_generator.py:50 | a text without the character is left as it is |
| Common.ReplaceCharAppend | backend/modules/prompt_generator.py:50 | replacing a character works piece by piece |
| Common.SplitOn | src/utils/promptLoader.ts:655 | a text splits into at least one piece, and no piece contains the pattern |
| Common.ReplaceAllIsJoin | src/utils/promptLoader.ts:654-655 | replacing every occurrence is splitting at the occurrences and joining with the replacement |
| Common.SplitOnJoin | src/utils/promptLoader.ts:654-655 | joining the pieces with the pattern gives back the text |
| Common.ReplaceBySelf | src/utils/promptLoader.ts:654-655 | replacing each occurrence by itself changes nothing |
| Common.ReplaceAbsent | src/utils/promptLoader.ts:654-655 | a text without the pattern is left as it is |
| Common.ReplaceShortens | backend/modules/prompt_generator.py:55-56 | replacing "__" by "_" in a text containing "__" shortens it, so the loop ends |
| Common.ReplaceNotLonger | backend/modules/prompt_generator.py:55-56 | replacing by something shorter never lengthens a text |
| Common.NatToString | backend/modules/import_spirits_from_excel.py:26 | a number is written as a non-empty run of digits |
| Common.DigitsRoundTrip | backend/modules/import_spirits_from_excel.py:26 | `int()` of a number written in decimal gives the number back |
| Common.AsciiLowerString | src/utils/FileSystemUtil.ts:67 | lower-casing maps each ASCII capital to its small letter, keeps every other character, and keeps the length (ASCII letters only; see "## Left out") |
| Common.AsciiUpperString | src/utils/FileSystemUtil.ts:67 | upper-casing maps each ASCII small letter to its capital, keeps every other character, and keeps the length (ASCII letters only; see "## Left out") |
| Common.Split | backend/modules/tools/xlsx_to_spirits.py:50 | a text splits into at least one piece, and no piece holds the separator |
| Common.SplitIsSplitOn | backend/modules/tools/xlsx_to_spirits.py:50 | splitting on one character gives the same pieces as splitting on the one-character pattern, so the two definitions of `split` agree |
| Common.SplitJoin | backend/modules/tools/xlsx_to_spirits.py:50 | joining the pieces with the separator gives back the text |
| Common.SplitFree | backend/modules/tools/xlsx_to_spirits.py:50 | a text without the separator is one piece |
| Common.SplitFirst | backend/modules/tools/xlsx_to_spirits.py:50 | a separator-free piece before the first separator splits off whole |
| Common.JoinSplit | backend/modules/tools/xlsx_to_spirits.py:50 | splitting undoes joining when no piece holds the separator |
| Common.ReplaceCharJoin | backend/modules/tools/xlsx_to_spirits.py:50 | replacing a character the pieces lack rewrites only the separators |
| Common.JoinEnds | backend/modules/tools/xlsx_to_spirits.py:50 | a join of non-empty pieces starts like the first and ends like the last |
| Common.NoDoubleIffNotContains | backend/modules/prompt_generator.py:55 | having no adjacent underscores is exactly not containing "__", where the loop stops |
| Common.SqueezeUnderscores | src/utils/FileSystemUtil.ts:47 | the squeezed text is no longer, has no adjacent underscores, and holds only characters of the input |
| Common.SqueezeKeeps | src/utils/FileSystemUtil.ts:47 | a text without adjacent underscores is left as it is |
| Common.SqueezeAppend | src/utils/FileSystemUtil.ts:47 | squeezing a concatenation squeezes each part, the second knowing how the first ended |
| Common.SqueezeAfterReplace | backend/modules/prompt_generator.py:55-56 | one pass of `replace('__', '_')` leaves the squeezed text as it was, so the loop computes the squeeze |
| Common.ReplaceAt | backend/modules/prompt_generator.py:56 | replacing splits the text at the first occurrence, then replaces in the rest |
| FieldSync.SaveThenLoad | backend/modules/realtime_sync.py:65-108 | a saved record is what the next load returns, stamped with the save time; no other session directory and not the session metadata change |
| FieldSync.MissingSessionLoadsEmpty | backend/modules/realtime_sync.py:65-93 | a session without a directory loads as the empty record stamped now, and saving to it writes nothing |
| FieldSync.Without | backend/modules/realtime_sync.py:245-247 | deleting the collected ids leaves exactly the other entries, unchanged |
| FieldSync.CollectExpired | backend/modules/realtime_sync.py:235-242 | the loop collects exactly the entries older than 300 seconds, inactive or without owner |
| FieldSync.CollectStale | backend/modules/realtime_sync.py:256-264 | the loop collects exactly the inactive or ownerless entries, whatever their age |
| FieldSync.LockField | backend/modules/realtime_sync.py:111-155 | granted exactly for a free field, a renewal by the owner or a takeover after 120 seconds; a grant saves the caller as active owner stamped now; a refusal writes nothing |
| FieldSync.UnlockField | backend/modules/realtime_sync.py:158-176 | the field's entry is removed whoever holds it, and the record is saved in every case |
| FieldSync.UpdateFieldValue | backend/modules/realtime_sync.py:179-197 | accepted exactly when the caller holds the lock or the entry is inactive or missing; an accepted update saves the value with its author and time; a rejected one writes nothing |
| FieldSync.GetFieldUpdates | backend/modules/realtime_sync.py:200-226 | the answer is the whole lock table, the values updated strictly after `since`, and the record's time stamp |
| FieldSync.CleanupExpiredLocks | backend/modules/realtime_sync.py:229-250 | removes every expired entry and saves only when something was removed |
| FieldSync.CleanupAllStaleLocks | backend/modules/realtime_sync.py:253-274 | removes every stale entry, saves only when something was removed, and returns how many entries it removed |
| FieldSync.GrantWritesOwner | backend/modules/realtime_sync.py:124-151 | the three grant branches all write the caller as active owner stamped now and leave other entries and the values alone |
| FieldSync.OwnerAlwaysRenews | backend/modules/realtime_sync.py:135-140 | the owner's request is granted at any time and the owner stays the same |
| FieldSync.ExclusiveWindow | backend/modules/realtime_sync.py:143-155 | within 120 seconds of a grant to a non-empty user, every other user is refused both the lock and the update (with line 185) |
| FieldSync.TakeoverAfterWindow | backend/modules/realtime_sync.py:143-151 | after 120 seconds anyone may take the lock over, and the former owner is then refused |
| FieldSync.UnlockFreesField | backend/modules/realtime_sync.py:158-176 | after an unlock anyone may lock and update; a second unlock changes nothing; values are untouched |
| FieldSync.PollSeesUpdate | backend/modules/realtime_sync.py:179-226 | an accepted update appears in a poll exactly when `since` is older than its time, with the written value |
| FieldSync.PollMonotone | backend/modules/realtime_sync.py:215-218 | a poll with an older `since` reports a superset of the fields a newer one reports |
| FieldSync.PassiveSweepClean | backend/modules/realtime_sync.py:229-274 | after the passive sweep nothing is expired and the forced sweep has nothing left to remove |
| FieldSync.StaleIsExpired | backend/modules/realtime_sync.py:241-263 | every entry the forced sweep removes, the passive sweep removes as well |
| FieldSync.FreshLockSurvivesSweep | backend/modules/realtime_sync.py:241 | a lock granted to a non-empty user survives the passive sweep for 300 seconds |
| FieldSync.TwoUserScenario | backend/modules/realtime_sync.py:111-197 | user A locks at 0; B is refused the lock and the update at 10; B takes over at 130; A is then refused |
| Sessions.ActiveMembers | backend/modules/session_manager.py:163-193 | a session survives cleanup_empty_sessions exactly when it is in the index with a participant count above zero |
| Sessions.EmptyCodesMembers | backend/modules/session_manager.py:171-180 | the directories removed are exactly those of index entries with no participant |
| Sessions.SameCodes | backend/modules/session_manager.py:58-61 | two orderings of the same sessions have the same set of codes, so the sorted listing gives create_session the codes of the cleaned index |
| Sessions.InsertNewestFirstCorrect | backend/modules/session_manager.py:206 | inserting into a newest-first list keeps it newest first and adds exactly the one entry |
| Sessions.SortNewestFirstCorrect | backend/modules/session_manager.py:206 | the listing order: sorted by `createdAt`, newest first, and a permutation of its input |
| Sessions.InsertNewestFirstStable | backend/modules/session_manager.py:206 | insertion puts the entry in front of those created at its own time and keeps every time's entries in order |
| Sessions.SortNewestFirstStable | backend/modules/session_manager.py:206 | the sort is stable: the sessions created at any one time keep their index order, as Python's `sorted` does with `reverse=True` |
| Sessions.SessionStore.GetSession | backend/modules/session_manager.py:127-160 | found exactly when the session has metadata; with `update_access_time` the metadata's `lastAccessedAt` becomes now and is written back, otherwise nothing changes |
| Sessions.SessionStore.IncrementParticipantCount | backend/modules/session_manager.py:240-281 | one more participant and access time now, written to the metadata and to the first index entry with the code; a missing session changes nothing |
| Sessions.SessionStore.DecrementParticipantCount | backend/modules/session_manager.py:284-326 | one participant fewer but never below zero, access time now, written as for the increment; a missing session changes nothing |
| Sessions.SessionStore.CleanupEmptySessions | backend/modules/session_manager.py:163-193 | the index keeps exactly the entries with a participant, in order; their directories stay and the others are removed; the result counts the dropped entries |
| Sessions.SessionStore.ListSessions | backend/modules/session_manager.py:196-206 | after the cleanup, the listing holds exactly the remaining sessions, each with a participant, newest first, and sessions created at the same time in their index order |
| Sessions.SessionStore.CreateSession | backend/modules/session_manager.py:54-92 | the new code is not used by a listed session; the metadata has one participant, the name, the description or "", and both times now; it is appended to the cleaned index; its directory keeps any field record already there and every other directory is as the cleanup left it |
| Sessions.SessionStore.DeleteSession | backend/modules/session_manager.py:209-229 | false and no change for a code without a directory; otherwise the directory and every index entry with the code are gone |
| Sessions.DrawCode | backend/modules/session_manager.py:60-63 | the first drawn code not already taken; none only when every draw is taken |
| Sessions.Decremented | backend/modules/session_manager.py:303 | one less for a positive count, zero otherwise, never negative |
| Sessions.ReplaceFirst | backend/modules/session_manager.py:274-277 | the loop replaces the first index entry with the code and nothing else |
| Sessions.ReplaceFirstSpecFirst | backend/modules/session_manager.py:274-277 | the replacement happens at the first position carrying the code |
| Sessions.ReplaceFirstSpecAbsent | backend/modules/session_manager.py:274-277 | an index without the code is left as it is |
| Sessions.AtLeastOne | backend/modules/session_manager.py:204 | the comprehension keeps only entries of the list with at least one participant |
| Sessions.AtLeastOneKeepsPositive | backend/modules/session_manager.py:204 | after the cleanup the comprehension keeps every entry |
| Sessions.Active | backend/modules/session_manager.py:171-180 | cleanup keeps no more entries than the index had |
| Sessions.RemoveCodes | backend/modules/session_manager.py:171-181 | removing session directories leaves exactly the other codes, each with its directory as it was |
| Sessions.WithoutCode | backend/modules/session_manager.py:221-225 | the index without a code holds exactly the entries with another code |
| Sessions.WithoutReplacedFirst | backend/modules/session_manager.py:221-225 | dropping a code from the index gives the same list whether or not its first entry was first rewritten by a decrement, so leave-then-delete leaves the index as a plain delete does |
| Sessions.ActiveAll | backend/modules/session_manager.py:185-190 | when cleanup keeps as many entries as there were, it kept them all, which is why the index file needs no rewrite |
| Sessions.SessionStore.constructor | backend/modules/session_manager.py:34-37 | a store starts with no session directories and an empty index, as a missing index file reads |
| Api.LockRequest | backend/app.py:432-451 | a missing session is refused without any write; otherwise the answer and the new store are those of lock_field |
| Api.UnlockRequest | backend/app.py:453-471 | always success; a missing session changes nothing, otherwise the store is that of unlock_field |
| Api.UpdateRequest | backend/app.py:473-492 | a missing session is refused without any write; otherwise the access time is refreshed, then the answer and the saved value are those of update_field_value |
| Api.PollRequest | backend/app.py:494-518 | a missing session gets the empty answer stamped `since`; otherwise the passive sweep runs, its write is kept, and the answer is the poll of the swept record |
| Api.CleanupMissingSessionStatus | backend/app.py:520-534 | a missing session is answered 400 as written, 404 as intended |
| Api.CleanupRequestAsWritten | backend/app.py:520-534 | as written: a missing session gets 400; otherwise the count and the new store are those of cleanup_all_stale_locks |
| Api.CleanupRequest | backend/app.py:520-528 | as intended: a missing session gets 404; otherwise the count and the new store are those of cleanup_all_stale_locks |
| Api.LeaveRequest | backend/app.py:253-269 | a missing session is not found and nothing changes; otherwise the meta becomes the decremented count with lastAccessedAt now and the first index entry is rewritten to it; when the count was at most 1 the directory is removed and every index entry of the code dropped (the index is then the old one without the code), with every other directory unchanged; otherwise only that directory's meta changes and its field record stays |
| ReportParser.NextStarsFirst | src/utils/intelligentParser.ts:7-11 | the marker search finds the first `**` at or after the position, and none when there is none |
| ReportParser.CloseAtShortest | src/utils/intelligentParser.ts:7 | the lazy `.+?` closes at the first `**` at least one character on, with no line terminator inside; when it finds none, every later `**` lies beyond a line terminator |
| ReportParser.FindBoldIsMatch | src/utils/intelligentParser.ts:7-11 | what `regex.exec` returns is a match: `**` at both ends and the lazy body between |
| ReportParser.FindBoldLeftmost | src/utils/intelligentParser.ts:7-11 | `regex.exec` returns the leftmost match at or after `lastIndex`, and none when no position starts one |
| ReportParser.SegmentsShape | src/utils/intelligentParser.ts:11-24 | every piece parseInline pushes is non-empty, and a bold piece never spans a line terminator |
| ReportParser.SegmentsRender | src/utils/intelligentParser.ts:11-24 | the pieces from a position on, bold ones re-wrapped in `**`, give back the input from that position |
| ReportParser.InlineRoundTrip | src/utils/intelligentParser.ts:4-27 | parseInline never returns an empty list, and its pieces, bold ones re-wrapped in `**`, give back its input |
| ReportParser.PushAllSegments | src/utils/intelligentParser.ts:11-19 | the loop's pushes are the pieces found so far followed by those still to come |
| ReportParser.ParseInline | src/utils/intelligentParser.ts:4-27 | the `regex.exec` loop computes exactly the inline specification |
| ReportParser.HexRun | src/utils/intelligentParser.ts:34 | the hexadecimal prefix is maximal: every character in it is a hex digit and the next one is not |
| ReportParser.NodeTagLength | src/utils/intelligentParser.ts:34 | a recognised `(노드: ...)` tag starts with the opening and ends with `)` |
| ReportParser.RemoveNodeTags | src/utils/intelligentParser.ts:34 | removing node tags never lengthens the text, and text without `(` is left as it is |
| ReportParser.Unescape | src/utils/intelligentParser.ts:35 | unescaping never lengthens the text, and text without a backslash is left as it is |
| ReportParser.MarkersExclusive | src/utils/intelligentParser.ts:52-59 | a line cannot start with two heading markers of different levels |
| ReportParser.HeadingOf | src/utils/intelligentParser.ts:51-60 | a heading has level 1 to 4, the line starts with that many `#` and a space, and the text is the trimmed rest |
| ReportParser.HeadingLevelExact | src/utils/intelligentParser.ts:51-60 | a `#` line yields a heading exactly when it starts with one to four `#` and a space, at the level of that marker; otherwise it yields nothing |
| ReportParser.UnorderedMarkerShape | src/utils/intelligentParser.ts:73 | an unordered marker is `-`, `*` or `->` followed by white space |
| ReportParser.DigitRunShape | src/utils/intelligentParser.ts:74 | the digit run of an ordered marker is maximal |
| ReportParser.OrderedMarkerShape | src/utils/intelligentParser.ts:74 | an ordered marker is digits and a dot followed by white space |
| ReportParser.UntilTerminatorShape | src/utils/intelligentParser.ts:73-74 | the greedy `.*` takes the longest prefix without a line terminator |
| ReportParser.ItemLineShape | src/utils/intelligentParser.ts:45-74 | an item line is not blank, does not start with `#` and is not a thematic break, so the earlier branches never take it |
| ReportParser.ItemRunIsMaximal | src/utils/intelligentParser.ts:81-100 | the run holds the text of each item line in order and is not empty when the first line is an item |
| ReportParser.ListIsMaximalRun | src/utils/intelligentParser.ts:76-103 | a list's items are the maximal run of lines of its kind; the line after it is blank or of another kind |
| ReportParser.TrimAll | src/utils/intelligentParser.ts:42 | every line is read trimmed (with line 82) |
| ReportParser.NextBlock | src/utils/intelligentParser.ts:40-108 | one round adds at most one element and consumes at least one line |
| ReportParser.NextBlockCount | src/utils/intelligentParser.ts:40-108 | the lines one round consumes hold as many productive lines as the element it adds stands for |
| ReportParser.BlocksConsumeEachLine | src/utils/intelligentParser.ts:40-109 | each productive line (non-blank, and a heading whenever it starts with `#`) is accounted for exactly once by the elements |
| ReportParser.GatheredIsListRun | src/utils/intelligentParser.ts:81-100 | the inner loop over the raw lines gathers the list run of the trimmed lines |
| ReportParser.GatherList | src/utils/intelligentParser.ts:77-102 | the inner loop returns the parsed items of the list run and the index after it |
| ReportParser.ParseRound | src/utils/intelligentParser.ts:42-108 | one round pushes the element of the next block and continues after the lines it consumes |
| ReportParser.ParseLines | src/utils/intelligentParser.ts:37-111 | the `while` loop yields the elements of the blocks of the trimmed lines |
| ReportParser.ParseIntelligent | src/utils/intelligentParser.ts:30-112 | noise removal, the split into lines and the loop give exactly the report specification |
| CultureMapParser.ExtractIntensity | src/utils/parser.ts:14-19 | an intensity other than mention is named by the tag's suffix |
| CultureMapParser.LayerIndex | src/utils/parser.ts:4-11 | the layer lookup, reading only the table's own entries, gives a number below 4 (with line 68) |
| CultureMapParser.LayerLookupAsWritten | src/utils/parser.ts:4-11 | the lookup on the object literal as written reads an own entry exactly when LayerIndex finds the name, with the same number, and an inherited member exactly for the names every object inherits (with line 68) |
| CultureMapParser.TagRoundTrip | src/utils/parser.ts:14-38 | a tag made of a layer name or alias and an intensity suffix reads back as that layer's canonical name and that intensity; without a suffix it reads back as mention |
| CultureMapParser.TrimOfWord | src/utils/parser.ts:23-38 | a layer name has no surrounding white space and no intensity suffix |
| CultureMapParser.OneSuffixOnly | src/utils/parser.ts:25-31 | only one suffix is removed: `결과_집중_집중` normalises to `결과_집중`, which names no layer |
| CultureMapParser.CharFromFirst | src/utils/parser.ts:49 | the class `[^\]]+` runs to the first closer and no further |
| CultureMapParser.SpacesThenLazy | src/utils/parser.ts:49 | `\s*` followed by a lazy group gives bounds inside the line that the rest of the pattern accepts, and a non-empty group for `.+?` (with line 122) |
| CultureMapParser.NoteOfRule | src/utils/parser.ts:49-113 | a line gives a note exactly when the pattern matches, the normalised type names a layer and the trimmed content is not blank; the note has layer 1 to 4 named by its type, the trimmed text, the given identifier, position (0,0) and size 200 by 120 |
| CultureMapParser.BasisOf | src/utils/parser.ts:74-86 | a basis exists only when the metadata group matched |
| CultureMapParser.InheritedKept | src/utils/parser.ts:68-88 | a matched line whose type normalises to an inherited name and whose content is not blank is kept by the source and dropped by LayerIndex |
| CultureMapParser.InheritedTagKept | src/utils/parser.ts:68 | `[constructor](긍정) x` is kept as written, with no layer number, while the corrected lookup drops it (with lines 88, 109) |
| CultureMapParser.CanonicalName | src/utils/parser.ts:35-37 | a normalised type that names a layer is that layer's canonical name (with line 105) |
| CultureMapParser.NormalizeNoAlias | src/utils/parser.ts:35-36 | normalisation never leaves the alias 유형 or 무형 behind |
| CultureMapParser.ConnTailEnds | src/utils/parser.ts:122 | a relation group the tail reads is the last characters of the line |
| CultureMapParser.SourceAndTargetEnds | src/utils/parser.ts:122 | the source and target bounds lie inside the line, and a 간접 relation group is the line's last characters |
| CultureMapParser.ConnMatchEnds | src/utils/parser.ts:122-123 | wherever the leftmost match starts, a 간접 relation group it reads is the line's last characters |
| CultureMapParser.ConnectionIndirect | src/utils/parser.ts:127-136 | a connection is indirect only when the line starts with `[간접연결]` or ends with `(간접)` |
| CultureMapParser.ConnectionFromRule | src/utils/parser.ts:125-146 | a connection is made exactly when both trimmed contents name notes; it is positive, joins those notes' identifiers, and is indirect exactly when the line starts with `[간접연결]` or the relation group reads 간접 |
| CultureMapParser.NonBlank | src/utils/parser.ts:41 | the input lines keep only lines that are not blank after trimming |
| CultureMapParser.FirstPass | src/utils/parser.ts:52-115 | the first pass gives the notes in line order, the content map of those notes, and the connection lines in order |
| CultureMapParser.SecondPass | src/utils/parser.ts:120-148 | the second pass gives the connections of the pending lines in order |
| CultureMapParser.ParseAIOutput | src/utils/parser.ts:40-151 | the notes are those of the first pass numbered from the first identifier; the connections are those of the second pass, numbered after the notes |
| CultureMapParser.NoteOfWellFormed | src/utils/parser.ts:88-110 | every note the pattern makes is well formed |
| CultureMapParser.NotesShape | src/utils/parser.ts:52-115 | the notes are numbered consecutively, each on a layer 1 to 4 whose canonical name is its type and with non-blank text; there are at most as many notes as lines |
| CultureMapParser.ContentIdsLast | src/utils/parser.ts:113-130 | the content map holds exactly the notes' texts, each mapped to the identifier of the last note with that text |
| CultureMapParser.ContentIdsAreNoteIds | src/utils/parser.ts:113 | every identifier in the content map is a note's |
| CultureMapParser.ConnectionOfJoins | src/utils/parser.ts:129-145 | a connection only joins notes of the first pass |
| CultureMapParser.ConnectionsShape | src/utils/parser.ts:120-148 | the connections are numbered consecutively and each joins two notes; there are at most as many as pending lines |
| CultureMapParser.ParseShape | src/utils/parser.ts:40-151 | notes are numbered first and well formed, then connections numbered after them that join only those notes |
| Layout.LayerTop | src/utils/layout.ts:8-22 | the rows of the four layers, from the padding and note height, are 150, 450, 750 and 1050 |
| Layout.Column | src/utils/layout.ts:8-11 | the k-th note of a layer, from the padding and note width, sits at x = 100 + 350·k (with lines 46, 52) |
| Layout.Bucket | src/utils/layout.ts:24-38 | a note whose type names a layer joins that layer's bucket; any other type joins 행동 |
| Layout.BucketAsWritten | src/utils/layout.ts:32-37 | as written, the `in` test also accepts the names every object inherits, and pushing onto one of those throws; every other type gets Bucket's answer |
| Layout.InheritedTypeThrows | src/utils/layout.ts:33-34 | a note of type `constructor` makes the layout throw, while an unknown type such as 기타 joins 행동 |
| Layout.Placed | src/utils/layout.ts:48-56 | each note of a layer is kept with its position set to its column and the layer's row |
| Layout.GroupByLayer | src/utils/layout.ts:31-39 | the first loop leaves each of the four buckets holding its notes in input order |
| Layout.PlaceLayer | src/utils/layout.ts:48-56 | the inner loop places a layer's notes left to right |
| Layout.GetLayoutedElements | src/utils/layout.ts:13-60 | the nodes are the placed buckets in layer order and the connections are returned unchanged |
| Layout.MembersPartition | src/utils/layout.ts:31-39 | the four buckets together hold every input note exactly once |
| Layout.LayoutKeepsCount | src/utils/layout.ts:41-57 | the layout has exactly as many nodes as there are notes |
| Layout.LayoutPrefix | src/utils/layout.ts:43-57 | laying out one more layer only appends nodes |
| Layout.LayoutAt | src/utils/layout.ts:43-56 | the k-th note of bucket b comes right after the earlier layers, at x = 100 + 350·k and y = 150 + 300·b, with its other fields unchanged |
| Layout.MembersInBucket | src/utils/layout.ts:31-39 | every note in bucket b has a type whose bucket is b |
| Layout.LayoutUpToOrdered | src/utils/layout.ts:43-57 | the layout of the first b layers is ordered by layer and only holds nodes of those layers |
| Layout.LayoutInLayerOrder | src/utils/layout.ts:24-43 | the layout lists the layers in the order 결과, 행동, 유형_레버, 무형_레버 |
| Layout.Members | src/utils/layout.ts:31-39 | a bucket holds no more notes than the input |
| Layout.PlacedInBucket | src/utils/layout.ts:48-56 | placing a bucket's notes keeps each of them in that bucket's layer |
| Layout.LayoutUpToLength | src/utils/layout.ts:43-57 | the first b layers take as many nodes as their buckets hold |
| Layout.AppendLayer | src/utils/layout.ts:43-57 | appending a layer after the lower layers keeps the nodes ordered by layer |
| LlmResult.DropOpeningFence | frontend/src/components/Dashboard.jsx:537 | removing the opening fence and its tag takes at least the three backticks |
| LlmResult.StripCodeFence | frontend/src/components/Dashboard.jsx:533-541 | a text whose trimmed form does not start with a fence comes back as it is; otherwise at least the fence is removed |
| LlmResult.FenceRoundTrip | frontend/src/components/Dashboard.jsx:533-541 | a trimmed body wrapped in a fence tagged json, JSON or nothing comes back out unchanged |
| LlmResult.ScanTo | frontend/src/components/Dashboard.jsx:549-561 | an object returned, and one under way, lie inside the characters read so far |
| LlmResult.ScanConsistent | frontend/src/components/Dashboard.jsx:545-561 | outside a string no escape is pending; an object under way opens with `{` at `start` and has a positive depth; with the guard the depth is never negative |
| LlmResult.Extracted | frontend/src/components/Dashboard.jsx:543-563 | the result is '' or starts with `{` and ends with `}` |
| LlmResult.ExtractAsWritten | frontend/src/components/Dashboard.jsx:543-563 | as written, the result is also '' or starts with `{` and ends with `}` |
| LlmResult.ExtractFirstJsonObject | frontend/src/components/Dashboard.jsx:543-563 | the `for` loop returns the object the guarded scan finds, or '' |
| LlmResult.FoundStays | frontend/src/components/Dashboard.jsx:559 | once an object is found the scan stops: reading further changes nothing |
| LlmResult.StrayBraceHidesObject | frontend/src/components/Dashboard.jsx:558-559 | on `}{}` the source's scan returns '' because the stray `}` drives the depth below zero; the guarded scan returns `{}` |
| LlmResult.SkipsString | frontend/src/components/Dashboard.jsx:551-557 | inside a double-quoted string, braces and escaped quotes do not change the scan |
| LlmResult.BracesInStringIgnored | frontend/src/components/Dashboard.jsx:550-559 | an object holding one string comes back whole, whatever braces the string holds |
| LlmResult.ScanPrefix | frontend/src/components/Dashboard.jsx:549-561 | the scan after k characters depends only on those characters |
| LlmResult.ScanFrom | frontend/src/components/Dashboard.jsx:549-561 | scanning from a point where the scan is back at its start is the same scan read relative to that point |
| LlmResult.StartOrigin | frontend/src/components/Dashboard.jsx:558 | where an object under way opened, the scan was at its start |
| LlmResult.FoundBounds | frontend/src/components/Dashboard.jsx:558-559 | the returned object opens where the scan was at its start and closes where the depth returned to zero |
| LlmResult.FoundAlone | frontend/src/components/Dashboard.jsx:558-559 | a found object scanned on its own is found whole |
| LlmResult.ExtractIdempotent | frontend/src/components/Dashboard.jsx:543-563 | extracting from an extracted object gives it back |
| LlmResult.ParsedResult | frontend/src/components/Dashboard.jsx:521-585 | an empty text gives nothing; a result is the parse of the text itself, of the text without its fence, or of the first object in it |
| LlmResult.FencedJsonRead | frontend/src/components/Dashboard.jsx:565-572 | JSON that the LLM wrapped in a code fence is still read, as the parse of the body |
| FileSystem.ReplaceForbidden | src/utils/FileSystemUtil.ts:45 | every forbidden character (`<`, `>`, `:`, `"`, the vertical bar, `?`, `*`, `\`) becomes `_`, every other character is kept, and the length is unchanged |
| FileSystem.CollapseSpaces | src/utils/FileSystemUtil.ts:46 | the result has no white space and only characters of the input or `_` |
| FileSystem.SanitizedIsSafe | src/utils/FileSystemUtil.ts:43-49 | a sanitised name has no forbidden character, no white space and no `__` |
| FileSystem.SafeNameKept | src/utils/FileSystemUtil.ts:43-49 | a name that is already safe is returned unchanged |
| FileSystem.SanitizeIdempotent | src/utils/FileSystemUtil.ts:43-49 | sanitising twice is sanitising once |
| FileSystem.LastIndexOf | src/utils/FileSystemUtil.ts:57 | the index found holds the character and no later index does; none means the character is absent |
| FileSystem.GetFileExtension | src/utils/FileSystemUtil.ts:56-59 | a non-empty extension starts with the last dot, has no further dot and ends the name; there is one exactly when a dot occurs after the first character |
| FileSystem.ValidateFileExtension | src/utils/FileSystemUtil.ts:66-69 | accepted exactly when the lower-cased extension is not in the dangerous list |
| FileSystem.DangerousRefused | src/utils/FileSystemUtil.ts:12 | each dangerous extension is refused after any non-empty name, in lower or upper case (with lines 66-69) |
| FileSystem.UpperRoundTrip | src/utils/FileSystemUtil.ts:67 | upper-casing a listed extension keeps its dots in place, and lower-casing gives it back |
| FileSystem.ExtensionOfSuffix | src/utils/FileSystemUtil.ts:56-59 | the extension of a name ending in a dot-led, dot-free suffix is that suffix |
| FileSystem.NoExtensionPasses | src/utils/FileSystemUtil.ts:56-69 | a name with no dot after its first character has no extension and passes |
| FileSystem.ValidateMimeType | src/utils/FileSystemUtil.ts:76-90 | accepted exactly when the type is in the list of nine allowed types |
| FileSystem.GenerateFilePath | src/utils/FileSystemUtil.ts:98-100 | the path starts with `uploads/project_` and ends with `/` and the file name |
| FileSystem.ValidateFilePath | src/utils/FileSystemUtil.ts:107-120 | the early-return loop accepts exactly when no dangerous pattern occurs and the path, backslashes read as slashes, starts with `uploads/` |
| FileSystem.GeneratedShape | src/utils/FileSystemUtil.ts:98-100 | a path for a numeric id and a name without slashes has only the template's two slashes, each after a letter or digit, and no backslash |
| FileSystem.GeneratedPathSafe | src/utils/FileSystemUtil.ts:98-120 | a path generated for a numeric id and a name without slashes or backslashes passes validateFilePath |
| PromptLoading.NormalizedSpellings | src/utils/promptLoader.ts:91-104 | a step number and its written-out key `step<n>` (`step-<n>` for a negative number) share one key, 'workshop' and 'stepworkshop' both become 'stepworkshop', and any other key is kept |
| PromptLoading.NormalizeIdempotent | src/utils/promptLoader.ts:91-104 | a normalised key is never 'workshop', and normalising it again changes nothing |
| PromptLoading.NumberKeysDistinct | src/utils/promptLoader.ts:103 | different step numbers, negative ones included, get different keys |
| PromptLoading.NoAngleNoTags | src/utils/promptLoader.ts:261-275 | every tag pattern starts with `<`, so a text without `<` contains no HTML tag |
| PromptLoading.TagsIgnoreCase | src/utils/promptLoader.ts:264-271 | the patterns ignore case: upper-casing a text finds the same tags |
| PromptLoading.DoctypeDetected | src/utils/promptLoader.ts:271 | a page starting with `<!DOCTYPE html>` is detected |
| PromptLoading.Utf16Length | src/utils/promptLoader.ts:597 | a text's JavaScript length lies between its number of characters and twice that |
| PromptLoading.IssuesOf | src/utils/promptLoader.ts:596-616 | a short text, HTML tags and a missing `#` each give their own issue, independently; there is no issue exactly when none of them holds |
| PromptLoading.ValidatePrompt | src/utils/promptLoader.ts:583-643 | valid exactly when there is no issue; a blank prompt gives the one issue "empty" and nothing else |
| PromptLoading.ValidateIssues | src/utils/promptLoader.ts:596-616 | a non-blank prompt is checked for length, tags and header each independently, and never reported empty |
| PromptLoading.ValidIff | src/utils/promptLoader.ts:583-643 | a prompt is valid exactly when it has at least 50 code units, no HTML tag and a `#` |
| PromptLoading.IssueTexts | src/utils/promptLoader.ts:589-611 | one message per issue |
| PromptLoading.FetchPromptFile | src/utils/promptLoader.ts:190-257 | the file is read exactly when its key is mapped, the answer is ok and not text/html, and its content passes validation; the content is the body, with no HTML tag, at least 50 code units and a `#` |
| PromptLoading.Step4NeverFetched | src/utils/promptLoader.ts:24-37 | no file is mapped for step 4, so loading it always fails (with lines 196-198) |
| PromptLoading.HtmlAnswerReported | src/utils/promptLoader.ts:219-221 | an answer served as text/html is reported as a missing file, from the third failure on with the repeated-failure note (with lines 161-171) |
| PromptLoading.FallbackPrompt | src/utils/promptLoader.ts:325-475 | the fallback is never empty: the key's own text when it has a non-empty one, otherwise `# ` and the upper-cased key |
| PromptLoading.Lookup | src/utils/promptLoader.ts:281-301 | the cache answers exactly when it holds the key and the entry is at most five minutes old |
| PromptLoading.Swept | src/utils/promptLoader.ts:293-297 | an expired entry for the key is dropped, and every other entry is kept |
| PromptLoading.LoadSuccess | src/utils/promptLoader.ts:111-145 | a load succeeds exactly when the cache holds a fresh entry or the file is read; a hit leaves the entry and the counts as they were; a read file is cached with the clock reading taken after the fetch (line 130, with line 313) and its error count reset; other keys keep their entries and counts |
| PromptLoading.FetchedEntryLifetime | src/utils/promptLoader.ts:130-134 | a fetched prompt is served from the cache for five minutes counted from the clock reading taken when it is stored after the fetch, not from the lookup's reading (with lines 292-293 and 313) |
| PromptLoading.LoadFailure | src/utils/promptLoader.ts:146-182 | a failed load serves the fallback, reports an error, counts one more failure for the key, leaves the cache as the lookup left it, and from the third failure adds the repeated-failure note |
| PromptLoading.ReloadServedFromCache | src/utils/promptLoader.ts:118-126 | after a successful read, loading the key again within five minutes of storing it is served from the cache whatever the server would answer (with line 293) |
| PromptLoading.ThirdFailureNoted | src/utils/promptLoader.ts:147-171 | three failures in a row for a key give a count of 3 and the repeated-failure note |
| PromptLoading.Placeholder | src/utils/promptLoader.ts:653 | a placeholder is not empty and starts with `{` |
| PromptLoading.InterpolateVariables | src/utils/promptLoader.ts:649-660 | the loop applies each variable in order, replacing every occurrence of its placeholder |
| PromptLoading.NoBraceUnchanged | src/utils/promptLoader.ts:649-660 | a prompt without `{` is left as it is |
| PromptLoading.FillsPlaceholder | src/utils/promptLoader.ts:652-654 | a single variable fills its one placeholder |
| PromptLoading.PromptLoader.constructor | src/utils/promptLoader.ts:45-51 | the loader starts with an empty cache and no error count |
| PromptLoading.PromptLoader.IncrementErrorCount | src/utils/promptLoader.ts:71-76 | the key's count goes up by one from 0 or its last value, and is returned |
| PromptLoading.PromptLoader.ResetErrorCount | src/utils/promptLoader.ts:82-84 | the key's count is removed and nothing else changes |
| PromptLoading.PromptLoader.GetCachedPrompt | src/utils/promptLoader.ts:281-301 | answers the lookup and drops the key's entry if it expired |
| PromptLoading.PromptLoader.SetCachedPrompt | src/utils/promptLoader.ts:307-317 | stores the content with the time and its key |
| PromptLoading.PromptLoader.LoadPrompt | src/utils/promptLoader.ts:111-183 | the result, the new cache and the new counts are those of Load for the normalised key and what the server answers, with the lookup's clock reading and the later one taken when a fetched prompt is stored |
| PromptLoading.PromptLoader.ClearCache | src/utils/promptLoader.ts:515-545 | a step's entry and count are removed, or everything when no step is given |
| PromptGenerator.NormalizeElementId | backend/modules/prompt_generator.py:43-57 | a non-string id comes back unchanged; a string comes back stripped, with '-' and ' ' turned into '_', the 유형/무형 prefix followed by '_', and every run of underscores shortened to one |
| PromptGenerator.NormalizedShape | backend/modules/prompt_generator.py:50-57 | a normalised id holds no '-', no ' ' and no "__" |
| PromptGenerator.PrefixGetsUnderscore | backend/modules/prompt_generator.py:51-54 | an id that starts with 유형 (or 무형) after cleaning comes out starting with 유형_ (or 무형_) |
| PromptGenerator.SpelledStripped | backend/modules/prompt_generator.py:50 | `strip()` leaves an id spelled prefix, separator, digits unchanged |
| PromptGenerator.SpelledCleaned | backend/modules/prompt_generator.py:50 | replacing '-' and ' ' turns the separator of such an id into "" or "_" and touches nothing else |
| PromptGenerator.SpelledPrefixed | backend/modules/prompt_generator.py:51-54 | the prefix rules turn 유형N and 유형_N alike into 유형_N (and the same for 무형) |
| PromptGenerator.CanonicalNoDouble | backend/modules/prompt_generator.py:55-56 | 유형_N has no adjacent underscores, so the squeezing loop leaves it |
| PromptGenerator.SpelledNormalized | backend/modules/prompt_generator.py:44-57 | the spellings 유형1, 무형 4, 유형-2 and 유형_5 come out as 유형_N / 무형_N with the same digits; an id already of that form is returned unchanged |
| PromptGenerator.GetSpiritById | backend/modules/prompt_generator.py:60-64 | None exactly when no spirit has the id; otherwise the first spirit with that id |
| PromptGenerator.NameLinesAt | backend/modules/prompt_generator.py:119-120 | the k-th name line names the k-th element |
| PromptGenerator.MappingLinesAt | backend/modules/prompt_generator.py:180-182 | the k-th mapping line maps the k-th element's normalised id to its name |
| PromptGenerator.ElementLinesOnly | backend/modules/prompt_generator.py:117-199 | the element loops produce name lines and mapping lines and nothing else |
| PromptGenerator.TargetMembers | backend/modules/prompt_generator.py:83-92 | the target section holds the goal, the heading, the CA activity, the activity name only when non-empty and the leader observation only when non-empty |
| PromptGenerator.DetailMembers | backend/modules/prompt_generator.py:94-104 | the detail section is empty unless some detail is non-empty, and then lists exactly the non-empty details |
| PromptGenerator.SpiritMembers | backend/modules/prompt_generator.py:106-151 | the spirit section holds the name, the description and the element names, or the fixed list of a kind exactly when the spirit has no elements of that kind |
| PromptGenerator.InstructionMembers | backend/modules/prompt_generator.py:153-176 | the instructions hold the leader part exactly when there is an observation |
| PromptGenerator.MappingMembers | backend/modules/prompt_generator.py:178-261 | the mapping section holds the elements' mapping lines, or the fixed mappings of a kind exactly when that kind is empty, then the schema |
| PromptGenerator.Members | backend/modules/prompt_generator.py:67-263 | every line of the prompt belongs to one of the sections, as each section allows |
| PromptGenerator.ActivityNameIff | backend/modules/prompt_generator.py:87-88 | the activity-name line appears exactly when the stripped activity name is non-empty, and it holds that name (with line 71) |
| PromptGenerator.LeaderLinesIff | backend/modules/prompt_generator.py:73 | the leader observation line and the leader instructions appear exactly when the stripped observation is non-empty, and the line holds that observation (with lines 80, 90-91, 157-160) |
| PromptGenerator.DetailSectionIff | backend/modules/prompt_generator.py:72-79 | the detail heading appears exactly when some stripped detail is non-empty, each detail line exactly when its field is non-empty, and no detail line is empty (with lines 94-104) |
| PromptGenerator.FallbackLine | backend/modules/prompt_generator.py:117-135 | each fixed list or mapping is in the prompt exactly when its kind of element list is empty (with lines 179-210) |
| PromptGenerator.FallbackIff | backend/modules/prompt_generator.py:117-135 | the four fixed blocks stand in exactly when the spirit has no elements of their kind (with lines 138-151, 179-210) |
| PromptGenerator.OnlyInMappings | backend/modules/prompt_generator.py:179-199 | a mapping line is in the prompt exactly when it is the mapping line of one of the spirit's elements |
| PromptGenerator.MappingLinesOfElements | backend/modules/prompt_generator.py:179-199 | every element has its mapping line, and every mapping line comes from an element |
| PromptGenerator.MappingsFromElements | backend/modules/prompt_generator.py:179-199 | every element of the spirit gets a mapping line with its normalised id in the prompt, and every mapping line of the prompt comes from an element |
| PromptGenerator.MappingIdNormalized | backend/modules/prompt_generator.py:181-199 | the id in an element's mapping line is normalised: no '-', no ' ', no "__" |
| PromptGenerator.AppendNames | backend/modules/prompt_generator.py:119-120 | the loop appends the name lines of the elements, in order |
| PromptGenerator.AppendMappings | backend/modules/prompt_generator.py:180-182 | the loop appends the mapping lines of the elements, in order |
| PromptGenerator.AppendDetails | backend/modules/prompt_generator.py:94-104 | appends exactly the detail section |
| PromptGenerator.AppendSpirit | backend/modules/prompt_generator.py:106-151 | appends exactly the spirit section |
| PromptGenerator.AppendInstructions | backend/modules/prompt_generator.py:153-176 | appends exactly the instruction section |
| PromptGenerator.AppendMappingSection | backend/modules/prompt_generator.py:178-261 | appends exactly the mapping section and the schema |
| PromptGenerator.BuildPrompt | backend/modules/prompt_generator.py:67-263 | fails exactly when activityName is null (`.strip()` on None raises); otherwise the prompt's lines are those of the stripped payload and the spirit |
| XlsxToSpirits.Digits | backend/modules/tools/xlsx_to_spirits.py:35-38 | the digits kept are never more than the characters of the id |
| XlsxToSpirits.DigitsMembers | backend/modules/tools/xlsx_to_spirits.py:35-38 | the `isdigit` filter keeps a character exactly when it is a digit of the id |
| XlsxToSpirits.DigitsAppend | backend/modules/tools/xlsx_to_spirits.py:35-38 | the filter keeps the digits in order, piece by piece |
| XlsxToSpirits.NormalizeXlsxIdCases | backend/modules/tools/xlsx_to_spirits.py:28-40 | empty input comes back as it is; a 유형/무형 id with digits becomes the prefix, '_' and exactly its digits in order; one without digits, and any other id, comes back stripped |
| XlsxToSpirits.EveryDigitKept | backend/modules/tools/xlsx_to_spirits.py:35 | every digit of the id is kept, so "유형 1-2" becomes "유형_12" |
| XlsxToSpirits.CanonicalDigits | backend/modules/tools/xlsx_to_spirits.py:31-36 | 유형_N is stripped already and its digits are N |
| XlsxToSpirits.NormalizeXlsxIdIdempotent | backend/modules/tools/xlsx_to_spirits.py:28-40 | normalising twice gives what normalising once gives |
| XlsxToSpirits.SpelledXlsxId | backend/modules/tools/xlsx_to_spirits.py:32-39 | 유형1, 유형 1, 유형-1 and 유형_1 (and the same for 무형) all become 유형_1 |
| XlsxToSpirits.AgreesWithPromptNormalizer | backend/modules/tools/xlsx_to_spirits.py:28-40 | on those spellings this normaliser and the prompt generator's give the same id |
| XlsxToSpirits.Kept | backend/modules/tools/xlsx_to_spirits.py:50 | the kept pieces are non-empty and stripped, and there are no more of them than pieces |
| XlsxToSpirits.NormalizeAll | backend/modules/tools/xlsx_to_spirits.py:51 | each piece is normalised, in order |
| XlsxToSpirits.SplitIdsBlank | backend/modules/tools/xlsx_to_spirits.py:43-48 | a missing or blank cell gives no ids |
| XlsxToSpirits.SplitIdsShape | backend/modules/tools/xlsx_to_spirits.py:43-51 | every id split_ids gives is non-empty, holds no comma, space or U+3000, and is already normalised |
| XlsxToSpirits.SplitPieceMembers | backend/modules/tools/xlsx_to_spirits.py:50 | a piece holds only characters of the cell |
| XlsxToSpirits.SplitIdsJoin | backend/modules/tools/xlsx_to_spirits.py:43-51 | ids listed with commas, spaces or U+3000 between them are split back into those ids, each normalised |
| XlsxToSpirits.ToDict | backend/modules/tools/xlsx_to_spirits.py:60-77 | the dictionary keeps id and name, and has connected_elements exactly when the list is non-empty |
| XlsxToSpirits.DictRoundTrip | backend/modules/tools/xlsx_to_spirits.py:60-77 | reading the dictionary back gives the entry, except that an empty connection list reads back as a missing one |
| XlsxToSpirits.KeyTarget | backend/modules/tools/xlsx_to_spirits.py:174-187 | a spirit is found exactly when the sheet name contains a recognised name, and it is the spirit of the first such name |
| XlsxToSpirits.SheetTargetShape | backend/modules/tools/xlsx_to_spirits.py:174-193 | every target starts with "spirit_", and a sheet is unmatched exactly when it contains no recognised name and does not start with "spirit_" |
| XlsxToSpirits.SheetTargetExample | backend/modules/tools/xlsx_to_spirits.py:174-187 | a sheet named "1. 불우재" merges into spirit_01 |
| XlsxToSpirits.FindTargetId | backend/modules/tools/xlsx_to_spirits.py:183-193 | the loop finds the sheet's target as the name table defines it |
| XlsxToSpirits.FirstWithId | backend/modules/tools/xlsx_to_spirits.py:195-200 | the position found holds the id and no earlier one does; none is found only when no spirit has the id |
| XlsxToSpirits.FindSpirit | backend/modules/tools/xlsx_to_spirits.py:195-202 | the loop finds the first spirit with the target id |
| XlsxToSpirits.SpiritEntry.constructor | backend/modules/tools/xlsx_to_spirits.py:195-210 | a spirit entry of the JSON data holds its id and three lists |
| XlsxToSpirits.MergeIntoJson | backend/modules/tools/xlsx_to_spirits.py:172-212 | an unmatched sheet or a missing spirit changes nothing; otherwise the target spirit gets each non-empty list from the sheet, its other lists and every other spirit stay as they were |
| SpiritImport.DigitRunStart | backend/modules/import_spirits_from_excel.py:24 | the digit run found is all digits and cannot be extended to the left |
| SpiritImport.NumberAfter | backend/modules/import_spirits_from_excel.py:24 | the group the numbered pattern captures is a non-empty run of digits |
| SpiritImport.NumberAfterSplits | backend/modules/import_spirits_from_excel.py:24 | a match splits the id into the prefix, white space with at most one '-', and the captured digits |
| SpiritImport.NumberAfterMatches | backend/modules/import_spirits_from_excel.py:24 | every prefix, separator and digits spelling matches, capturing those digits |
| SpiritImport.IntText | backend/modules/import_spirits_from_excel.py:26 | `int()` of digits, written back, is a non-empty run of digits |
| SpiritImport.CanonicalStripped | backend/modules/import_spirits_from_excel.py:20-22 | an id of the form 유형_N / 무형_N has no white space at either end |
| SpiritImport.NormIdKeepsCanonical | backend/modules/import_spirits_from_excel.py:18-23 | norm_id returns an id of the form 유형_N / 무형_N unchanged |
| SpiritImport.CanonicalFromParts | backend/modules/import_spirits_from_excel.py:22 | a prefix, '_' and digits is of the form 유형_N / 무형_N |
| SpiritImport.NumberedStripped | backend/modules/import_spirits_from_excel.py:20 | a numbered spelling has no white space at either end |
| SpiritImport.NumberedNotCanonical | backend/modules/import_spirits_from_excel.py:22-24 | a numbered spelling is not already canonical, so the second pattern decides it |
| SpiritImport.NormIdNumbered | backend/modules/import_spirits_from_excel.py:14-27 | 유형 / 무형, an optional '-' among white space and digits become the prefix, '_' and the number the digits spell, which is canonical |
| SpiritImport.NormIdExample | backend/modules/import_spirits_from_excel.py:24-26 | "유형 -07" becomes "유형_7" |
| SpiritImport.NormIdOnlyRewritesNumbered | backend/modules/import_spirits_from_excel.py:14-27 | norm_id changes a non-empty id beyond stripping it only when the id matches the numbered pattern, and then the result is canonical |
| SpiritImport.NormIdIdempotent | backend/modules/import_spirits_from_excel.py:14-27 | normalising twice gives what normalising once gives |
| SpiritImport.LeadingZerosDiffer | backend/modules/import_spirits_from_excel.py:26 | this importer drops leading zeros ("유형 07" gives 유형_7) where the other keeps every digit (유형_07) |
| SpiritImport.TokenShape | backend/modules/import_spirits_from_excel.py:82-84 | every connection token has the form 행동_N / 유형_N / 무형_N, so norm_id leaves the 유형/무형 ones unchanged |
| SpiritImport.Connections | backend/modules/import_spirits_from_excel.py:76-85 | a row gives no more connections than it has connection cells |
| SpiritImport.CollectConnections | backend/modules/import_spirits_from_excel.py:75-85 | the loop collects the tokens of the non-empty connection cells, in column order |
| SpiritImport.ConnectionsAreTokens | backend/modules/import_spirits_from_excel.py:75-85 | every collected connection is a token |
| SpiritImport.Window | backend/modules/import_spirits_from_excel.py:76 | the slice of connection cells holds at most the window's width |
| SpiritImport.NinthCellRead | backend/modules/import_spirits_from_excel.py:76 | the slice as written reads a token in the ninth cell after the first connection column, which the eight connection columns do not |
| SpiritImport.TokenExample | backend/modules/import_spirits_from_excel.py:82-84 | the cell "유형3" is the token 유형_3 |
| SpiritImport.NoTokenCells | backend/modules/import_spirits_from_excel.py:77-83 | empty cells and cells without a token give no connections |
| SpiritImport.BehaviorConnections | backend/modules/import_spirits_from_excel.py:94 | a behaviour keeps one connection per token, with norm_id applied to the 유형/무형 ones and the others kept |
| SpiritImport.IntangibleTokens | backend/modules/import_spirits_from_excel.py:102 | a tangible element keeps exactly the 무형_ connections |
| SpiritImport.BehaviorTokensKept | backend/modules/import_spirits_from_excel.py:94 | a behaviour keeps its tokens exactly as they were read |
| SpiritImport.StepShape | backend/modules/import_spirits_from_excel.py:87-114 | each row keeps the lists' shape: behaviours connect only to tokens, tangible elements only to 무형_ tokens, intangible elements to nothing |
| SpiritImport.ScanShape | backend/modules/import_spirits_from_excel.py:67-114 | the shape holds after every row |
| SpiritImport.KeysSnoc | backend/modules/import_spirits_from_excel.py:124-125 | adding an item adds its id to the ids seen |
| SpiritImport.Dedup | backend/modules/import_spirits_from_excel.py:117-126 | the loop keeps each item whose id was not seen before, in order |
| SpiritImport.FirstIndex | backend/modules/import_spirits_from_excel.py:120-125 | the first item with an id holds that id and no earlier item does |
| SpiritImport.FirstIndexPrefix | backend/modules/import_spirits_from_excel.py:120-125 | the first item with an id in a prefix is the first in the whole list |
| SpiritImport.DedupedKeys | backend/modules/import_spirits_from_excel.py:117-126 | deduplication keeps every id of the input |
| SpiritImport.DedupedDistinct | backend/modules/import_spirits_from_excel.py:117-126 | no two items of the result share an id |
| SpiritImport.DedupedFirst | backend/modules/import_spirits_from_excel.py:117-126 | each item of the result is the first item of the input with its id |
| SpiritImport.LastIsFirst | backend/modules/import_spirits_from_excel.py:122-125 | an item whose id is new is the first item with that id |
| SpiritImport.DedupedOrder | backend/modules/import_spirits_from_excel.py:117-126 | the result keeps the input order |
| SpiritImport.DedupedFromItems | backend/modules/import_spirits_from_excel.py:117-126 | the result holds only items of the input |
| SpiritImport.ParsedSheetShape | backend/modules/import_spirits_from_excel.py:67-132 | the lists parse_sheet returns keep the shape after deduplication |
| SpiritImport.ParseSheet | backend/modules/import_spirits_from_excel.py:66-132 | the rows are read in order over the eight connection columns, then each list is deduplicated |

## Left out

- File locking: `_with_file_lock` and `_with_session_file_lock` (OS locks, fsync, three tries with sleeps) are not modelled. Each engine operation is one atomic step on the store.
- FieldSync.Load: when the file lock fails after three tries, `load_field_states` returns the empty record (backend/modules/realtime_sync.py:82-86). The next save, for instance the one in `lock_field` at :130, then overwrites the stored record and loses every other lock and value. `Load` returns the empty record only for a missing, blank or unreadable file.
- No atomicity across operations: the load (:83) and the save (:106) take the file lock separately. Two concurrent `lock_field` calls can both read an empty lock table and both be granted. The model runs operations one after the other.
- FieldSync.Save: a failed write is printed and swallowed (:105-108). The model always writes.
- One `now` per operation stands for the several `time.time()` reads the backend source makes within it. The prompt loader keeps its two `Date.now()` reads apart: `now` for the cache lookup (src/utils/promptLoader.ts:292) and `storedAt` for storing a fetched prompt (:313).
- PromptLoading.NormalizeStepKey: a step number is an integer. A fractional or non-finite JavaScript number (`1.5`, `NaN`) would give `step1.5` or `stepNaN`, and is not represented.
- Sessions.SessionStore.CreateSession: the source redraws random codes until one is free, without bound (backend/modules/session_manager.py:62-63). The finite `draws` sequence makes the model return None when every draw is taken, which the source never does.
- JSON defaults: a lock entry without `lockTime` (read as 0 at realtime_sync.py:119), without `isActive`, or a session without `participantCount` cannot be represented. Every record of the model has all its fields.
- Reading and writing JSON files, directory creation and `shutil.rmtree` are the store's maps. The `print` logging of both backend modules is left out.
- Api: FastAPI routing, request bodies and error pages are left out. Only the status and the store are modelled.
- CultureMapParser.ConnectionIndirect: proved in one direction only, because the other does not hold. In `[연결] [A](B) x → [C](D) (간접)` the lazy target content takes `(간접)` itself, so the line ends with `(간접)` and is still direct.
- CultureMapParser: the `i` flag of the note pattern (src/utils/parser.ts:49) changes nothing, since the pattern's only letters are Hangul.
- PromptGenerator: the fixed wording of the prompt (goal, instructions, fallback lists, JSON schema) is one constructor per block, not its text. `load_spirits` and its file cache are I/O. A spirit whose `name` is null or an element without `name` (a `KeyError`) is not represented. Ids are strings, integers or null: a JSON float id such as `5.0`, which `str()` prints as "5.0", and ids of other JSON types are left out.
- XlsxToSpirits, SpiritImport: `str.isdigit` and `\s` are modelled for ASCII digits and Python white space; other Unicode digits are left out. Cells hold strings; numeric cells are left out.
- XlsxToSpirits: `parse_sheet`, its header detection and the workbook I/O (openpyxl) are not modelled, nor the CLI.
- SpiritImport.ParseSheet: the header search for `연결요소` (backend/modules/import_spirits_from_excel.py:42-64) is left out; the first connection column is a parameter. `merge_into_json` and `import_all_sheets` (:135-180) read and write files and are left out.
- SpiritImport.ParseSheet: requires every row to have at least two cells. The source raises an `IndexError` on a shorter row.
- SpiritImport.ParseSheet: reads the eight connection columns of the corrected window (see Findings), not the nine cells the slice as written reads.
- FileSystem.GeneratedPathSafe: stated for a numeric project id and a name without slashes or backslashes. It does not hold for every id and name that lack the dangerous patterns: the id `..` gives `uploads/project_../x`, which contains `../`, and the name `etc/x` gives `/etc/`.
- Common.AsciiLowerString: only the ASCII capitals are lowered. JavaScript `toLowerCase` (src/utils/FileSystemUtil.ts:67) lowers every cased letter, and `'İ'` becomes two code units, so the length can change. The verdict of FileSystem.ValidateFileExtension is the same either way: the only non-ASCII characters that lower to ASCII letters are the Kelvin sign (to `k`) and `İ` (to `i` and a combining dot), and no listed extension matches them.
- Common.AsciiUpperString: only the ASCII small letters are raised. JavaScript `toUpperCase` (src/utils/promptLoader.ts:473) raises every cased letter and can lengthen the text (`'ß'` becomes "SS"). So PromptLoading.FallbackPrompt gives "# ß…" for a key holding `ß` where the source gives "# SS…".
- FileSystem: `generateUniqueFileName` (clock and random), `base64ToBlob` (browser Blob) and `formatFileSize` (floating point) are left out.
- PromptLoading.Interpolated: the source builds a `RegExp` from the key without escaping it, and `String.replace` gives `$&`, `$1` and similar in a value a special meaning. The model treats the key and the value as plain text.
- PromptLoading: the encoding check of `validatePrompt` (`decodeURIComponent(encodeURIComponent(content))`, src/utils/promptLoader.ts:620) never throws and gives the content back for any sequence of Unicode scalar values, which is what a Dafny string is, and is not modelled. `preloadAllPrompts` and `getCacheStatus` (logging and a status report) are left out. `console` output and the `fetch` cache option are left out.
- PromptLoading.FetchPromptFile: `STEP_FILE_MAP` (src/utils/promptLoader.ts:25-40) is read as a map of its own entries. The source reads a plain object, so a key naming an inherited member (`constructor`, `toString`, `__proto__`) is not `undefined` at :196: the source fetches `/prompts/` followed by that member's text, while the model fails without a request. No caller in the source passes such a key.
- PromptLoading.FallbackPrompt: `fallbacks[stepKey]` (src/utils/promptLoader.ts:473) is read as a map of its own entries. For a key naming an inherited member the source returns that inherited function, not a string, while the model returns "# " and the upper-cased key.
- LlmResult.ParsedResult: `setJsonError` and the rendering are UI. `JSON.parse` is a parameter. The extraction uses the corrected scan (see Findings).
- Floating point, React components, the Supabase functions under api/ and the database services are outside this model.

## Findings

| source | as written | input that shows it | evidently intended | confidence | as-written member | corrected member |
|---|---|---|---|---|---|---|
| backend/app.py:524-534 | the 404 raised for a missing session is an `HTTPException`, which the handler's own `except Exception` catches and re-raises as 400 | cleanup for a session code that does not exist | 404 "Session not found", as the other handlers answer | high (not executed) | Api.CleanupRequestAsWritten | Api.CleanupRequest |
| src/utils/parser.ts:4-11 | the layer lookup reads a plain object, so names every object inherits (`constructor`, `toString`, `valueOf`, `__proto__`, …) are found and the note is kept with a non-numeric layer | the line `[constructor](긍정) x` | only the four layer names are found, and any other type drops the note | high (not executed) | CultureMapParser.InheritedTagKept | CultureMapParser.LayerIndex |
| src/utils/layout.ts:33-34 | `noteType in nodesByLayer` is true for inherited names, and `.push` on that inherited member throws | a note of type `constructor` | an unknown type joins the 행동 layer, as 기타 does | high (not executed) | Layout.InheritedTypeThrows | Layout.Bucket |
| frontend/src/components/Dashboard.jsx:558-559 | a `}` before any `{` drives the depth below zero, so the object that follows never brings it back to zero | the text `}{}` | a stray closing brace is skipped and `{}` is found | medium (not executed) | LlmResult.StrayBraceHidesObject | LlmResult.ExtractFirstJsonObject |
| backend/modules/import_spirits_from_excel.py:76 | the slice `row[first_conn_col - 1 : first_conn_col + 8]` takes nine cells | a row whose ninth cell after the first connection column holds `유형3` | the eight connection columns the comment names | medium (not executed) | SpiritImport.NinthCellRead | SpiritImport.ParseSheet |
