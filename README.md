# Voice memo catalog — a Dafny model

This project models the core of a voice-memo app. The user records a note.
The recording becomes a placeholder note in a catalog. A two-stage remote
service then enriches it: the audio is transcribed, and the transcript is
analysed into a summary and a category. The note is then completed with
those results, or marked as failed. The catalog is persisted as one blob in
a key-value store. The main screen groups notes into category folders. The
list screen shows notes newest first, optionally limited to one category,
and lets the user delete notes.

Modules, one per file, following the app's structure:

- `Wrappers` (`wrappers.dfy`): `Option`.
- `NoteModel` (`note.dfy`): the `Note` record and its keyed `Codable` form; `audioURL`; the `firstIndex(where: id ==)` lookup.
- `ByteData` (`byte_data.dfy`): `Data`, plus UTF-8 encoding and strict decoding, proved to be inverse in both directions.
- `Multipart` (`multipart.dfy`): the multipart/form-data body of the transcription request. It follows section 4 of RFC 7578 and the delimiters of section 5.1.1 of RFC 2046.
- `GPTService` (`gpt_service.dfy`): the extension check, status and error mapping, the two stages and `processAudioNote`.
- `NotesStorage` (`notes_storage.dfy`): `saveNotes` and `loadNotes` over a key-value store.
- `AudioRecorder` (`audio_recorder.dfy`): the catalog owner as a class. It covers start and stop, the placeholder, the "file still exists" filter applied on every save, and the completion of the enrichment task.
- `ContentView` (`categories.dfy`): the category folders, their counts and their order.
- `NotesListView` (`notes_list.dfy`): the filtered, newest-first list and deletion.

Many inputs are parameters of the model:

- the file system, as a `Files` value giving which paths exist and which are readable;
- the clock, as a `Timestamp`;
- UUID generation, as a `NoteId`;
- the audio hardware's outcome;
- `URL(string:)`;
- the network exchange;
- the JSON encoders and decoders.

The asynchronous enrichment task is split in two. `ProcessRecording` returns the placeholder. `CompleteEnrichment` applies the enrichment's outcome. It may run after any other calls, deletions included.

## Model

| member | source | states |
|---|---|---|
| NoteModel.WithContent | voice-memo-app/Models/Note.swift:4-11 | an update replaces title, transcription, summary and category and keeps the `let` fields id, audioURLString and timestamp |
| NoteModel.Encode | voice-memo-app/Models/Note.swift:4-40 | the keyed container holds every coding key, each with the value of its own field |
| NoteModel.Decode | voice-memo-app/Models/Note.swift:38-40 | decoding succeeds exactly when every coding key is present with a value of the right kind |
| NoteModel.DecodeEncode | voice-memo-app/Models/Note.swift:4-40 | decoding an encoded note gives the same note back |
| NoteModel.EncodeDecode | voice-memo-app/Models/Note.swift:38-40 | a container that decodes is exactly the encoding of the note it decodes to |
| NoteModel.RawValuesDistinct | voice-memo-app/Models/Note.swift:38-40 | no two coding keys share a name in the encoded form |
| NoteModel.FileURLWithPath | voice-memo-app/Models/Note.swift:19 | the result is a file URL with the given path |
| NoteModel.AudioURL | voice-memo-app/Models/Note.swift:13-20 | the result is never nil and always a file URL; it is the parsed URL when the string parses as a file URL, and a file URL for the string as a path otherwise |
| NoteModel.IndexOf | voice-memo-app/Utils/AudioRecorder.swift:155 | the result is the first position holding the id, and it is absent exactly when no note has the id |
| NoteModel.FirstIndex | voice-memo-app/Views/NotesListView.swift:62 | the linear scan returns exactly the first matching position, or none |
| ByteData.EncodeScalar | voice-memo-app/Services/GPTService.swift:165 | one scalar encodes to 1 to 4 bytes; a single byte is used exactly for ASCII, and that byte is the code; every following byte is a continuation byte |
| ByteData.Utf8Encode | voice-memo-app/Services/GPTService.swift:165 | encoding never yields fewer bytes than characters |
| ByteData.AsciiEncoding | voice-memo-app/Services/GPTService.swift:165 | ASCII text encodes to one byte per character, each byte being the character's code |
| ByteData.Utf8Concat | voice-memo-app/Services/GPTService.swift:163-168 | encoding distributes over concatenation, so appending two strings appends their bytes |
| ByteData.Utf8RoundTrip | voice-memo-app/Services/GPTService.swift:69 | decoding the UTF-8 of any string gives the string back |
| ByteData.Utf8Decode | voice-memo-app/Services/GPTService.swift:69 | decoded text has at most one character per byte and at least one per four bytes |
| ByteData.DecodeThenEncode | voice-memo-app/Services/GPTService.swift:69 | when bytes decode, re-encoding the text gives exactly those bytes |
| ByteData.Data.constructor | voice-memo-app/Services/GPTService.swift:36 | a new buffer is empty |
| ByteData.Data.Append | voice-memo-app/Services/GPTService.swift:42 | the other bytes go on the end |
| ByteData.Data.AppendString | voice-memo-app/Services/GPTService.swift:163-168 | the string's UTF-8 bytes go on the end |
| Multipart.TranscriptionParts | voice-memo-app/Services/GPTService.swift:38-53 | three fields in order: the audio as file audio.m4a of type audio/m4a, then model whisper-1, then response_format text |
| Multipart.FileHeaderBytes | voice-memo-app/Services/GPTService.swift:39-41 | the three header strings of the file field encode to the file part's header: dash-boundary line, disposition with name and file name, content type, empty line |
| Multipart.AppendFileHeader | voice-memo-app/Services/GPTService.swift:39-41 | the three header appends add exactly the file part's header |
| Multipart.AppendFilePart | voice-memo-app/Services/GPTService.swift:39-43 | the five appends add exactly the encoded file part |
| Multipart.TextFieldBytes | voice-memo-app/Services/GPTService.swift:46-48 | the three strings of a text field encode to its part: dash-boundary line, disposition with the name, empty line, value, CRLF |
| Multipart.AppendTextField | voice-memo-app/Services/GPTService.swift:46-48 | the three appends add exactly the encoded text field |
| Multipart.BuildTranscriptionBody | voice-memo-app/Services/GPTService.swift:36-54 | the body built append by append equals the form-data encoding of the three fields followed by the close delimiter |
| Multipart.TranscriptionBodyBytes | voice-memo-app/Services/GPTService.swift:38-54 | the file, model and response_format parts followed by the close delimiter are the form-data body of the three fields |
| Multipart.EncodePartsAppend | voice-memo-app/Services/GPTService.swift:38-53 | encoding a list of parts distributes over concatenation of the list |
| Multipart.ContentIntact | voice-memo-app/Services/GPTService.swift:42 | every part's content appears unchanged at its offset inside the body |
| Multipart.EndsWithClose | voice-memo-app/Services/GPTService.swift:54 | every body ends with the close delimiter |
| GPTService.CheckedBody | voice-memo-app/Services/GPTService.swift:58-67 | the result is the body exactly on HTTP 200; a transport error propagates; a non-HTTP response is invalid; any other status gives an API error with the decoded message, or "Unknown error" |
| GPTService.Lowercased | voice-memo-app/Services/GPTService.swift:22 | same length, and each character is folded |
| GPTService.PathExtension | voice-memo-app/Services/GPTService.swift:22 | the extension holds no dot and no slash; when it is not empty, the path ends with a dot and the extension |
| GPTService.IsSupportedAudio | voice-memo-app/Services/GPTService.swift:22 | a URL passes exactly when its path extension is m4a in some letter case |
| GPTService.SupportedExtensions | voice-memo-app/Services/GPTService.swift:22-27 | the check accepts exactly m4a, M4a, m4A and M4A |
| GPTService.ExtensionOfNamedFile | voice-memo-app/Services/GPTService.swift:22 | a path made of a name, a dot and an extension has that extension |
| GPTService.RecordingsAreSupported | voice-memo-app/Services/GPTService.swift:22-27 | every recording file, named stem.m4a in some directory, passes the format check |
| GPTService.TranscriptionOutcome | voice-memo-app/Services/GPTService.swift:58-73 | a transcript is returned exactly for a 200 response whose body is valid UTF-8; that transcript encodes back to the body; an invalid body gives invalidResponse; other responses give the status error |
| GPTService.TranscribeAudio | voice-memo-app/Services/GPTService.swift:19-74 | an unsupported extension gives "Unsupported audio format" and sends nothing; an unreadable file sends nothing; otherwise exactly the form-data body is sent and the response is mapped |
| GPTService.AnalysisOutcome | voice-memo-app/Services/GPTService.swift:108-127 | success exactly when the status is 200, the envelope decodes, there is a first choice, and its content decodes as summary and category; an undecodable envelope propagates; any other failure is invalidResponse |
| GPTService.ProcessAudioNote | voice-memo-app/Services/GPTService.swift:7-17 | transcription always runs first; analysis runs exactly when transcription succeeded; the result joins the transcript with the analysis; the first error propagates |
| GPTService.AnalysisIrrelevantAfterFailure | voice-memo-app/Services/GPTService.swift:9-13 | after a failed transcription the run does not depend on the analysis stage |
| GPTService.EnrichmentOutcome | voice-memo-app/Services/GPTService.swift:7-17 | a transcription in a successful result is the text of the transcription response's body |
| NotesStorage.Saved | voice-memo-app/Utils/NotesStorage.swift:9-13 | when encoding succeeds the key holds the blob; when it fails the store is unchanged; other keys are never touched |
| NotesStorage.Loaded | voice-memo-app/Utils/NotesStorage.swift:15-21 | a missing key or an undecodable blob reads as no notes; otherwise the result is the decoded list |
| NotesStorage.LoadAfterSave | voice-memo-app/Utils/NotesStorage.swift:9-21 | with a codec that round-trips, a load after a save returns the saved list |
| NotesStorage.FailedSaveKeepsLoad | voice-memo-app/Utils/NotesStorage.swift:9-13 | a save whose encoding fails does not change what a load returns |
| NotesStorage.LastSaveWins | voice-memo-app/Utils/NotesStorage.swift:9-13 | a successful save overrides any earlier save |
| NotesStorage.NotesStorage.constructor | voice-memo-app/Utils/NotesStorage.swift:5-7 | the store starts with the given contents and codec |
| NotesStorage.NotesStorage.SaveNotes | voice-memo-app/Utils/NotesStorage.swift:9-13 | the store becomes `Saved` of the old store |
| NotesStorage.NotesStorage.LoadNotes | voice-memo-app/Utils/NotesStorage.swift:15-21 | never fails; returns the decoded list, or an empty list when the key is missing or the blob does not decode |
| AudioRecorder.Prefix | voice-memo-app/Utils/AudioRecorder.swift:160 | the result is a prefix of the string, of length min(k, length) |
| AudioRecorder.EnrichedTitle | voice-memo-app/Utils/AudioRecorder.swift:160 | the title is "Note: ", then at most 30 leading characters of the summary, then "..."; it has at most 39 characters |
| AudioRecorder.Placeholder | voice-memo-app/Utils/AudioRecorder.swift:136-144 | all four text fields are "Processing...", with the given id, path and time |
| AudioRecorder.Completed | voice-memo-app/Utils/AudioRecorder.swift:155-175 | on success the transcription, summary and category are the service's, with the derived title; on failure all four text fields are the error markers; id, path and timestamp are kept |
| AudioRecorder.CompletionLeavesProcessing | voice-memo-app/Utils/AudioRecorder.swift:155-175 | a completed note is never still a placeholder |
| AudioRecorder.HasAudio | voice-memo-app/Utils/AudioRecorder.swift:107-116 | a note passes exactly when its audio path exists: the parsed URL's path for a string that parses as a file URL, the string itself otherwise |
| AudioRecorder.KeepExisting | voice-memo-app/Utils/AudioRecorder.swift:107-116 | a note is kept exactly when its audio URL names an existing file; the result is never longer |
| AudioRecorder.KeepConcat | voice-memo-app/Utils/AudioRecorder.swift:107-116 | the filter distributes over concatenation, so order is kept |
| AudioRecorder.KeepAll | voice-memo-app/Utils/AudioRecorder.swift:107-116 | a catalog whose files all exist passes unchanged |
| AudioRecorder.KeepIdempotent | voice-memo-app/Utils/AudioRecorder.swift:107-116 | filtering twice against the same files equals filtering once |
| AudioRecorder.KeepIds | voice-memo-app/Utils/AudioRecorder.swift:107-116 | filtering adds no id and keeps ids unique |
| AudioRecorder.ReplaceKeepsIds | voice-memo-app/Utils/AudioRecorder.swift:161 | replacing a note by one with the same id keeps the id set and uniqueness |
| AudioRecorder.ReplaceKeepsOthers | voice-memo-app/Utils/AudioRecorder.swift:161 | after replacing one note, every note in the catalog is the new note or was there before |
| AudioRecorder.PlaceholderAppended | voice-memo-app/Utils/AudioRecorder.swift:147-148 | when every file exists, appending and saving adds exactly the placeholder at the end |
| AudioRecorder.AudioRecorder.constructor | voice-memo-app/Utils/AudioRecorder.swift:17-22 | the catalog starts as what the store loads; not recording; no enrichment task is pending |
| AudioRecorder.AudioRecorder.StartRecording | voice-memo-app/Utils/AudioRecorder.swift:43-88 | no effect while recording; the flag is set exactly when recording starts; the recorder URL is set once a recorder is created; the catalog never changes |
| AudioRecorder.AudioRecorder.SaveRecordings | voice-memo-app/Utils/AudioRecorder.swift:105-118 | the catalog is filtered to existing files and then saved; no id is added and uniqueness is kept |
| AudioRecorder.AudioRecorder.ProcessRecording | voice-memo-app/Utils/AudioRecorder.swift:120-148 | no URL, a missing file or an unreadable file changes nothing; otherwise a placeholder is appended, the catalog filtered and saved, and a fresh id keeps ids unique; the id becomes pending exactly when a placeholder is made, and pending notes remain placeholders |
| AudioRecorder.AudioRecorder.StopRecording | voice-memo-app/Utils/AudioRecorder.swift:90-103 | no effect unless recording; otherwise the flag is cleared and the recording processed; a fresh id keeps ids unique; the id becomes pending exactly when a placeholder is made, and pending notes remain placeholders |
| AudioRecorder.AudioRecorder.CompleteEnrichment | voice-memo-app/Utils/AudioRecorder.swift:151-177 | a deleted note stays deleted and nothing is saved; otherwise only that note's four text fields change, then the catalog is filtered and saved; ids stay unique; only a pending task can complete, and it completes once: its id leaves the pending set; the note it updates was still a placeholder, and the other pending notes remain placeholders |
| ContentView.CountOf | voice-memo-app/Views/ContentView.swift:10-11 | a count is positive exactly when some note has the category |
| ContentView.Grouped | voice-memo-app/Views/ContentView.swift:10-11 | one key per category present, each mapped to its number of notes |
| ContentView.Categories | voice-memo-app/Views/ContentView.swift:9-13 | the keys are exactly the notes' categories other than "", "Processing..." and "Error"; each value is that category's count, at least 1 |
| ContentView.NoFolderForPendingOrFailed | voice-memo-app/Views/ContentView.swift:12 | placeholder and failed notes never get a folder |
| ContentView.BelowTransitive | voice-memo-app/Views/ContentView.swift:22 | the string order used for sorting is transitive |
| ContentView.BelowTotal | voice-memo-app/Views/ContentView.swift:22 | any two distinct strings are ordered one way or the other |
| ContentView.FolderOrder | voice-memo-app/Views/ContentView.swift:22 | the folders are exactly the keys of `categories`, in strictly ascending order |
| ContentView.AscendingUnique | voice-memo-app/Views/ContentView.swift:22 | two ascending lists with the same elements are equal, so the folder order is determined by the key set |
| ContentView.FolderCountsAddUp | voice-memo-app/Views/ContentView.swift:22-25 | every folder count is at least 1, and the counts sum to the number of notes outside the excluded categories |
| NotesListView.InsertKeepsNewestFirst | voice-memo-app/Views/NotesListView.swift:11 | inserting by time into a newest-first list keeps it newest first |
| NotesListView.SortNewestFirst | voice-memo-app/Views/NotesListView.swift:11 | timestamps never increase along the result, which is a permutation of the catalog |
| NotesListView.SortIsStable | voice-memo-app/Views/NotesListView.swift:11 | the sort is stable: for every timestamp, the notes with that timestamp appear in the result in their catalog order |
| NotesListView.WithCategory | voice-memo-app/Views/NotesListView.swift:13 | each note of the category is kept as often as it occurs; all other notes are dropped |
| NotesListView.WithCategoryConcat | voice-memo-app/Views/NotesListView.swift:13 | the category filter distributes over concatenation, so it keeps the order of the notes it keeps |
| NotesListView.AtTimeWithCategory | voice-memo-app/Views/NotesListView.swift:13 | filtering by category and picking one timestamp commute |
| NotesListView.WithCategoryNewestFirst | voice-memo-app/Views/NotesListView.swift:11-13 | filtering keeps the newest-first order |
| NotesListView.FilteredRecordings | voice-memo-app/Views/NotesListView.swift:10-16 | newest first; without a filter, a permutation of the catalog; with one, exactly the catalog's notes of that category |
| NotesListView.FilteredIsStable | voice-memo-app/Views/NotesListView.swift:10-16 | notes with equal timestamps are listed in catalog order: without a filter all of them, with one exactly those of the category |
| NotesListView.FilteredFromCatalog | voice-memo-app/Views/NotesListView.swift:10-16 | every listed note is in the catalog and in the chosen category |
| NotesListView.RemoveFirst | voice-memo-app/Views/NotesListView.swift:62-64 | an absent id leaves the catalog unchanged; otherwise exactly the first note with that id is cut out |
| NotesListView.RemoveFirstKeepsUnique | voice-memo-app/Views/NotesListView.swift:62-64 | removal adds no id and keeps ids unique |
| NotesListView.RemoveFirstIsWithout | voice-memo-app/Views/NotesListView.swift:62-64 | with unique ids, removing the first match removes every note with that id |
| NotesListView.Selected | voice-memo-app/Views/NotesListView.swift:58 | one note per swiped row, each taken from the visible list |
| NotesListView.RemoveEach | voice-memo-app/Views/NotesListView.swift:61-65 | the catalog never grows, gains no note and no id, and keeps its ids unique |
| NotesListView.RemoveEachIsWithout | voice-memo-app/Views/NotesListView.swift:56-69 | with unique ids, deleting the chosen notes one by one removes exactly the notes with their ids, whatever the order, and keeps the rest in order |
| NotesListView.RemoveNotes | voice-memo-app/Views/NotesListView.swift:61-65 | the loop removes, for each chosen note in turn, the first catalog note with its id; the recording state is untouched |
| NotesListView.DeleteNotes | voice-memo-app/Views/NotesListView.swift:56-69 | the notes at the swiped rows of the visible list are removed from the catalog by id, and the result is saved; with unique ids, exactly those notes go; ids stay unique; the recording state and the pending tasks are untouched, and pending notes remain placeholders |

## Left out

- Audio hardware is not modelled: the audio session, AVAudioRecorder, microphone permission, `setupSession` and `deinit`. `startRecording` takes the device's outcome as a parameter.
- The recording file name is not modelled: `DateFormatter` output and `appendingPathComponent` are reduced to a path parameter. `GPTService.RecordingsAreSupported` covers any name of the form stem.m4a.
- Logging (`print`) is not modelled.
- SwiftUI views, sheets, alerts and navigation are not modelled.
- The request URLs, method and headers are not modelled: the Authorization header with the API key and the Content-Type header carrying the boundary. The boundary is a parameter.
- The analysis request body is not modelled: the prompt, model, temperature and token limit, and the `JSONSerialization` call. The analysis exchange is a parameter.
- JSON encoding and decoding of notes and of the service's responses are not modelled; they are function parameters. `Note`'s keyed container is modelled as a map from the `CodingKeys` cases to values; names in the encoded form that match no case never reach it.
- The transcription request's transport is a parameter. That covers `URLSession` and the actor hopping of the `Task` in `processRecording`. Interleavings are modelled only as "the completion may run after any other call".
- `AudioPlayer.swift` is not part of this model. `NoteDetailView.swift` is not part of this model.
- ByteData.Data.AppendString: the failure branch of `string.data(using: .utf8)` is not modelled. A Swift `String` always encodes to UTF-8, so that branch cannot be taken.
- AudioRecorder.Prefix: counts Unicode scalars, not grapheme clusters as Swift's `prefix(30)` on a `String` does.
- AudioRecorder.EnrichedTitle: inherits the scalar count of `Prefix`.
- GPTService.Lowercased: folds ASCII letters only. Swift's `lowercased()` folds all of Unicode. For the comparison with "m4a" the two agree.
- GPTService.PathExtension: an approximation of Foundation's rule. It takes the text after the last dot of the last component, provided that dot is not the component's first character. Foundation's further rejections of unusual extensions are not modelled.
- String equality: Swift's `String` equality and hashing use Unicode canonical equivalence. The model compares raw characters. Two canonically equivalent but differently composed categories (a precomposed "é" against "e" with a combining accent) therefore form one group in `Dictionary(grouping:)` in the app and two keys in `ContentView.Grouped`. The same difference applies to the excluded names in `ContentView.Categories` and to the category test in `NotesListView.WithCategory`.
- ContentView.FolderOrder: Swift compares `String`s by Unicode canonical ordering. The model compares them character by character.
- Multipart.BuildTranscriptionBody: the boundary is not checked for absence from the audio bytes. Section 5.1.1 of RFC 2046 requires that absence; the app relies on a random UUID for it.
