/**
 * The catalog owner (voice-memo-app/Utils/AudioRecorder.swift): the
 * recording flag, the placeholder note added when a recording stops, the
 * "keep only notes whose audio file exists" filter applied on every save,
 * and the update that the enrichment task makes when it completes.
 *
 * The audio hardware, the clock, UUID generation and the file system are
 * parameters of the methods; the enrichment task's completion is its own
 * method, which may run after any number of other calls, deletions included.
 */
module AudioRecorder {
  import opened Wrappers
  import opened NoteModel
  import opened NotesStorage
  import opened GPTService

  const Processing := "Processing..."
  const ErrorTitle := "Error processing recording"
  const ErrorMark := "Error"

  /** The file system at one moment: the paths that exist and the paths that are readable. */
  datatype Files = Files(existing: set<string>, readable: set<string>)

  /** How far `startRecording` got with the audio hardware. */
  datatype DeviceOutcome =
    | SessionFailed    // the audio session could not be activated
    | RecorderFailed   // AVAudioRecorder(url:settings:) threw
    | RecordFailed     // the recorder exists but record() returned false
    | Recording        // record() returned true

  predicate IsPlaceholder(n: Note) {
    n.title == Processing && n.transcription == Processing && n.summary == Processing && n.category == Processing
  }

  predicate IsFailed(n: Note) {
    n.title == ErrorTitle && n.transcription == ErrorTitle && n.summary == ErrorMark && n.category == ErrorMark
  }

  /** `prefix(k)`: the first k characters, or all of them when there are fewer. */
  function Prefix(s: string, k: nat): (p: string)
    ensures |p| == if |s| < k then |s| else k
    ensures p <= s
  {
    if |s| <= k then s else s[..k]
  }

  /** The title an enriched note gets: "Note: ", at most 30 characters of the summary, "...". */
  function EnrichedTitle(summary: string): (t: string)
    ensures |t| <= 39 && |t| == 9 + |Prefix(summary, 30)|
    ensures t[..6] == "Note: " && t[|t| - 3..] == "..."
    ensures t[6..|t| - 3] <= summary
  {
    var p := Prefix(summary, 30);
    assert ("Note: " + p + "...")[6..6 + |p|] == p;
    "Note: " + p + "..."
  }

  /** The note `processRecording` creates: every text field a placeholder. */
  function Placeholder(id: NoteId, path: string, now: Timestamp): (n: Note)
    ensures IsPlaceholder(n) && n.id == id && n.audioURLString == path && n.timestamp == now
  {
    Note(id, Processing, path, Processing, Processing, Processing, now)
  }

  /**
   * The note as the completed enrichment task writes it back: on success
   * the service's transcription, summary and category and a title made from
   * the summary; on failure the error markers. The four fields change
   * together; id, path and timestamp do not change.
   */
  function Completed(n: Note, outcome: Result<Enrichment>): (r: Note)
    ensures r.id == n.id && r.audioURLString == n.audioURLString && r.timestamp == n.timestamp
    ensures outcome.Ok? ==>
              r.transcription == outcome.value.transcription && r.summary == outcome.value.summary
              && r.category == outcome.value.category && r.title == EnrichedTitle(outcome.value.summary)
    ensures outcome.Err? ==> IsFailed(r)
  {
    match outcome
    case Ok(e) => WithContent(n, EnrichedTitle(e.summary), e.transcription, e.summary, e.category)
    case Err(_) => WithContent(n, ErrorTitle, ErrorTitle, ErrorMark, ErrorMark)
  }

  // ---------------------------------------------------------------------
  // The filter of saveRecordings

  /**
   * The filter's test: the note's `audioURL` names an existing file. That is
   * the parsed URL's path when the string parses as a file URL, and the
   * string itself taken as a path otherwise.
   */
  function HasAudio(n: Note, files: Files, parse: string -> Option<URL>): (ok: bool)
    ensures ok <==> (if parse(n.audioURLString).Some? && parse(n.audioURLString).value.IsFileURL()
                     then parse(n.audioURLString).value.path else n.audioURLString) in files.existing
  {
    match AudioURL(n, parse)
    case Some(url) => url.path in files.existing
    case None => false
  }

  /** `recordings.filter { ... }`: the notes whose audio file exists, in their order. */
  function KeepExisting(rs: seq<Note>, files: Files, parse: string -> Option<URL>): (r: seq<Note>)
    ensures |r| <= |rs|
    ensures forall n :: n in r <==> n in rs && HasAudio(n, files, parse)
  {
    if rs == [] then []
    else (if HasAudio(rs[0], files, parse) then [rs[0]] else []) + KeepExisting(rs[1..], files, parse)
  }

  /** The filter works note by note, so it keeps the catalog's order. */
  lemma {:induction false} KeepConcat(a: seq<Note>, b: seq<Note>, files: Files, parse: string -> Option<URL>)
    ensures KeepExisting(a + b, files, parse) == KeepExisting(a, files, parse) + KeepExisting(b, files, parse)
  {
    if a != [] {
      assert (a + b)[0] == a[0] && (a + b)[1..] == a[1..] + b;
      KeepConcat(a[1..], b, files, parse);
    } else {
      assert a + b == b;
    }
  }

  /** A catalog whose files all exist passes the filter unchanged. */
  lemma {:induction false} KeepAll(rs: seq<Note>, files: Files, parse: string -> Option<URL>)
    requires forall n :: n in rs ==> HasAudio(n, files, parse)
    ensures KeepExisting(rs, files, parse) == rs
  {
    if rs != [] {
      KeepAll(rs[1..], files, parse);
    }
  }

  /** Filtering twice against the same files is filtering once. */
  lemma KeepIdempotent(rs: seq<Note>, files: Files, parse: string -> Option<URL>)
    ensures KeepExisting(KeepExisting(rs, files, parse), files, parse) == KeepExisting(rs, files, parse)
  {
    KeepAll(KeepExisting(rs, files, parse), files, parse);
  }

  lemma {:induction false} KeepIds(rs: seq<Note>, files: Files, parse: string -> Option<URL>)
    ensures Ids(KeepExisting(rs, files, parse)) <= Ids(rs)
    ensures UniqueIds(rs) ==> UniqueIds(KeepExisting(rs, files, parse))
  {
    if rs != [] {
      var rest := KeepExisting(rs[1..], files, parse);
      KeepIds(rs[1..], files, parse);
      if UniqueIds(rs) {
        assert UniqueIds(rs[1..]);
        assert rs[0].id !in Ids(rs[1..]);
        if HasAudio(rs[0], files, parse) {
          UniqueCons(rs[0], rest);
        }
      }
    }
  }

  lemma UniqueCons(n: Note, rs: seq<Note>)
    requires n.id !in Ids(rs) && UniqueIds(rs)
    ensures UniqueIds([n] + rs)
  {
    var s := [n] + rs;
    forall i, j | 0 <= i < j < |s| ensures s[i].id != s[j].id {
      if i == 0 {
        assert s[j] == rs[j - 1];
      } else {
        assert s[i] == rs[i - 1] && s[j] == rs[j - 1];
      }
    }
  }

  lemma UniqueSnoc(rs: seq<Note>, n: Note)
    requires n.id !in Ids(rs) && UniqueIds(rs)
    ensures UniqueIds(rs + [n])
  {
    var s := rs + [n];
    forall i, j | 0 <= i < j < |s| ensures s[i].id != s[j].id {
      if j == |rs| {
        assert s[i] in rs;
      }
    }
  }

  lemma ReplaceKeepsIds(rs: seq<Note>, i: nat, n: Note)
    requires i < |rs| && n.id == rs[i].id
    ensures Ids(rs[i := n]) == Ids(rs)
    ensures UniqueIds(rs) ==> UniqueIds(rs[i := n])
  {
    var s := rs[i := n];
    forall id | id in Ids(rs) ensures id in Ids(s) {
      var k :| 0 <= k < |rs| && rs[k].id == id;
      assert s[k].id == id;
    }
    forall id | id in Ids(s) ensures id in Ids(rs) {
      var k :| 0 <= k < |s| && s[k].id == id;
      assert rs[k].id == id;
    }
  }

  /** A note of the catalog after one position is replaced is the new note or was there before. */
  lemma ReplaceKeepsOthers(rs: seq<Note>, i: nat, n: Note)
    requires i < |rs|
    ensures forall m :: m in rs[i := n] ==> m == n || m in rs
  {
    forall m | m in rs[i := n] ensures m == n || m in rs {
      var k :| 0 <= k < |rs[i := n]| && rs[i := n][k] == m;
      if k != i {
        assert rs[k] == m;
      }
    }
  }

  class AudioRecorder {
    /** The catalog. */
    var recordings: seq<Note>
    var isRecording: bool
    /** `audioRecorder?.url`: where the last recorder that was created writes. */
    var recorderURL: Option<URL>
    const storage: NotesStorage
    /** `URL(string:)`. */
    const parse: string -> Option<URL>
    /**
     * The ids of the notes whose enrichment task `processRecording` has
     * started and which have not completed yet: each task completes once.
     */
    ghost var pending: set<NoteId>

    /** A catalog note whose task is still running has not been completed. */
    ghost predicate PendingArePlaceholders()
      reads this
    {
      forall n :: n in recordings && n.id in pending ==> IsPlaceholder(n)
    }

    /** `init`: the catalog starts as whatever `loadNotes` returns. */
    constructor (storage: NotesStorage, parse: string -> Option<URL>)
      ensures this.storage == storage && this.parse == parse
      ensures recordings == Loaded(storage.defaults, storage.decode)
      ensures !isRecording && recorderURL == None
      ensures pending == {}
    {
      this.storage := storage;
      this.parse := parse;
      recordings := [];
      isRecording := false;
      recorderURL := None;
      pending := {};
      new;
      recordings := storage.LoadNotes();
    }

    /**
     * `startRecording`: nothing happens while a recording is in progress;
     * otherwise the recorder is created for `path` unless the session or the
     * recorder fails, and the flag is set only if recording really started.
     */
    method StartRecording(device: DeviceOutcome, path: string)
      modifies this
      ensures recordings == old(recordings)
      ensures old(isRecording) ==> isRecording && recorderURL == old(recorderURL)
      ensures !old(isRecording) ==> isRecording == device.Recording?
      ensures !old(isRecording) && (device.RecordFailed? || device.Recording?) ==>
                recorderURL == Some(FileURLWithPath(path))
      ensures !old(isRecording) && (device.SessionFailed? || device.RecorderFailed?) ==>
                recorderURL == old(recorderURL)
      ensures pending == old(pending)
    {
      if isRecording {
        return;
      }
      if device.SessionFailed? || device.RecorderFailed? {
        return;
      }
      recorderURL := Some(FileURLWithPath(path));
      if device.Recording? {
        isRecording := true;
      }
    }

    /** `saveRecordings`: drop the notes whose audio file is gone, then persist the catalog. */
    method SaveRecordings(files: Files)
      modifies this, storage
      ensures recordings == KeepExisting(old(recordings), files, parse)
      ensures storage.defaults == Saved(old(storage.defaults), recordings, storage.encode)
      ensures isRecording == old(isRecording) && recorderURL == old(recorderURL)
      ensures Ids(recordings) <= Ids(old(recordings))
      ensures UniqueIds(old(recordings)) ==> UniqueIds(recordings)
      ensures pending == old(pending)
      ensures old(PendingArePlaceholders()) ==> PendingArePlaceholders()
    {
      KeepIds(recordings, files, parse);
      recordings := KeepExisting(recordings, files, parse);
      storage.SaveNotes(recordings);
    }

    /**
     * `processRecording`: without a recorder URL, or when its file is missing
     * or unreadable, nothing changes; otherwise one placeholder note for that
     * file is appended and the catalog saved. The new note is returned: it is
     * what the enrichment task will complete.
     */
    method ProcessRecording(files: Files, id: NoteId, now: Timestamp) returns (note: Option<Note>)
      modifies this, storage
      ensures isRecording == old(isRecording) && recorderURL == old(recorderURL)
      ensures recorderURL.None? || recorderURL.value.path !in files.existing
              || recorderURL.value.path !in files.readable ==>
                note == None && recordings == old(recordings) && storage.defaults == old(storage.defaults)
      ensures recorderURL.Some? && recorderURL.value.path in files.existing
              && recorderURL.value.path in files.readable ==>
                note == Some(Placeholder(id, recorderURL.value.path, now))
                && recordings == KeepExisting(old(recordings) + [note.value], files, parse)
                && storage.defaults == Saved(old(storage.defaults), recordings, storage.encode)
      ensures UniqueIds(old(recordings)) && id !in Ids(old(recordings)) ==> UniqueIds(recordings)
      ensures note.None? ==> pending == old(pending)
      ensures note.Some? ==> pending == old(pending) + {id}
      ensures old(PendingArePlaceholders()) && id !in Ids(old(recordings)) ==> PendingArePlaceholders()
    {
      if recorderURL.None? {
        return None;
      }
      var url := recorderURL.value;
      if url.path !in files.existing || url.path !in files.readable {
        return None;
      }
      note := Some(Placeholder(id, url.path, now));
      if UniqueIds(recordings) && id !in Ids(recordings) {
        UniqueSnoc(recordings, note.value);
      }
      recordings := recordings + [note.value];
      pending := pending + {id};
      SaveRecordings(files);
    }

    /**
     * `stopRecording`: nothing happens unless recording; otherwise the flag
     * is cleared before the recording is processed.
     */
    method StopRecording(files: Files, id: NoteId, now: Timestamp) returns (note: Option<Note>)
      modifies this, storage
      ensures !old(isRecording) ==>
                note == None && recordings == old(recordings) && recorderURL == old(recorderURL)
                && !isRecording && storage.defaults == old(storage.defaults)
      ensures old(isRecording) ==> !isRecording && recorderURL == old(recorderURL)
      ensures old(isRecording) && (recorderURL.None? || recorderURL.value.path !in files.existing
              || recorderURL.value.path !in files.readable) ==>
                note == None && recordings == old(recordings) && storage.defaults == old(storage.defaults)
      ensures old(isRecording) && recorderURL.Some? && recorderURL.value.path in files.existing
              && recorderURL.value.path in files.readable ==>
                note == Some(Placeholder(id, recorderURL.value.path, now))
                && recordings == KeepExisting(old(recordings) + [note.value], files, parse)
                && storage.defaults == Saved(old(storage.defaults), recordings, storage.encode)
      ensures UniqueIds(old(recordings)) && id !in Ids(old(recordings)) ==> UniqueIds(recordings)
      ensures note.None? ==> pending == old(pending)
      ensures note.Some? ==> pending == old(pending) + {id}
      ensures old(PendingArePlaceholders()) && id !in Ids(old(recordings)) ==> PendingArePlaceholders()
    {
      if !isRecording {
        return None;
      }
      isRecording := false;
      note := ProcessRecording(files, id, now);
    }

    /**
     * The completion of the enrichment task for note `id`: if the note is
     * still in the catalog, its four text fields are replaced at once by the
     * outcome and the catalog saved; if it was deleted meanwhile, nothing
     * changes and nothing is saved, so the note never comes back.
     */
    method CompleteEnrichment(id: NoteId, outcome: Result<Enrichment>, files: Files)
      requires id in pending
      modifies this, storage
      ensures isRecording == old(isRecording) && recorderURL == old(recorderURL)
      ensures id !in Ids(old(recordings)) ==>
                recordings == old(recordings) && storage.defaults == old(storage.defaults)
      ensures id in Ids(old(recordings)) ==>
                var i := IndexOf(old(recordings), id).value;
                recordings == KeepExisting(old(recordings)[i := Completed(old(recordings)[i], outcome)], files, parse)
                && storage.defaults == Saved(old(storage.defaults), recordings, storage.encode)
      ensures Ids(recordings) <= Ids(old(recordings))
      ensures UniqueIds(old(recordings)) ==> UniqueIds(recordings)
      ensures pending == old(pending) - {id}
      ensures old(PendingArePlaceholders()) && id in Ids(old(recordings)) ==>
                IsPlaceholder(old(recordings)[IndexOf(old(recordings), id).value])
      ensures old(PendingArePlaceholders()) ==> PendingArePlaceholders()
    {
      var index := FirstIndex(recordings, id);
      pending := pending - {id};
      if index.Some? {
        var i := index.value;
        var updated := Completed(recordings[i], outcome);
        ReplaceKeepsIds(recordings, i, updated);
        ReplaceKeepsOthers(recordings, i, updated);
        recordings := recordings[i := updated];
        SaveRecordings(files);
      }
    }
  }

  /**
   * When the recording's file is still there and no other file vanished,
   * `processRecording` grows the catalog by exactly its placeholder, at the end.
   */
  lemma PlaceholderAppended(rs: seq<Note>, note: Note, files: Files, parse: string -> Option<URL>)
    requires forall n :: n in rs ==> HasAudio(n, files, parse)
    requires HasAudio(note, files, parse)
    ensures KeepExisting(rs + [note], files, parse) == rs + [note]
  {
    KeepAll(rs + [note], files, parse);
  }

  /**
   * Completion always takes a note out of the processing state: its title
   * becomes "Note: ..." or the error title, never "Processing...".
   */
  lemma CompletionLeavesProcessing(n: Note, outcome: Result<Enrichment>)
    ensures !IsPlaceholder(Completed(n, outcome))
  {
    var r := Completed(n, outcome);
    if outcome.Ok? {
      assert r.title[..6] == "Note: ";
      assert Processing[..6] == "Proces";
    }
  }
}
