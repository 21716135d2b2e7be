/**
 * The `Note` record (voice-memo-app/Models/Note.swift): three `let` fields
 * fixed at construction, four `var` fields that enrichment rewrites, the
 * keyed form the synthesised `Codable` conformance writes, the `audioURL`
 * accessor, and the `firstIndex(where: { $0.id == id })` lookup that every
 * catalog update goes through.
 */
module NoteModel {
  import opened Wrappers

  /** A `UUID`: opaque, only compared for equality. */
  datatype NoteId = NoteId(uuid: nat)

  /** A `Date`, as an integer instant. */
  type Timestamp = int

  datatype Note = Note(
    id: NoteId,
    title: string,
    audioURLString: string,
    transcription: string,
    summary: string,
    category: string,
    timestamp: Timestamp)

  /**
   * The only way a note changes after `init`: the four `var` fields are
   * replaced; `id`, `audioURLString` and `timestamp` are `let` and keep their values.
   */
  function WithContent(n: Note, title: string, transcription: string, summary: string, category: string): (r: Note)
    ensures r.id == n.id && r.audioURLString == n.audioURLString && r.timestamp == n.timestamp
    ensures r.title == title && r.transcription == transcription
    ensures r.summary == summary && r.category == category
  {
    n.(title := title, transcription := transcription, summary := summary, category := category)
  }

  // ---------------------------------------------------------------------
  // Codable with explicit CodingKeys

  /** The `CodingKeys` enum: one case per stored property, named by its raw value. */
  datatype CodingKey = IdKey | TitleKey | AudioURLStringKey | TranscriptionKey | SummaryKey | CategoryKey | TimestampKey
  {
    /** The key's name in the encoded form. */
    function RawValue(): string {
      match this
      case IdKey => "id"
      case TitleKey => "title"
      case AudioURLStringKey => "audioURLString"
      case TranscriptionKey => "transcription"
      case SummaryKey => "summary"
      case CategoryKey => "category"
      case TimestampKey => "timestamp"
    }
  }

  /** Every case of the enum. */
  const AllKeys: set<CodingKey> :=
    {IdKey, TitleKey, AudioURLStringKey, TranscriptionKey, SummaryKey, CategoryKey, TimestampKey}

  lemma KeyListed(k: CodingKey)
    ensures k in AllKeys
  {
  }

  /** A value in the keyed container: a string, a UUID or a date. */
  datatype Value = Text(text: string) | Uuid(uuid: NoteId) | Instant(instant: Timestamp)

  /** The keyed container that the synthesised `encode(to:)` fills: every key, each with its field. */
  function Encode(n: Note): (m: map<CodingKey, Value>)
    ensures m.Keys == AllKeys
    ensures m[IdKey] == Uuid(n.id) && m[TimestampKey] == Instant(n.timestamp)
    ensures m[TitleKey] == Text(n.title) && m[AudioURLStringKey] == Text(n.audioURLString)
    ensures m[TranscriptionKey] == Text(n.transcription) && m[SummaryKey] == Text(n.summary)
    ensures m[CategoryKey] == Text(n.category)
  {
    map[IdKey := Uuid(n.id), TitleKey := Text(n.title), AudioURLStringKey := Text(n.audioURLString),
        TranscriptionKey := Text(n.transcription), SummaryKey := Text(n.summary),
        CategoryKey := Text(n.category), TimestampKey := Instant(n.timestamp)]
  }

  function TextAt(m: map<CodingKey, Value>, k: CodingKey): Option<string> {
    if k in m && m[k].Text? then Some(m[k].text) else None
  }

  /**
   * The synthesised `init(from:)`: every key must be present with a value
   * of the right kind, otherwise decoding fails. Names in the encoded form
   * that are no raw value of a key never reach the container.
   */
  function Decode(m: map<CodingKey, Value>): (r: Option<Note>)
    ensures r.Some? <==> AllKeys <= m.Keys && m[IdKey].Uuid? && m[TimestampKey].Instant?
                         && m[TitleKey].Text? && m[AudioURLStringKey].Text? && m[TranscriptionKey].Text?
                         && m[SummaryKey].Text? && m[CategoryKey].Text?
  {
    if IdKey in m && m[IdKey].Uuid? && TimestampKey in m && m[TimestampKey].Instant?
       && TextAt(m, TitleKey).Some? && TextAt(m, AudioURLStringKey).Some?
       && TextAt(m, TranscriptionKey).Some? && TextAt(m, SummaryKey).Some?
       && TextAt(m, CategoryKey).Some?
    then
      Some(Note(m[IdKey].uuid, TextAt(m, TitleKey).value, TextAt(m, AudioURLStringKey).value,
                TextAt(m, TranscriptionKey).value, TextAt(m, SummaryKey).value,
                TextAt(m, CategoryKey).value, m[TimestampKey].instant))
    else
      None
  }

  /** No two keys share a name, so the encoded form has one entry per stored property. */
  lemma RawValuesDistinct(k: CodingKey, l: CodingKey)
    ensures k.RawValue() == l.RawValue() ==> k == l
  {
    if k != l {
      assert k.RawValue()[0] != l.RawValue()[0] || k.RawValue()[1] != l.RawValue()[1]
          || |k.RawValue()| != |l.RawValue()|;
    }
  }

  /** Encoding a note and decoding the container gives the note back, field for field. */
  lemma DecodeEncode(n: Note)
    ensures Decode(Encode(n)) == Some(n)
  {
  }

  /** A container that decodes is exactly the one its note encodes to. */
  lemma EncodeDecode(m: map<CodingKey, Value>)
    requires Decode(m).Some?
    ensures Encode(Decode(m).value) == m
  {
    forall k | k in m
      ensures k in AllKeys
    {
      KeyListed(k);
    }
    assert m.Keys == AllKeys;
  }

  // ---------------------------------------------------------------------
  // audioURL

  /** A parsed URL: its scheme and its path. */
  datatype URL = URL(scheme: string, path: string) {
    predicate IsFileURL() { scheme == "file" }
  }

  /** `URL(fileURLWithPath:)`: a file URL for the path. */
  function FileURLWithPath(path: string): (u: URL)
    ensures u.IsFileURL() && u.path == path
  {
    URL("file", path)
  }

  /**
   * `audioURL`: the string parsed by `URL(string:)` (here the parameter
   * `parse`) when that gives a file URL, and otherwise the string taken as
   * a file path. The result is never nil.
   */
  function AudioURL(n: Note, parse: string -> Option<URL>): (r: Option<URL>)
    ensures r.Some? && r.value.IsFileURL()
    ensures parse(n.audioURLString).Some? && parse(n.audioURLString).value.IsFileURL() ==>
              r == parse(n.audioURLString)
    ensures !(parse(n.audioURLString).Some? && parse(n.audioURLString).value.IsFileURL()) ==>
              r.value.path == n.audioURLString
  {
    match parse(n.audioURLString)
    case Some(u) =>
      if u.IsFileURL() then Some(u) else Some(FileURLWithPath(n.audioURLString))
    case None => Some(FileURLWithPath(n.audioURLString))
  }

  // ---------------------------------------------------------------------
  // firstIndex(where: { $0.id == id })

  function Ids(rs: seq<Note>): set<NoteId> {
    set n | n in rs :: n.id
  }

  /** No two notes of the catalog share an id. */
  predicate UniqueIds(rs: seq<Note>) {
    forall i, j :: 0 <= i < j < |rs| ==> rs[i].id != rs[j].id
  }

  /** The position of the first note with the given id, if any. */
  function IndexOf(rs: seq<Note>, id: NoteId): (r: Option<nat>)
    ensures r.Some? ==> r.value < |rs| && rs[r.value].id == id
    ensures r.Some? ==> forall j :: 0 <= j < r.value ==> rs[j].id != id
    ensures r.None? <==> id !in Ids(rs)
  {
    if rs == [] then None
    else if rs[0].id == id then Some(0)
    else
      match IndexOf(rs[1..], id)
      case Some(i) => Some(i + 1)
      case None => None
  }

  /** `firstIndex(where:)` as the linear scan it is. */
  method FirstIndex(rs: seq<Note>, id: NoteId) returns (r: Option<nat>)
    ensures r == IndexOf(rs, id)
  {
    var i := 0;
    while i < |rs|
      invariant 0 <= i <= |rs|
      invariant forall j :: 0 <= j < i ==> rs[j].id != id
    {
      if rs[i].id == id {
        r := Some(i);
        IndexOfUnique(rs, id, i);
        return;
      }
      i := i + 1;
    }
    r := None;
    assert id !in Ids(rs);
  }

  /** The first matching position is determined by the two facts that define it. */
  lemma IndexOfUnique(rs: seq<Note>, id: NoteId, i: nat)
    requires i < |rs| && rs[i].id == id
    requires forall j :: 0 <= j < i ==> rs[j].id != id
    ensures IndexOf(rs, id) == Some(i)
  {
    var r := IndexOf(rs, id);
    assert id in Ids(rs);
    if r.value < i {
    } else if r.value > i {
    }
  }
}
