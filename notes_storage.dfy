/**
 * `NotesStorage` (voice-memo-app/Utils/NotesStorage.swift): the whole
 * catalog, encoded as one blob, kept under a fixed key of a key-value store
 * (`UserDefaults`). The JSON codec is a pair of functions given at
 * construction.
 */
module NotesStorage {
  import opened Wrappers
  import opened ByteData
  import opened NoteModel

  const StorageKey := "recorded_notes"

  /** The store after `saveNotes`: the key replaced when encoding succeeds, the store untouched otherwise. */
  function Saved(store: map<string, Bytes>, notes: seq<Note>, encode: seq<Note> -> Option<Bytes>): (r: map<string, Bytes>)
    ensures encode(notes).Some? ==> StorageKey in r && r[StorageKey] == encode(notes).value
    ensures encode(notes).None? ==> r == store
    ensures forall k :: k != StorageKey ==> (k in r <==> k in store) && (k in r ==> r[k] == store[k])
  {
    match encode(notes)
    case Some(blob) => store[StorageKey := blob]
    case None => store
  }

  /** What `loadNotes` returns: the decoded list, or [] when the key is missing or the blob does not decode. */
  function Loaded(store: map<string, Bytes>, decode: Bytes -> Option<seq<Note>>): (notes: seq<Note>)
    ensures StorageKey !in store ==> notes == []
    ensures StorageKey in store && decode(store[StorageKey]).None? ==> notes == []
    ensures StorageKey in store && decode(store[StorageKey]).Some? ==> notes == decode(store[StorageKey]).value
  {
    if StorageKey in store && decode(store[StorageKey]).Some? then decode(store[StorageKey]).value else []
  }

  /** With a codec that decodes what it encodes, a load after a save returns the saved list. */
  lemma LoadAfterSave(store: map<string, Bytes>, notes: seq<Note>,
                      encode: seq<Note> -> Option<Bytes>, decode: Bytes -> Option<seq<Note>>)
    requires encode(notes).Some? && decode(encode(notes).value) == Some(notes)
    ensures Loaded(Saved(store, notes, encode), decode) == notes
  {
  }

  /** A save whose encoding fails leaves what a later load sees unchanged. */
  lemma FailedSaveKeepsLoad(store: map<string, Bytes>, notes: seq<Note>,
                            encode: seq<Note> -> Option<Bytes>, decode: Bytes -> Option<seq<Note>>)
    requires encode(notes).None?
    ensures Loaded(Saved(store, notes, encode), decode) == Loaded(store, decode)
  {
  }

  /** Only the last successful save matters: saving twice is saving the second list. */
  lemma LastSaveWins(store: map<string, Bytes>, first: seq<Note>, second: seq<Note>,
                     encode: seq<Note> -> Option<Bytes>)
    requires encode(second).Some?
    ensures Saved(Saved(store, first, encode), second, encode) == Saved(store, second, encode)
  {
  }

  class NotesStorage {
    /** The key-value store. */
    var defaults: map<string, Bytes>
    const encode: seq<Note> -> Option<Bytes>
    const decode: Bytes -> Option<seq<Note>>

    constructor (defaults: map<string, Bytes>, encode: seq<Note> -> Option<Bytes>, decode: Bytes -> Option<seq<Note>>)
      ensures this.defaults == defaults && this.encode == encode && this.decode == decode
    {
      this.defaults := defaults;
      this.encode := encode;
      this.decode := decode;
    }

    /** `saveNotes`: overwrite the catalog blob if the list encodes; otherwise do nothing. */
    method SaveNotes(notes: seq<Note>)
      modifies this
      ensures defaults == Saved(old(defaults), notes, encode)
    {
      var encoded := encode(notes);
      if encoded.Some? {
        defaults := defaults[StorageKey := encoded.value];
      }
    }

    /** `loadNotes`: never fails; a missing or undecodable blob reads as no notes. */
    method LoadNotes() returns (notes: seq<Note>)
      ensures StorageKey !in defaults ==> notes == []
      ensures StorageKey in defaults && decode(defaults[StorageKey]).None? ==> notes == []
      ensures StorageKey in defaults && decode(defaults[StorageKey]).Some? ==>
                notes == decode(defaults[StorageKey]).value
    {
      if StorageKey in defaults {
        var decoded := decode(defaults[StorageKey]);
        if decoded.Some? {
          return decoded.value;
        }
      }
      return [];
    }
  }
}
