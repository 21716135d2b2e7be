/**
 * The notes list (voice-memo-app/Views/NotesListView.swift): the visible
 * list is the catalog newest first, optionally restricted to one category,
 * and swiping rows away deletes the chosen notes from the catalog by id and
 * saves it.
 */
module NotesListView {
  import opened Wrappers
  import opened NoteModel
  import opened NotesStorage
  import opened AudioRecorder

  // ---------------------------------------------------------------------
  // filteredRecordings

  /** Timestamps never increase from one row to the next. */
  predicate NewestFirst(s: seq<Note>) {
    forall i, j :: 0 <= i < j < |s| ==> s[i].timestamp >= s[j].timestamp
  }

  /** Place `n` in front of the first note that is not newer than it. */
  function InsertByTime(n: Note, s: seq<Note>): (r: seq<Note>)
    ensures multiset(r) == multiset(s) + multiset{n}
  {
    if s == [] then [n]
    else if n.timestamp >= s[0].timestamp then [n] + s
    else
      assert s == [s[0]] + s[1..];
      [s[0]] + InsertByTime(n, s[1..])
  }

  /** Inserting into a newest-first list keeps it newest first. */
  lemma {:induction false} InsertKeepsNewestFirst(n: Note, s: seq<Note>)
    requires NewestFirst(s)
    ensures NewestFirst(InsertByTime(n, s))
  {
    if s == [] {
    } else if n.timestamp >= s[0].timestamp {
      forall y | y in s ensures n.timestamp >= y.timestamp {
        var j :| 0 <= j < |s| && s[j] == y;
        assert s[0].timestamp >= s[j].timestamp;
      }
      NewestCons(n, s);
    } else {
      var rest := InsertByTime(n, s[1..]);
      InsertKeepsNewestFirst(n, s[1..]);
      forall x | x in rest ensures s[0].timestamp >= x.timestamp {
        assert x in multiset(rest);
        if x != n {
          assert x in multiset(s[1..]);
          var j :| 0 <= j < |s[1..]| && s[1..][j] == x;
          assert s[j + 1] == x;
        }
      }
      NewestCons(s[0], rest);
    }
  }

  /** A note no older than every note of a newest-first list can go in front of it. */
  lemma NewestCons(x: Note, s: seq<Note>)
    requires NewestFirst(s)
    requires forall y :: y in s ==> x.timestamp >= y.timestamp
    ensures NewestFirst([x] + s)
  {
    var r := [x] + s;
    forall i, j | 0 <= i < j < |r| ensures r[i].timestamp >= r[j].timestamp {
      if i == 0 {
        assert r[j] == s[j - 1];
      } else {
        assert r[i] == s[i - 1] && r[j] == s[j - 1];
      }
    }
  }

  /**
   * `sorted(by: { $0.timestamp > $1.timestamp })`. Swift's sort is stable:
   * notes with equal timestamps keep their catalog order (`SortIsStable`).
   */
  function SortNewestFirst(rs: seq<Note>): (r: seq<Note>)
    ensures NewestFirst(r)
    ensures multiset(r) == multiset(rs)
  {
    if rs == [] then []
    else
      assert rs == [rs[0]] + rs[1..];
      InsertKeepsNewestFirst(rs[0], SortNewestFirst(rs[1..]));
      InsertByTime(rs[0], SortNewestFirst(rs[1..]))
  }

  /** The notes with timestamp `t`, in their order. A stable sort leaves each of these runs as it was. */
  function AtTime(s: seq<Note>, t: Timestamp): seq<Note> {
    if s == [] then [] else (if s[0].timestamp == t then [s[0]] else []) + AtTime(s[1..], t)
  }

  lemma AtTimeCons(x: Note, s: seq<Note>, t: Timestamp)
    ensures AtTime([x] + s, t) == (if x.timestamp == t then [x] else []) + AtTime(s, t)
  {
    assert ([x] + s)[0] == x && ([x] + s)[1..] == s;
  }

  /** Inserting `n` puts it in front of every note with its timestamp, and moves no other note of that timestamp. */
  lemma {:induction false} InsertAtTime(n: Note, s: seq<Note>, t: Timestamp)
    ensures AtTime(InsertByTime(n, s), t) == (if n.timestamp == t then [n] else []) + AtTime(s, t)
  {
    if s == [] {
      AtTimeCons(n, [], t);
    } else if n.timestamp >= s[0].timestamp {
      AtTimeCons(n, s, t);
    } else {
      InsertAtTime(n, s[1..], t);
      OlderBehindHead(s[0], n, InsertByTime(n, s[1..]), s[1..], t);
      assert [s[0]] + s[1..] == s;
    }
  }

  /** A note older than `x` that sits somewhere behind `x` does not change where `x` falls among its timestamp. */
  lemma OlderBehindHead(x: Note, n: Note, rest: seq<Note>, tail: seq<Note>, t: Timestamp)
    requires n.timestamp < x.timestamp
    requires AtTime(rest, t) == (if n.timestamp == t then [n] else []) + AtTime(tail, t)
    ensures AtTime([x] + rest, t) == (if n.timestamp == t then [n] else []) + AtTime([x] + tail, t)
  {
    AtTimeCons(x, rest, t);
    AtTimeCons(x, tail, t);
  }

  /** The sort is stable: for every timestamp, the notes with that timestamp come out in their catalog order. */
  lemma {:induction false} SortIsStable(rs: seq<Note>, t: Timestamp)
    ensures AtTime(SortNewestFirst(rs), t) == AtTime(rs, t)
  {
    if rs != [] {
      SortIsStable(rs[1..], t);
      InsertAtTime(rs[0], SortNewestFirst(rs[1..]), t);
    }
  }

  /** `filter { $0.category == category }`. */
  function WithCategory(s: seq<Note>, c: string): (r: seq<Note>)
    ensures forall n :: multiset(r)[n] == if n.category == c then multiset(s)[n] else 0
  {
    if s == [] then []
    else
      var rest := WithCategory(s[1..], c);
      assert s == [s[0]] + s[1..];
      assert multiset(s) == multiset{s[0]} + multiset(s[1..]);
      if s[0].category == c then
        assert multiset([s[0]] + rest) == multiset{s[0]} + multiset(rest);
        [s[0]] + rest
      else rest
  }

  /** The filter works note by note, so the kept notes stay in their order. */
  lemma {:induction false} WithCategoryConcat(a: seq<Note>, b: seq<Note>, c: string)
    ensures WithCategory(a + b, c) == WithCategory(a, c) + WithCategory(b, c)
  {
    if a == [] {
      assert a + b == b;
    } else {
      assert (a + b)[0] == a[0] && (a + b)[1..] == a[1..] + b;
      WithCategoryConcat(a[1..], b, c);
    }
  }

  /** Keeping one category and keeping one timestamp can be done in either order. */
  lemma {:induction false} AtTimeWithCategory(s: seq<Note>, c: string, t: Timestamp)
    ensures AtTime(WithCategory(s, c), t) == WithCategory(AtTime(s, t), c)
  {
    if s != [] {
      var x := s[0];
      var rest := WithCategory(s[1..], c);
      AtTimeWithCategory(s[1..], c, t);
      if x.category == c {
        AtTimeCons(x, rest, t);
      }
      var kept := if x.timestamp == t then [x] else [];
      WithCategoryConcat(kept, AtTime(s[1..], t), c);
      if x.timestamp == t {
        assert [x][1..] == [];
      }
    }
  }

  /** Filtering keeps the newest-first order. */
  lemma {:induction false} WithCategoryNewestFirst(s: seq<Note>, c: string)
    requires NewestFirst(s)
    ensures NewestFirst(WithCategory(s, c))
  {
    if s != [] {
      var rest := WithCategory(s[1..], c);
      WithCategoryNewestFirst(s[1..], c);
      if s[0].category == c {
        forall x | x in rest ensures s[0].timestamp >= x.timestamp {
          assert multiset(rest)[x] > 0;
          assert x in multiset(s[1..]);
          var j :| 0 <= j < |s[1..]| && s[1..][j] == x;
          assert s[j + 1] == x;
        }
        NewestCons(s[0], rest);
      }
    }
  }

  /**
   * `filteredRecordings`: every note of the catalog, or every note of the
   * chosen category, each as often as in the catalog, newest first.
   */
  function FilteredRecordings(rs: seq<Note>, filterCategory: Option<string>): (r: seq<Note>)
    ensures NewestFirst(r)
    ensures filterCategory.None? ==> multiset(r) == multiset(rs)
    ensures filterCategory.Some? ==>
              forall n :: multiset(r)[n] == if n.category == filterCategory.value then multiset(rs)[n] else 0
  {
    var sorted := SortNewestFirst(rs);
    match filterCategory
    case Some(category) =>
      WithCategoryNewestFirst(sorted, category);
      WithCategory(sorted, category)
    case None => sorted
  }

  /**
   * The list is the stable newest-first order of the shown notes: for every
   * timestamp, the listed notes with that timestamp are exactly the shown
   * notes with it, in catalog order. Swipe offsets therefore name
   * determined notes even among equal timestamps.
   */
  lemma FilteredIsStable(rs: seq<Note>, filterCategory: Option<string>, t: Timestamp)
    ensures filterCategory.None? ==> AtTime(FilteredRecordings(rs, filterCategory), t) == AtTime(rs, t)
    ensures filterCategory.Some? ==>
              AtTime(FilteredRecordings(rs, filterCategory), t) == AtTime(WithCategory(rs, filterCategory.value), t)
  {
    var sorted := SortNewestFirst(rs);
    SortIsStable(rs, t);
    if filterCategory.Some? {
      var c := filterCategory.value;
      AtTimeWithCategory(sorted, c, t);
      AtTimeWithCategory(rs, c, t);
    }
  }

  /** Only notes of the chosen category are listed, and the list shows no note the catalog lacks. */
  lemma FilteredFromCatalog(rs: seq<Note>, filterCategory: Option<string>, n: Note)
    requires n in FilteredRecordings(rs, filterCategory)
    ensures n in rs
    ensures filterCategory.Some? ==> n.category == filterCategory.value
  {
    var r := FilteredRecordings(rs, filterCategory);
    assert multiset(r)[n] > 0;
  }

  // ---------------------------------------------------------------------
  // deleteNotes

  /** `recordings.remove(at: firstIndex(where: { $0.id == id }))`, or nothing when no note has that id. */
  function RemoveFirst(rs: seq<Note>, id: NoteId): (r: seq<Note>)
    ensures IndexOf(rs, id).None? ==> r == rs
    ensures IndexOf(rs, id).Some? ==>
              var i := IndexOf(rs, id).value;
              r == rs[..i] + rs[i + 1..]
  {
    if rs == [] then []
    else if rs[0].id == id then rs[1..]
    else
      var rest := RemoveFirst(rs[1..], id);
      RemoveBehindHead(rs, id, rest);
      [rs[0]] + rest
  }

  /** When the head is kept, removing from the tail and putting the head back is removing from the whole. */
  lemma RemoveBehindHead(rs: seq<Note>, id: NoteId, rest: seq<Note>)
    requires rs != [] && rs[0].id != id
    requires IndexOf(rs[1..], id).None? ==> rest == rs[1..]
    requires IndexOf(rs[1..], id).Some? ==>
               var j := IndexOf(rs[1..], id).value;
               rest == rs[1..][..j] + rs[1..][j + 1..]
    ensures IndexOf(rs, id).None? ==> [rs[0]] + rest == rs
    ensures IndexOf(rs, id).Some? ==>
              var i := IndexOf(rs, id).value;
              [rs[0]] + rest == rs[..i] + rs[i + 1..]
  {
    assert rs == [rs[0]] + rs[1..];
    match IndexOf(rs[1..], id)
    case None =>
    case Some(j) =>
      ConsSplice(rs[0], rs[1..], j);
  }

  /** Cutting position j + 1 out of `[x] + s` is putting `x` in front of `s` with position j cut out. */
  lemma ConsSplice<T>(x: T, s: seq<T>, j: nat)
    requires j < |s|
    ensures [x] + (s[..j] + s[j + 1..]) == ([x] + s)[..j + 1] + ([x] + s)[j + 2..]
  {
    assert ([x] + s)[..j + 1] == [x] + s[..j];
    assert ([x] + s)[j + 2..] == s[j + 1..];
  }

  /** Removing a note never introduces an id, so unique ids stay unique. */
  lemma {:induction false} RemoveFirstKeepsUnique(rs: seq<Note>, id: NoteId)
    ensures forall n :: n in RemoveFirst(rs, id) ==> n in rs
    ensures Ids(RemoveFirst(rs, id)) <= Ids(rs)
    ensures UniqueIds(rs) ==> UniqueIds(RemoveFirst(rs, id))
  {
    if rs != [] {
      assert rs == [rs[0]] + rs[1..];
      var tail := rs[1..];
      assert UniqueIds(rs) ==> UniqueIds(tail);
      if rs[0].id != id {
        RemoveFirstKeepsUnique(tail, id);
        var rest := RemoveFirst(tail, id);
        if UniqueIds(rs) {
          assert rs[0].id !in Ids(tail);
          UniqueCons(rs[0], rest);
        }
      }
    }
  }

  /**
   * The body of the `for note in notesToDelete` loop, note after note. It
   * only ever takes notes away, so it adds no id and keeps ids unique.
   */
  function RemoveEach(rs: seq<Note>, notes: seq<Note>): (r: seq<Note>)
    ensures |r| <= |rs|
    ensures forall n :: n in r ==> n in rs
    ensures Ids(r) <= Ids(rs)
    ensures UniqueIds(rs) ==> UniqueIds(r)
  {
    if notes == [] then rs
    else
      RemoveFirstKeepsUnique(rs, notes[0].id);
      RemoveEach(RemoveFirst(rs, notes[0].id), notes[1..])
  }

  /** `offsets.map { filteredRecordings[$0] }`: one visible note per swiped offset. */
  function Selected(view: seq<Note>, offsets: seq<nat>): (r: seq<Note>)
    requires forall i :: 0 <= i < |offsets| ==> offsets[i] < |view|
    ensures |r| == |offsets|
    ensures forall n :: n in r ==> n in view
  {
    seq(|offsets|, i requires 0 <= i < |offsets| => view[offsets[i]])
  }

  /** The catalog without the notes whose id is in `ids`, the others in their order. */
  function WithoutIds(rs: seq<Note>, ids: set<NoteId>): (r: seq<Note>)
    ensures forall n :: n in r <==> n in rs && n.id !in ids
    ensures |r| <= |rs|
  {
    if rs == [] then []
    else
      assert rs == [rs[0]] + rs[1..];
      if rs[0].id in ids then WithoutIds(rs[1..], ids) else [rs[0]] + WithoutIds(rs[1..], ids)
  }

  lemma IdsCons(notes: seq<Note>)
    requires notes != []
    ensures Ids(notes) == {notes[0].id} + Ids(notes[1..])
  {
    assert notes == [notes[0]] + notes[1..];
  }

  lemma {:induction false} WithoutNothing(rs: seq<Note>, ids: set<NoteId>)
    requires forall n :: n in rs ==> n.id !in ids
    ensures WithoutIds(rs, ids) == rs
  {
    if rs != [] {
      WithoutNothing(rs[1..], ids);
    }
  }

  lemma {:induction false} WithoutTwice(rs: seq<Note>, a: set<NoteId>, b: set<NoteId>)
    ensures WithoutIds(WithoutIds(rs, a), b) == WithoutIds(rs, a + b)
  {
    if rs != [] {
      WithoutTwice(rs[1..], a, b);
    }
  }

  lemma {:induction false} RemoveFirstIsWithout(rs: seq<Note>, id: NoteId)
    requires UniqueIds(rs)
    ensures RemoveFirst(rs, id) == WithoutIds(rs, {id})
  {
    if rs != [] {
      if rs[0].id == id {
        assert forall n :: n in rs[1..] ==> n.id != id;
        WithoutNothing(rs[1..], {id});
      } else {
        RemoveFirstIsWithout(rs[1..], id);
      }
    }
  }

  /**
   * Because catalog ids are unique, deleting the chosen notes one at a time
   * by first matching id removes exactly the notes with those ids, whatever
   * the order of the deletions, and keeps every other note in its place
   * relative to the others.
   */
  lemma {:induction false} RemoveEachIsWithout(rs: seq<Note>, notes: seq<Note>)
    requires UniqueIds(rs)
    ensures RemoveEach(rs, notes) == WithoutIds(rs, Ids(notes))
  {
    if notes == [] {
      assert Ids(notes) == {};
      WithoutNothing(rs, {});
    } else {
      var id := notes[0].id;
      var later := Ids(notes[1..]);
      RemoveFirstKeepsUnique(rs, id);
      calc {
        RemoveEach(rs, notes);
        RemoveEach(RemoveFirst(rs, id), notes[1..]);
        { RemoveEachIsWithout(RemoveFirst(rs, id), notes[1..]); }
        WithoutIds(RemoveFirst(rs, id), later);
        { RemoveFirstIsWithout(rs, id); }
        WithoutIds(WithoutIds(rs, {id}), later);
        { WithoutTwice(rs, {id}, later); }
        WithoutIds(rs, {id} + later);
        { IdsCons(notes); }
        WithoutIds(rs, Ids(notes));
      }
    }
  }

  /** The `for note in notesToDelete` loop: each note's first id match, if any, is removed in place. */
  method RemoveNotes(recorder: AudioRecorder, notesToDelete: seq<Note>)
    modifies recorder
    ensures recorder.recordings == RemoveEach(old(recorder.recordings), notesToDelete)
    ensures recorder.isRecording == old(recorder.isRecording)
    ensures recorder.recorderURL == old(recorder.recorderURL)
    ensures recorder.pending == old(recorder.pending)
  {
    var k := 0;
    while k < |notesToDelete|
      invariant 0 <= k <= |notesToDelete|
      invariant RemoveEach(recorder.recordings, notesToDelete[k..]) == RemoveEach(old(recorder.recordings), notesToDelete)
      invariant recorder.isRecording == old(recorder.isRecording)
      invariant recorder.recorderURL == old(recorder.recorderURL)
      invariant recorder.pending == old(recorder.pending)
    {
      ghost var before := recorder.recordings;
      var id := notesToDelete[k].id;
      var index := FirstIndex(recorder.recordings, id);
      if index.Some? {
        recorder.recordings := recorder.recordings[..index.value] + recorder.recordings[index.value + 1..];
      }
      RemoveEachStep(before, notesToDelete, k, index, recorder.recordings);
      k := k + 1;
    }
    assert notesToDelete[k..] == [];
  }

  /** One turn of the deletion loop: the note's first occurrence, when found, is spliced out. */
  lemma RemoveEachStep(rs: seq<Note>, notes: seq<Note>, k: nat, index: Option<nat>, after: seq<Note>)
    requires k < |notes|
    requires index == IndexOf(rs, notes[k].id)
    requires index.Some? ==> after == rs[..index.value] + rs[index.value + 1..]
    requires index.None? ==> after == rs
    ensures RemoveEach(rs, notes[k..]) == RemoveEach(after, notes[k + 1..])
  {
    SpliceIsRemoveFirst(rs, notes[k].id, index, after);
    RemoveEachUnfold(rs, notes, k);
  }

  lemma SpliceIsRemoveFirst(rs: seq<Note>, id: NoteId, index: Option<nat>, after: seq<Note>)
    requires index == IndexOf(rs, id)
    requires index.Some? ==> after == rs[..index.value] + rs[index.value + 1..]
    requires index.None? ==> after == rs
    ensures after == RemoveFirst(rs, id)
  {
  }

  lemma RemoveEachUnfold(rs: seq<Note>, notes: seq<Note>, k: nat)
    requires k < |notes|
    ensures RemoveEach(rs, notes[k..]) == RemoveEach(RemoveFirst(rs, notes[k].id), notes[k + 1..])
  {
    assert notes[k..][0] == notes[k] && notes[k..][1..] == notes[k + 1..];
  }

  /**
   * `deleteNotes(at:)`: the notes at the swiped rows of the visible list are
   * removed from the catalog by id, and the catalog is saved; nothing else of
   * the recorder changes.
   */
  method DeleteNotes(recorder: AudioRecorder, filterCategory: Option<string>, offsets: seq<nat>)
    requires forall i :: 0 <= i < |offsets| ==>
               offsets[i] < |FilteredRecordings(recorder.recordings, filterCategory)|
    modifies recorder, recorder.storage
    ensures recorder.recordings ==
              RemoveEach(old(recorder.recordings),
                         Selected(FilteredRecordings(old(recorder.recordings), filterCategory), offsets))
    ensures UniqueIds(old(recorder.recordings)) ==>
              recorder.recordings ==
                WithoutIds(old(recorder.recordings),
                           Ids(Selected(FilteredRecordings(old(recorder.recordings), filterCategory), offsets)))
    ensures recorder.storage.defaults ==
              Saved(old(recorder.storage.defaults), recorder.recordings, recorder.storage.encode)
    ensures recorder.isRecording == old(recorder.isRecording)
    ensures recorder.recorderURL == old(recorder.recorderURL)
    ensures UniqueIds(old(recorder.recordings)) ==> UniqueIds(recorder.recordings)
    ensures recorder.pending == old(recorder.pending)
    ensures old(recorder.PendingArePlaceholders()) ==> recorder.PendingArePlaceholders()
  {
    var view := FilteredRecordings(recorder.recordings, filterCategory);
    var notesToDelete := Selected(view, offsets);
    RemoveNotes(recorder, notesToDelete);
    if UniqueIds(old(recorder.recordings)) {
      RemoveEachIsWithout(old(recorder.recordings), notesToDelete);
    }
    recorder.storage.SaveNotes(recorder.recordings);
  }
}
