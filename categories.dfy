/**
 * The category folders of the main screen
 * (voice-memo-app/Views/ContentView.swift, `categories` and the folder
 * row): how many notes each category holds, without the empty category and
 * the two sentinel categories, shown in ascending key order.
 */
module ContentView {
  import opened NoteModel
  import opened AudioRecorder

  /** Categories that never get a folder: none, still processing, failed. */
  const Excluded: set<string> := {"", Processing, ErrorMark}

  function CategorySet(rs: seq<Note>): set<string> {
    set n | n in rs :: n.category
  }

  /** The number of notes filed under `c`. */
  function CountOf(rs: seq<Note>, c: string): (k: nat)
    ensures k <= |rs|
    ensures k > 0 <==> c in CategorySet(rs)
  {
    if rs == [] then 0
    else
      var init := rs[..|rs| - 1];
      assert rs == init + [rs[|rs| - 1]];
      CountOf(init, c) + (if rs[|rs| - 1].category == c then 1 else 0)
  }

  /** `Dictionary(grouping:by:).mapValues { $0.count }`, built one note at a time. */
  function Grouped(rs: seq<Note>): (g: map<string, nat>)
    ensures g.Keys == CategorySet(rs)
    ensures forall c :: c in g ==> g[c] == CountOf(rs, c)
  {
    if rs == [] then map[]
    else
      var init := rs[..|rs| - 1];
      var c := rs[|rs| - 1].category;
      var g := Grouped(init);
      assert rs == init + [rs[|rs| - 1]];
      g[c := (if c in g then g[c] else 0) + 1]
  }

  /**
   * `categories`: one entry per category that some note has, other than the
   * excluded ones, holding the number of notes in it.
   */
  function Categories(rs: seq<Note>): (m: map<string, nat>)
    ensures forall c :: c in m <==> c in CategorySet(rs) && c !in Excluded
    ensures forall c :: c in m ==> m[c] == CountOf(rs, c) && m[c] >= 1
  {
    var g := Grouped(rs);
    map c | c in g && c !in Excluded :: g[c]
  }

  /** A note still being processed, or one whose enrichment failed, never gets a folder. */
  lemma NoFolderForPendingOrFailed(rs: seq<Note>, n: Note)
    requires n in rs && (IsPlaceholder(n) || IsFailed(n))
    ensures n.category !in Categories(rs)
  {
  }

  // ---------------------------------------------------------------------
  // The counts add up

  /** The number of notes whose category is in `s`. */
  function CountIn(rs: seq<Note>, s: set<string>): nat {
    if rs == [] then 0
    else CountIn(rs[..|rs| - 1], s) + (if rs[|rs| - 1].category in s then 1 else 0)
  }

  /** The number of notes that land in some folder. */
  function ShownCount(rs: seq<Note>): nat {
    if rs == [] then 0
    else ShownCount(rs[..|rs| - 1]) + (if rs[|rs| - 1].category !in Excluded then 1 else 0)
  }

  function SumCounts(m: map<string, nat>, ks: seq<string>): nat
    requires forall k :: k in ks ==> k in m
  {
    if ks == [] then 0 else m[ks[0]] + SumCounts(m, ks[1..])
  }

  predicate Distinct(ks: seq<string>) {
    forall i, j :: 0 <= i < j < |ks| ==> ks[i] != ks[j]
  }

  lemma {:induction false} CountInAdd(rs: seq<Note>, s: set<string>, k: string)
    requires k !in s
    ensures CountIn(rs, s + {k}) == CountIn(rs, s) + CountOf(rs, k)
  {
    if rs != [] {
      CountInAdd(rs[..|rs| - 1], s, k);
    }
  }

  lemma {:induction false} SumIsCountIn(rs: seq<Note>, ks: seq<string>)
    requires Distinct(ks)
    requires forall k :: k in ks ==> k in Categories(rs)
    ensures SumCounts(Categories(rs), ks) == CountIn(rs, set k | k in ks)
  {
    if ks == [] {
      assert (set k | k in ks) == {};
      CountInEmpty(rs);
    } else {
      var rest := ks[1..];
      assert Distinct(rest);
      SumIsCountIn(rs, rest);
      assert ks[0] !in rest;
      var restKeys := set k | k in rest;
      assert (set k | k in ks) == restKeys + {ks[0]};
      CountInAdd(rs, restKeys, ks[0]);
    }
  }

  lemma {:induction false} CountInEmpty(rs: seq<Note>)
    ensures CountIn(rs, {}) == 0
  {
    if rs != [] {
      CountInEmpty(rs[..|rs| - 1]);
    }
  }

  lemma {:induction false} CountInShown(rs: seq<Note>, s: set<string>)
    requires forall n :: n in rs ==> (n.category in s <==> n.category !in Excluded)
    ensures CountIn(rs, s) == ShownCount(rs)
  {
    if rs != [] {
      var init := rs[..|rs| - 1];
      assert forall n :: n in init ==> n in rs;
      CountInShown(init, s);
    }
  }

  // ---------------------------------------------------------------------
  // The folder order: `categories.keys.sorted()`

  /** Lexicographic order of strings by character. */
  predicate Below(a: string, b: string) {
    b != [] && (a == [] || a[0] < b[0] || (a[0] == b[0] && Below(a[1..], b[1..])))
  }

  lemma {:induction false} BelowIrreflexive(a: string)
    ensures !Below(a, a)
  {
    if a != [] {
      BelowIrreflexive(a[1..]);
    }
  }

  lemma {:induction false} BelowTransitive(a: string, b: string, c: string)
    requires Below(a, b) && Below(b, c)
    ensures Below(a, c)
  {
    if a != [] && a[0] == b[0] && b[0] == c[0] {
      BelowTransitive(a[1..], b[1..], c[1..]);
    }
  }

  lemma {:induction false} BelowTotal(a: string, b: string)
    requires a != b
    ensures Below(a, b) || Below(b, a)
  {
    if a != [] && b != [] && a[0] == b[0] {
      assert a == [a[0]] + a[1..] && b == [b[0]] + b[1..];
      BelowTotal(a[1..], b[1..]);
    }
  }

  predicate Ascending(ks: seq<string>) {
    forall i, j :: 0 <= i < j < |ks| ==> Below(ks[i], ks[j])
  }

  function Insert(k: string, ks: seq<string>): (r: seq<string>)
    requires Ascending(ks) && k !in ks
    ensures Ascending(r) && |r| == |ks| + 1
    ensures forall x :: x in r <==> x in ks || x == k
  {
    if ks == [] then [k]
    else if Below(k, ks[0]) then
      forall j | 0 < j < |ks| ensures Below(k, ks[j]) {
        BelowTransitive(k, ks[0], ks[j]);
      }
      [k] + ks
    else
      BelowTotal(k, ks[0]);
      var r := [ks[0]] + Insert(k, ks[1..]);
      assert forall j :: 0 < j < |r| ==> r[j] in ks[1..] || r[j] == k;
      r
  }

  function SortStrings(ks: seq<string>): (r: seq<string>)
    requires Distinct(ks)
    ensures Ascending(r) && |r| == |ks|
    ensures forall x :: x in r <==> x in ks
  {
    if ks == [] then []
    else
      assert Distinct(ks[1..]) && ks[0] !in ks[1..];
      Insert(ks[0], SortStrings(ks[1..]))
  }

  /** The folder categories in the order the notes first use them. */
  function ShownCategories(rs: seq<Note>): (ks: seq<string>)
    ensures Distinct(ks)
    ensures forall c :: c in ks <==> c in CategorySet(rs) && c !in Excluded
  {
    if rs == [] then []
    else
      var init := rs[..|rs| - 1];
      var c := rs[|rs| - 1].category;
      var ks := ShownCategories(init);
      assert rs == init + [rs[|rs| - 1]];
      if c in Excluded || c in ks then ks else ks + [c]
  }

  /** The folders, left to right: every key of `categories` once, in ascending order. */
  function FolderOrder(rs: seq<Note>): (ks: seq<string>)
    ensures Ascending(ks)
    ensures forall c :: c in ks <==> c in Categories(rs)
  {
    SortStrings(ShownCategories(rs))
  }

  /** Ascending sequences with the same elements are equal: the folder order does not depend on how the keys were enumerated. */
  lemma {:induction false} AscendingUnique(a: seq<string>, b: seq<string>)
    requires Ascending(a) && Ascending(b)
    requires forall x :: x in a <==> x in b
    ensures a == b
  {
    if a != [] {
      assert a[0] in b;
    }
    if b != [] {
      assert b[0] in a;
    }
    if a != [] && b != [] {
      if a[0] != b[0] {
        assert b[0] in a && a[0] in b;
        var i :| 0 <= i < |a| && a[i] == b[0];
        var j :| 0 <= j < |b| && b[j] == a[0];
        assert Below(a[0], a[i]) && Below(b[0], b[j]);
        BelowTransitive(a[0], b[0], a[0]);
        BelowIrreflexive(a[0]);
      }
      assert a == [a[0]] + a[1..] && b == [b[0]] + b[1..];
      forall x | x in a[1..] ensures x in b[1..] {
        var i :| 0 <= i < |a[1..]| && a[1..][i] == x;
        assert Below(a[0], a[i + 1]);
        BelowIrreflexive(x);
        assert x == a[i + 1] && x in b;
        var k :| 0 <= k < |b| && b[k] == x;
        assert b[1..][k - 1] == x;
      }
      forall x | x in b[1..] ensures x in a[1..] {
        var j :| 0 <= j < |b[1..]| && b[1..][j] == x;
        assert Below(b[0], b[j + 1]);
        BelowIrreflexive(x);
        assert x == b[j + 1] && x in a;
        var k :| 0 <= k < |a| && a[k] == x;
        assert a[1..][k - 1] == x;
      }
      AscendingUnique(a[1..], b[1..]);
    }
  }

  lemma AscendingDistinct(ks: seq<string>)
    requires Ascending(ks)
    ensures Distinct(ks)
  {
    forall i, j | 0 <= i < j < |ks| ensures ks[i] != ks[j] {
      BelowIrreflexive(ks[i]);
    }
  }

  /**
   * Every folder shows at least one note, each note outside the excluded
   * categories is counted in exactly one folder, and so the folder counts
   * add up to the number of such notes.
   */
  lemma FolderCountsAddUp(rs: seq<Note>)
    ensures forall c :: c in FolderOrder(rs) ==> Categories(rs)[c] >= 1
    ensures SumCounts(Categories(rs), FolderOrder(rs)) == ShownCount(rs)
  {
    var ks := FolderOrder(rs);
    AscendingDistinct(ks);
    SumIsCountIn(rs, ks);
    var keys := set k | k in ks;
    CountInShown(rs, keys);
  }
}
