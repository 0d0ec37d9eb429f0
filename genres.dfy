// The genre selection of the order-edit form: the fixed catalogue of genre
// buttons, the split of a stored genre list into selected catalogue genres
// and one free-text "other" genre, the capped toggle of a button, and the
// merge back into the flat list that is stored.
module Genres {
  import opened Text

  /** `GENRE_OPTIONS`, in button order. */
  const GenreOptions: seq<string> :=
    ["ポップス", "ロック", "ジャズ", "クラシック", "EDM", "ヒップホップ", "R&B",
     "アコースティック", "アンビエント"]

  /** At most this many catalogue genres can be added with the buttons. */
  const MaxSelected: nat := 3

  predicate IsListed(g: string) {
    g in GenreOptions
  }

  /** The two parts of the form's genre state. */
  datatype GenreSelection = GenreSelection(selected: seq<string>, other: string)

  // ---------------------------------------------------------------------------
  // Reconstruct: `genres.filter(g => GENRE_OPTIONS.includes(g))` and
  // `genres.find(g => !GENRE_OPTIONS.includes(g)) || ''`.

  /** The stored genres that are in the catalogue, in stored order. */
  function Predefined(stored: seq<string>): (r: seq<string>)
    ensures forall i :: 0 <= i < |r| ==> IsListed(r[i])
    ensures |r| <= |stored|
  {
    if stored == [] then []
    else if IsListed(stored[0]) then [stored[0]] + Predefined(stored[1..])
    else Predefined(stored[1..])
  }

  /** Index of the first stored genre outside the catalogue, or `|stored|`. */
  function FirstOtherIndex(stored: seq<string>): (k: nat)
    ensures k <= |stored|
    ensures forall j :: 0 <= j < k ==> IsListed(stored[j])
    ensures k < |stored| ==> !IsListed(stored[k])
  {
    if stored == [] || !IsListed(stored[0]) then 0
    else 1 + FirstOtherIndex(stored[1..])
  }

  /** The first stored genre outside the catalogue, or `""` if there is none. */
  function FirstOther(stored: seq<string>): (r: string)
    ensures !IsListed(r)
    ensures r != "" ==> r in stored
  {
    var k := FirstOtherIndex(stored);
    if k < |stored| then stored[k] else ""
  }

  /** The form's genre state seeded from a stored order. */
  function Reconstruct(stored: seq<string>): (r: GenreSelection)
    ensures forall i :: 0 <= i < |r.selected| ==> IsListed(r.selected[i])
    ensures |r.selected| <= |stored|
    ensures !IsListed(r.other)
  {
    GenreSelection(Predefined(stored), FirstOther(stored))
  }

  /** The filter distributes over concatenation, so it keeps the stored
      order of the catalogue genres. */
  lemma {:induction false} PredefinedAppend(a: seq<string>, b: seq<string>)
    ensures Predefined(a + b) == Predefined(a) + Predefined(b)
  {
    if a == [] {
      assert a + b == b;
    } else {
      assert (a + b)[1..] == a[1..] + b;
      PredefinedAppend(a[1..], b);
    }
  }

  /** Each catalogue genre is kept as often as it is stored (duplicates and
      more than three included), every other genre is dropped. */
  lemma {:induction false} PredefinedCount(stored: seq<string>, g: string)
    ensures multiset(Predefined(stored))[g] == if IsListed(g) then multiset(stored)[g] else 0
  {
    if stored != [] {
      PredefinedCount(stored[1..], g);
      assert stored == [stored[0]] + stored[1..];
    }
  }

  /** A list of catalogue genres is kept whole. */
  lemma {:induction false} PredefinedListed(stored: seq<string>)
    requires forall i :: 0 <= i < |stored| ==> IsListed(stored[i])
    ensures Predefined(stored) == stored
  {
    if stored != [] {
      PredefinedListed(stored[1..]);
      assert stored == [stored[0]] + stored[1..];
    }
  }

  /** The "other" genre is the first stored entry outside the catalogue;
      entries outside the catalogue after it are dropped. */
  lemma ReconstructOther(stored: seq<string>, k: nat)
    requires k < |stored| && !IsListed(stored[k])
    requires forall j :: 0 <= j < k ==> IsListed(stored[j])
    ensures Reconstruct(stored).other == stored[k]
  {
  }

  /** Without entries outside the catalogue the "other" genre is empty. */
  lemma ReconstructNoOther(stored: seq<string>)
    requires forall j :: 0 <= j < |stored| ==> IsListed(stored[j])
    ensures Reconstruct(stored).other == ""
  {
  }

  // ---------------------------------------------------------------------------
  // Toggle: `prev.includes(g) ? prev.filter(x => x !== g) : [...prev, g].slice(0, 3)`.

  /** `prev.filter(x => x !== g)`. */
  function RemoveAll(prev: seq<string>, g: string): (r: seq<string>)
    ensures g !in r
    ensures forall x :: x in r <==> x in prev && x != g
    ensures |r| <= |prev|
  {
    if prev == [] then []
    else if prev[0] == g then RemoveAll(prev[1..], g)
    else [prev[0]] + RemoveAll(prev[1..], g)
  }

  /** A click on the button of genre `g`. */
  function Toggle(prev: seq<string>, g: string): (r: seq<string>)
    ensures g in prev ==> g !in r
    ensures forall x :: x in r ==> x in prev || x == g
  {
    if g in prev then RemoveAll(prev, g)
    else
      var added := prev + [g];
      if |added| <= MaxSelected then added else added[..MaxSelected]
  }

  /** Removing keeps the order of the remaining genres. */
  lemma {:induction false} RemoveAllAppend(a: seq<string>, b: seq<string>, g: string)
    ensures RemoveAll(a + b, g) == RemoveAll(a, g) + RemoveAll(b, g)
  {
    if a == [] {
      assert a + b == b;
    } else {
      assert (a + b)[1..] == a[1..] + b;
      RemoveAllAppend(a[1..], b, g);
    }
  }

  /** Removing an absent genre changes nothing. */
  lemma {:induction false} RemoveAllAbsent(prev: seq<string>, g: string)
    requires g !in prev
    ensures RemoveAll(prev, g) == prev
  {
    if prev != [] {
      RemoveAllAbsent(prev[1..], g);
      assert prev == [prev[0]] + prev[1..];
    }
  }

  /** Removing drops exactly the occurrences of `g`. */
  lemma {:induction false} RemoveAllCount(prev: seq<string>, g: string, x: string)
    ensures multiset(RemoveAll(prev, g))[x] == if x == g then 0 else multiset(prev)[x]
  {
    if prev != [] {
      RemoveAllCount(prev[1..], g, x);
      assert prev == [prev[0]] + prev[1..];
    }
  }

  /** The three cases of a click. */
  lemma ToggleCases(prev: seq<string>, g: string)
    ensures g in prev ==> Toggle(prev, g) == RemoveAll(prev, g)
    ensures g !in prev && |prev| < MaxSelected ==> Toggle(prev, g) == prev + [g]
    ensures g !in prev && |prev| >= MaxSelected ==> Toggle(prev, g) == prev[..MaxSelected]
  {
    if g !in prev && |prev| >= MaxSelected {
      assert (prev + [g])[..MaxSelected] == prev[..MaxSelected];
    }
  }

  /** A click on a fourth genre leaves three selected genres as they are. */
  lemma ToggleFull(prev: seq<string>, g: string)
    requires g !in prev && |prev| == MaxSelected
    ensures Toggle(prev, g) == prev
  {
    ToggleCases(prev, g);
  }

  /** A click that adds never leaves more than three genres selected, and a
      selection of at most three stays within three. */
  lemma ToggleBound(prev: seq<string>, g: string)
    ensures g !in prev ==> |Toggle(prev, g)| <= MaxSelected
    ensures |prev| <= MaxSelected ==> |Toggle(prev, g)| <= MaxSelected
  {
  }

  /** Selecting and deselecting a genre restores the selection. */
  lemma ToggleTwice(prev: seq<string>, g: string)
    requires g !in prev && |prev| < MaxSelected
    ensures Toggle(Toggle(prev, g), g) == prev
  {
    ToggleCases(prev, g);
    RemoveAllAppend(prev, [g], g);
    RemoveAllAbsent(prev, g);
  }

  /** No genre occurs twice. */
  predicate Distinct(s: seq<string>) {
    forall i, j :: 0 <= i < j < |s| ==> s[i] != s[j]
  }

  /** A selection the buttons can produce: catalogue genres, no repeats, at
      most three. */
  predicate ValidSelection(sel: seq<string>) {
    |sel| <= MaxSelected &&
    (forall i :: 0 <= i < |sel| ==> IsListed(sel[i])) &&
    Distinct(sel)
  }

  /** Removing keeps a selection free of repeats. */
  lemma {:induction false} RemoveAllDistinct(prev: seq<string>, g: string)
    requires Distinct(prev)
    ensures Distinct(RemoveAll(prev, g))
  {
    if prev != [] {
      RemoveAllDistinct(prev[1..], g);
      if prev[0] != g {
        var rest := RemoveAll(prev[1..], g);
        assert prev[0] !in prev[1..];
        assert prev[0] !in rest;
        var r := [prev[0]] + rest;
        forall i, j | 0 <= i < j < |r| ensures r[i] != r[j] {
          if i == 0 {
            assert r[j] == rest[j - 1];
          } else {
            assert r[i] == rest[i - 1] && r[j] == rest[j - 1];
          }
        }
      }
    }
  }

  /** The buttons keep a selection valid. */
  lemma ToggleValid(prev: seq<string>, g: string)
    requires ValidSelection(prev) && IsListed(g)
    ensures ValidSelection(Toggle(prev, g))
  {
    if g in prev {
      RemoveAllDistinct(prev, g);
      var r := RemoveAll(prev, g);
      forall i | 0 <= i < |r| ensures IsListed(r[i]) {
        assert r[i] in prev;
      }
    } else {
      ToggleCases(prev, g);
    }
  }

  // ---------------------------------------------------------------------------
  // Finalize: the selected genres, then the trimmed "other" genre if it is
  // not blank.

  function Finalize(sel: GenreSelection): (r: seq<string>)
    ensures |sel.selected| <= |r| <= |sel.selected| + 1
    ensures r[..|sel.selected|] == sel.selected
    ensures |r| > |sel.selected| ==> IsTrimmed(r[|sel.selected|]) && r[|sel.selected|] != ""
  {
    var other := Trim(sel.other);
    if other != "" then sel.selected + [other] else sel.selected
  }

  /** The finalized list is empty exactly when no genre is selected and the
      "other" text is blank; with at most three selected it has at most four. */
  lemma FinalizeShape(sel: GenreSelection)
    ensures Finalize(sel) == [] <==> sel.selected == [] && AllWhite(sel.other)
    ensures |Finalize(sel)| <= |sel.selected| + 1
    ensures |sel.selected| <= MaxSelected ==> |Finalize(sel)| <= MaxSelected + 1
    ensures Finalize(sel)[..|sel.selected|] == sel.selected
  {
  }

  /** The shape in which the form stores genres: catalogue genres followed by
      at most one trimmed, non-blank genre outside the catalogue. */
  predicate CanonicalGenres(gs: seq<string>) {
    (forall i :: 0 <= i < |gs| - 1 ==> IsListed(gs[i])) &&
    (|gs| > 0 && !IsListed(gs[|gs| - 1]) ==> IsTrimmed(gs[|gs| - 1]) && gs[|gs| - 1] != "")
  }

  /** Reconstructing a canonical list and merging it back gives the list. */
  lemma GenreRoundTrip(stored: seq<string>)
    requires CanonicalGenres(stored)
    ensures Finalize(Reconstruct(stored)) == stored
  {
    if stored != [] && !IsListed(stored[|stored| - 1]) {
      var n := |stored| - 1;
      var pre, last := stored[..n], stored[n];
      assert stored == pre + [last];
      assert Predefined(stored) == pre by {
        PredefinedAppend(pre, [last]);
        PredefinedListed(pre);
        assert Predefined([last]) == [];
      }
      assert FirstOther(stored) == last by {
        ReconstructOther(stored, n);
      }
      assert Trim(last) == last by {
        TrimTrimmed(last);
      }
    } else {
      PredefinedListed(stored);
      ReconstructNoOther(stored);
    }
  }

  /** A genre outside the catalogue in front is dropped by the filter. */
  lemma PredefinedSkip(x: string, b: seq<string>)
    requires !IsListed(x)
    ensures Predefined([x] + b) == Predefined(b)
  {
    assert ([x] + b)[1..] == b;
  }

  /** Filtering catalogue genres around one genre outside the catalogue
      drops just that genre. */
  lemma PredefinedAround(a: seq<string>, x: string, b: seq<string>)
    requires forall i :: 0 <= i < |a| ==> IsListed(a[i])
    requires forall i :: 0 <= i < |b| ==> IsListed(b[i])
    requires !IsListed(x)
    ensures Predefined(a + ([x] + b)) == a + b
  {
    PredefinedAppend(a, [x] + b);
    PredefinedSkip(x, b);
    PredefinedListed(a);
    PredefinedListed(b);
  }

  /** Moving one element to the end keeps the multiset. */
  lemma MoveToEnd(a: seq<string>, x: string, b: seq<string>)
    ensures multiset(a + b + [x]) == multiset(a + ([x] + b))
  {
  }

  /** GenreRoundTripAnyPosition with the list given in its three parts. */
  lemma RoundTripAround(a: seq<string>, x: string, b: seq<string>)
    requires forall i :: 0 <= i < |a| ==> IsListed(a[i])
    requires forall i :: 0 <= i < |b| ==> IsListed(b[i])
    requires !IsListed(x) && IsTrimmed(x) && x != ""
    ensures Finalize(Reconstruct(a + ([x] + b))) == a + b + [x]
    ensures multiset(Finalize(Reconstruct(a + ([x] + b)))) == multiset(a + ([x] + b))
  {
    var stored := a + ([x] + b);
    assert Predefined(stored) == a + b by {
      PredefinedAround(a, x, b);
    }
    assert FirstOther(stored) == x by {
      assert stored[|a|] == x;
      ReconstructOther(stored, |a|);
    }
    assert Trim(x) == x by {
      TrimTrimmed(x);
    }
    MoveToEnd(a, x, b);
  }

  /** Reconstructing and merging a list with one trimmed, non-blank genre
      outside the catalogue, at any position `k`, keeps the genres but moves
      that genre to the end. */
  lemma GenreRoundTripAnyPosition(stored: seq<string>, k: nat)
    requires k < |stored| && !IsListed(stored[k]) && IsTrimmed(stored[k]) && stored[k] != ""
    requires forall j :: 0 <= j < |stored| && j != k ==> IsListed(stored[j])
    ensures Finalize(Reconstruct(stored)) == stored[..k] + stored[k + 1..] + [stored[k]]
    ensures multiset(Finalize(Reconstruct(stored))) == multiset(stored)
  {
    var a, x, b := stored[..k], stored[k], stored[k + 1..];
    assert stored == a + ([x] + b);
    assert forall i :: 0 <= i < |a| ==> IsListed(a[i]) by {
      forall i | 0 <= i < |a| ensures IsListed(a[i]) {
        assert a[i] == stored[i];
      }
    }
    assert forall i :: 0 <= i < |b| ==> IsListed(b[i]) by {
      forall i | 0 <= i < |b| ensures IsListed(b[i]) {
        assert b[i] == stored[k + 1 + i];
      }
    }
    RoundTripAround(a, x, b);
  }

  /** Merging a selection and reconstructing it gives the selection back,
      with the "other" genre trimmed, when that genre is blank or outside the
      catalogue. */
  lemma SelectionRoundTrip(sel: GenreSelection)
    requires forall i :: 0 <= i < |sel.selected| ==> IsListed(sel.selected[i])
    requires !IsListed(Trim(sel.other))
    ensures Reconstruct(Finalize(sel)) == GenreSelection(sel.selected, Trim(sel.other))
  {
    var other := Trim(sel.other);
    if other != "" {
      PredefinedAppend(sel.selected, [other]);
      PredefinedListed(sel.selected);
      ReconstructOther(sel.selected + [other], |sel.selected|);
    } else {
      PredefinedListed(sel.selected);
      ReconstructNoOther(sel.selected);
    }
  }

  /** Appending a copy of an element makes a repeat. */
  lemma AppendCopyRepeats(s: seq<string>, i: nat)
    requires i < |s|
    ensures !Distinct(s + [s[i]])
  {
    var r := s + [s[i]];
    assert r[i] == r[|s|];
  }

  /** The stored list is not kept free of repeats: a free-text genre that
      names the selected genre `sel[i]` is stored a second time. */
  lemma FinalizeMayRepeat(sel: seq<string>, i: nat)
    requires i < |sel| && IsTrimmed(sel[i]) && sel[i] != ""
    ensures Finalize(GenreSelection(sel, sel[i])) == sel + [sel[i]]
    ensures !Distinct(Finalize(GenreSelection(sel, sel[i])))
  {
    assert Finalize(GenreSelection(sel, sel[i])) == sel + [sel[i]] by {
      TrimTrimmed(sel[i]);
    }
    AppendCopyRepeats(sel, i);
  }

  /** Two catalogue genres and a free-text genre open as a selection of
      the two with the free text in the "other" field, and save back as
      stored. */
  lemma TwoListedOneOther(a: string, b: string, c: string)
    requires IsListed(a) && IsListed(b) && !IsListed(c)
    requires IsTrimmed(c) && c != ""
    ensures Reconstruct([a, b, c]) == GenreSelection([a, b], c)
    ensures Finalize(Reconstruct([a, b, c])) == [a, b, c]
  {
    var s := [a, b, c];
    assert Predefined(s) == [a, b] by {
      assert s == [a, b] + [c];
      PredefinedAppend([a, b], [c]);
      PredefinedListed([a, b]);
      assert Predefined([c]) == [];
    }
    assert FirstOther(s) == c by {
      ReconstructOther(s, 2);
    }
    assert Trim(c) == c by {
      TrimTrimmed(c);
    }
    assert [a, b] + [c] == s;
  }

  /** A stored order with "ロック", "EDM" and the free-text "自作ジャンル". */
  lemma StoredGenresExample()
    ensures Reconstruct(["ロック", "EDM", "自作ジャンル"]) == GenreSelection(["ロック", "EDM"], "自作ジャンル")
    ensures Finalize(Reconstruct(["ロック", "EDM", "自作ジャンル"])) == ["ロック", "EDM", "自作ジャンル"]
  {
    assert GenreOptions[1] == "ロック" && GenreOptions[4] == "EDM";
    assert !IsListed("自作ジャンル");
    assert IsTrimmed("自作ジャンル");
    TwoListedOneOther("ロック", "EDM", "自作ジャンル");
  }
}
