// The order-edit dialog: its form state seeded from a stored order, the
// genre buttons, and the submit handler that validates the genres, builds
// the update payload and reports the outcome of the update.
module EditOrderModal {
  import opened Wrappers
  import opened Text
  import opened Orders
  import opened Genres

  const NoGenreMessage: string := "ジャンルを1つ以上選択してください。"
  const UpdatedMessage: string := "オーダーを更新しました。"
  const ErrorPrefix: string := "エラー: "

  // ---------------------------------------------------------------------------
  // Instruments: shown as `instruments.join(', ')`, submitted as
  // `instruments.split(',').map(item => item.trim())`.

  function SeedInstruments(xs: seq<string>): string {
    Join(xs, ", ")
  }

  /** `instruments.split(',').map(item => item.trim())`: one trimmed,
      comma-free item per comma-separated piece, blank pieces kept as `""`. */
  function ParseInstruments(text: string): (r: seq<string>)
    ensures |r| >= 1
    ensures forall i :: 0 <= i < |r| ==> IsTrimmed(r[i]) && ',' !in r[i]
  {
    var r := TrimEach(Split(text, ','));
    assert forall i :: 0 <= i < |r| ==> ',' !in r[i] by {
      forall i | 0 <= i < |r| ensures ',' !in r[i] {
        TrimKeepsChars(Split(text, ',')[i], ',');
      }
    }
    r
  }

  /** The instruments sent are the trimmed comma-separated pieces. */
  lemma ParsePieces(text: string, items: seq<string>)
    requires |Split(text, ',')| == |items|
    requires forall i :: 0 <= i < |items| ==> Trim(Split(text, ',')[i]) == items[i]
    ensures ParseInstruments(text) == items
  {
  }

  /** One step of the shown text: the first item, then the rest after ", ". */
  lemma SplitSeededStep(x: string, rest: string)
    requires ',' !in x
    ensures Split(x + ", " + rest, ',') ==
      [x] + [[' '] + Split(rest, ',')[0]] + Split(rest, ',')[1..]
  {
    assert x + ", " + rest == x + [','] + ([' '] + rest);
    SplitAtSep(x, [' '] + rest, ',');
    SplitCons(' ', rest, ',');
  }

  /** The pieces of the shown text trim back to the stored items. */
  lemma {:induction false} SplitSeeded(xs: seq<string>)
    requires |xs| >= 1
    requires forall i :: 0 <= i < |xs| ==> IsTrimmed(xs[i]) && ',' !in xs[i]
    ensures |Split(SeedInstruments(xs), ',')| == |xs|
    ensures forall i :: 0 <= i < |xs| ==> Trim(Split(SeedInstruments(xs), ',')[i]) == xs[i]
  {
    if |xs| == 1 {
      SplitWithoutSep(xs[0], ',');
      var pieces := Split(SeedInstruments(xs), ',');
      assert pieces == [xs[0]];
      assert Trim(xs[0]) == xs[0] by { TrimTrimmed(xs[0]); }
      assert Trim(pieces[0]) == xs[0];
    } else {
      var rest := SeedInstruments(xs[1..]);
      SplitSeeded(xs[1..]);
      var tail := Split(rest, ',');
      SplitSeededStep(xs[0], rest);
      var pieces := Split(SeedInstruments(xs), ',');
      assert pieces == [xs[0]] + [[' '] + tail[0]] + tail[1..];
      assert Trim(xs[0]) == xs[0] by { TrimTrimmed(xs[0]); }
      assert Trim([' '] + tail[0]) == Trim(tail[0]) by { TrimLeadingWhite(' ', tail[0]); }
      TrimPieces(Trim, xs, pieces, tail);
    }
  }

  /** Proof step of SplitSeeded, kept apart to keep the solver's work small:
      one piece at a time, stated for an arbitrary `f` (used with `Trim`) so
      that `Trim` is not unfolded here. */
  lemma TrimPieces(f: string -> string, xs: seq<string>, pieces: seq<string>, tail: seq<string>)
    requires |xs| >= 2 && |tail| == |xs| - 1
    requires pieces == [xs[0]] + [[' '] + tail[0]] + tail[1..]
    requires f(xs[0]) == xs[0] && f([' '] + tail[0]) == f(tail[0])
    requires forall k :: 0 <= k < |tail| ==> f(tail[k]) == xs[1..][k]
    ensures forall i :: 0 <= i < |xs| ==> f(pieces[i]) == xs[i]
  {
    forall i | 0 <= i < |xs| ensures f(pieces[i]) == xs[i] {
      if i == 0 {
        assert pieces[0] == xs[0];
      } else if i == 1 {
        assert pieces[1] == [' '] + tail[0];
        assert f(tail[0]) == xs[1..][0];
      } else {
        assert pieces[i] == tail[i - 1];
        assert f(tail[i - 1]) == xs[1..][i - 1];
      }
    }
  }

  /** A non-empty list of trimmed, comma-free instruments survives an edit
      session unchanged. */
  lemma InstrumentsRoundTrip(xs: seq<string>)
    requires |xs| >= 1
    requires forall i :: 0 <= i < |xs| ==> IsTrimmed(xs[i]) && ',' !in xs[i]
    ensures ParseInstruments(SeedInstruments(xs)) == xs
  {
    SplitSeeded(xs);
    ParsePieces(SeedInstruments(xs), xs);
  }

  /** An order without instruments comes back with one blank instrument. */
  lemma NoInstrumentsBecomeOneBlank()
    ensures ParseInstruments(SeedInstruments([])) == [""]
  {
  }

  /** The pieces of `"a, b,  c "`. */
  lemma SplitThreePieces(a: string, b: string, c: string)
    requires ',' !in a && ',' !in b && ',' !in c
    ensures Split(a + [','] + ([' '] + b + [','] + ([' ', ' '] + c + [' '])), ',') ==
      [a, [' '] + b, [' ', ' '] + c + [' ']]
  {
    var c' := [' ', ' '] + c + [' '];
    var b' := [' '] + b;
    SplitWithoutSep(c', ',');
    SplitAtSep(b', c', ',');
    SplitAtSep(a, b' + [','] + c', ',');
  }

  /** Proof step of ParseThree, kept apart to keep the solver's work small:
      three pieces each mapped by `f` (used with `Trim`) to the matching
      item, stated for an arbitrary `f` so that `Trim` is not unfolded here. */
  lemma ThreePieces(f: string -> string, p: seq<string>, r: seq<string>)
    requires |p| == 3 && |r| == 3
    requires f(p[0]) == r[0] && f(p[1]) == r[1] && f(p[2]) == r[2]
    ensures forall i :: 0 <= i < |p| ==> f(p[i]) == r[i]
  {
  }

  /** A text of three comma-separated pieces is sent as their trimmed forms. */
  lemma ParseThree(t: string, p0: string, p1: string, p2: string, a: string, b: string, c: string)
    requires Split(t, ',') == [p0, p1, p2]
    requires Trim(p0) == a && Trim(p1) == b && Trim(p2) == c
    ensures ParseInstruments(t) == [a, b, c]
  {
    ThreePieces(Trim, [p0, p1, p2], [a, b, c]);
    ParsePieces(t, [a, b, c]);
  }

  lemma TrimPadded(c: string)
    requires IsTrimmed(c)
    ensures Trim([' ', ' '] + c + [' ']) == c
  {
    TrimTrailingWhite([' ', ' '] + c, ' ');
    assert [' ', ' '] + c == [' '] + ([' '] + c);
    TrimLeadingWhite(' ', [' '] + c);
    TrimLeadingWhite(' ', c);
    TrimTrimmed(c);
  }

  /** Irregular spacing around the commas is trimmed away. */
  lemma InstrumentsThreeItems(a: string, b: string, c: string)
    requires IsTrimmed(a) && IsTrimmed(b) && IsTrimmed(c)
    requires ',' !in a && ',' !in b && ',' !in c
    ensures ParseInstruments(a + [','] + ([' '] + b + [','] + ([' ', ' '] + c + [' ']))) == [a, b, c]
  {
    SplitThreePieces(a, b, c);
    ThreeTrims(a, b, c);
    ParseThree(a + [','] + ([' '] + b + [','] + ([' ', ' '] + c + [' '])),
               a, [' '] + b, [' ', ' '] + c + [' '], a, b, c);
  }

  /** The three padded pieces of `"a, b,  c "` trim to the items. */
  lemma ThreeTrims(a: string, b: string, c: string)
    requires IsTrimmed(a) && IsTrimmed(b) && IsTrimmed(c)
    ensures Trim(a) == a && Trim([' '] + b) == b && Trim([' ', ' '] + c + [' ']) == c
  {
    TrimTrimmed(a);
    TrimLeadingWhite(' ', b);
    TrimTrimmed(b);
    TrimPadded(c);
  }

  /** Proof step of InstrumentsExample: the example text is three
      instruments with irregular spacing. */
  lemma ExampleText()
    ensures "ピアノ, ヴァイオリン,  ドラム " ==
      "ピアノ" + [','] + ([' '] + "ヴァイオリン" + [','] + ([' ', ' '] + "ドラム" + [' ']))
  {
  }

  lemma InstrumentsExample()
    ensures ParseInstruments("ピアノ, ヴァイオリン,  ドラム ") == ["ピアノ", "ヴァイオリン", "ドラム"]
  {
    ExampleText();
    assert IsTrimmed("ピアノ") && IsTrimmed("ヴァイオリン") && IsTrimmed("ドラム");
    InstrumentsThreeItems("ピアノ", "ヴァイオリン", "ドラム");
  }

  // ---------------------------------------------------------------------------
  // The form state and the payload built from it.

  /** The dialog's input fields. */
  datatype FormFields = FormFields(
    theme: string,
    instruments: string,
    selection: GenreSelection,
    hasLyrics: bool,
    lyricsContent: string,
    additionalNotes: string)

  /** The fields as the dialog seeds them from the stored order; a `null`
      lyrics column shows as empty text. */
  function Seed(order: OrderRow): FormFields {
    FormFields(order.theme, SeedInstruments(order.instruments), Reconstruct(order.genres),
               order.hasLyrics, order.lyricsContent.GetOr(""), order.additionalNotes)
  }

  /** The update payload for the finalized genre list. */
  function BuildPayload(f: FormFields, genres: seq<string>, now: string): (r: UpdatePayload)
    ensures r.lyricsContent == None <==> !f.hasLyrics
    ensures f.hasLyrics ==> r.lyricsContent == Some(f.lyricsContent)
    ensures r.theme == f.theme && r.additionalNotes == f.additionalNotes
    ensures forall i :: 0 <= i < |r.instruments| ==> IsTrimmed(r.instruments[i])
    ensures r.instruments == ParseInstruments(f.instruments) && r.genres == genres
    ensures r.hasLyrics == f.hasLyrics && r.updatedAt == now
  {
    UpdatePayload(f.theme, ParseInstruments(f.instruments), genres, f.hasLyrics,
                  if f.hasLyrics then Some(f.lyricsContent) else None,
                  f.additionalNotes, now)
  }

  /** The payload a submit sends, or `None` when no genre is left. */
  function SubmitPayload(f: FormFields, now: string): Option<UpdatePayload> {
    var genres := Finalize(f.selection);
    if genres == [] then None else Some(BuildPayload(f, genres, now))
  }

  /** A submit is refused exactly when no catalogue genre is selected and
      the "other" text is blank. */
  lemma SubmitRefused(f: FormFields, now: string)
    ensures SubmitPayload(f, now).None? <==> f.selection.selected == [] && AllWhite(f.selection.other)
  {
    FinalizeShape(f.selection);
  }

  /** A form with one genre and nothing else filled in is submitted; its
      empty instruments field is sent as one blank instrument and its lyrics
      as `null`. */
  lemma MinimalFormSubmits(now: string)
    ensures SubmitPayload(FormFields("Sunset", "", GenreSelection(["ポップス"], ""), false, "x", ""), now) ==
      Some(UpdatePayload("Sunset", [""], ["ポップス"], false, None, "", now))
  {
    assert Trim("") == "";
    assert ParseInstruments("") == [""];
  }

  /** A stored order the dialog writes back unchanged: genres in the stored
      shape and not empty, at least one instrument, every instrument trimmed
      and comma-free, and lyrics text exactly when lyrics are on. */
  predicate Canonical(order: OrderRow) {
    order.genres != [] && CanonicalGenres(order.genres) &&
    |order.instruments| >= 1 &&
    (forall i :: 0 <= i < |order.instruments| ==>
       IsTrimmed(order.instruments[i]) && ',' !in order.instruments[i]) &&
    (order.hasLyrics <==> order.lyricsContent.Some?)
  }

  /** Opening the dialog on a canonical order and saving without a change
      writes back the same row, apart from the update time. */
  lemma UnchangedEditRoundTrip(order: OrderRow, now: string)
    requires Canonical(order)
    ensures SubmitPayload(Seed(order), now).Some?
    ensures ApplyUpdate(order, SubmitPayload(Seed(order), now).value) == order.(updatedAt := now)
  {
    GenreRoundTrip(order.genres);
    InstrumentsRoundTrip(order.instruments);
  }

  // ---------------------------------------------------------------------------
  // The dialog component.

  class EditForm {
    const orderId: OrderId
    var theme: string
    var instruments: string
    var selectedGenres: seq<string>
    var otherGenre: string
    var hasLyrics: bool
    var lyricsContent: string
    var additionalNotes: string
    var loading: bool
    var message: string

    /** The input fields as one value. */
    function Fields(): FormFields
      reads this
    {
      FormFields(theme, instruments, GenreSelection(selectedGenres, otherGenre),
                 hasLyrics, lyricsContent, additionalNotes)
    }

    /** The dialog opened on `order`, after its seeding effect has run. */
    constructor (order: OrderRow)
      ensures orderId == order.id && Fields() == Seed(order)
      ensures !loading && message == ""
    {
      orderId := order.id;
      theme := order.theme;
      instruments := SeedInstruments(order.instruments);
      hasLyrics := order.hasLyrics;
      lyricsContent := order.lyricsContent.GetOr("");
      additionalNotes := order.additionalNotes;
      var sel := Reconstruct(order.genres);
      selectedGenres := sel.selected;
      otherGenre := sel.other;
      loading := false;
      message := "";
    }

    /** A click on the button of genre `g`. */
    method ToggleGenre(g: string)
      modifies this`selectedGenres
      ensures selectedGenres == Toggle(old(selectedGenres), g)
    {
      if g in selectedGenres {
        selectedGenres := RemoveAll(selectedGenres, g);
      } else {
        var added := selectedGenres + [g];
        selectedGenres := if |added| <= MaxSelected then added else added[..MaxSelected];
      }
    }

    /** The submit handler up to the update call: without genres it shows
        the message and issues nothing; otherwise it enters the loading
        state and issues the update of this order. */
    method BeginSubmit(now: string) returns (request: Option<UpdateRequest>)
      modifies this`loading, this`message
      ensures SubmitPayload(Fields(), now).None? ==>
        request == None && message == NoGenreMessage && loading == old(loading)
      ensures SubmitPayload(Fields(), now).Some? ==>
        request == Some(UpdateRequest(orderId, SubmitPayload(Fields(), now).value)) &&
        loading && message == ""
    {
      ghost var fields := Fields();
      var finalGenres := selectedGenres;
      var other := Trim(otherGenre);
      if other != "" {
        finalGenres := finalGenres + [other];
      }
      assert finalGenres == Finalize(fields.selection);
      if |finalGenres| == 0 {
        message := NoGenreMessage;
        assert Fields() == fields;
        return None;
      }
      loading := true;
      message := "";
      assert Fields() == fields;
      request := Some(UpdateRequest(orderId, BuildPayload(Fields(), finalGenres, now)));
    }

    /** The submit handler after the update call answered: the error text or
        the success message is shown, the parent is notified once on success
        and never on failure, and loading ends. */
    method FinishSubmit(updateError: Option<string>) returns (notified: nat)
      modifies this`loading, this`message
      ensures !loading
      ensures updateError.Some? ==> message == ErrorPrefix + updateError.value && notified == 0
      ensures updateError.None? ==> message == UpdatedMessage && notified == 1
    {
      notified := 0;
      if updateError.Some? {
        message := ErrorPrefix + updateError.value;
      } else {
        message := UpdatedMessage;
        notified := notified + 1;
      }
      loading := false;
    }

    /** The whole submit handler; `updateError` is the update call's answer. */
    method Submit(now: string, updateError: Option<string>)
      returns (request: Option<UpdateRequest>, notified: nat)
      modifies this`loading, this`message
      ensures Fields() == old(Fields())
      ensures request.None? <==> SubmitPayload(Fields(), now).None?
      ensures request.None? ==>
        notified == 0 && message == NoGenreMessage && loading == old(loading)
      ensures request.Some? ==>
        request.value == UpdateRequest(orderId, SubmitPayload(Fields(), now).value) &&
        !loading &&
        (updateError.Some? ==> message == ErrorPrefix + updateError.value && notified == 0) &&
        (updateError.None? ==> message == UpdatedMessage && notified == 1)
    {
      request := BeginSubmit(now);
      notified := 0;
      if request.Some? {
        notified := FinishSubmit(updateError);
      }
    }
  }
}
