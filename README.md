# Music order system: order history, order editing and the home page

This project models the client-side core of a small music-commission web
application. Signed-in users place music orders. The model covers three
parts:

- **The home page** (`src/app/page.tsx`). It keeps the authentication
  session and the profile name in step with the authentication service. It
  handles sign-up, log-in, log-out and account deletion. It counts the order
  writes it has been told of, and it chooses between the loading screen, the
  authentication form and the main page.
- **The order history** (`src/components/OrderHistory.tsx`). It lists the
  user's orders newest first. It refetches them when the page reports a write
  or when the browser tab becomes visible again, and it picks what to render.
  Each row can be expanded, deleted after confirmation, or edited.
- **The order-edit dialog** (`src/components/EditOrderModal.tsx`). It seeds
  a form from a stored order:
  - instruments are joined with `", "`;
  - the genres are split into selected catalogue genres and one free-text
    "other" genre.

  A click on a genre button toggles that genre, and at most three can be
  added. The submit handler validates that at least one genre is left. It
  builds the update payload: instruments are split on `,` and trimmed, and
  the lyrics are `null` when lyrics are off. It then reports the update's
  outcome.

Files:

- `wrappers.dfy`: `Option`.
- `text.dfy`: JavaScript's `String.prototype.trim`, `split` and `join` on
  strings.
- `orders.dfy`: the `music_orders` row and the update payload.
- `order_store.dfy`: the contract the client relies on from the remote
  table's listing, delete and update calls.
- `genres.dfy`: the genre catalogue, reconstruction, toggle and merge.
- `edit_order_modal.dfy`: the edit dialog's form, payload and `EditForm`
  class.
- `order_history.dfy`: the `OrderList` and `OrderItem` classes.
- `home_page.dfy`: the `Home` class.
- `app.dfy`: how the three cooperate after a delete or an edit.

Component state becomes class fields, which the handlers update in place.
Each remote call (Supabase auth, `select`, `update`, `delete`, `rpc`) is a
parameter that carries its answer, for example `deleteError:
Option<string>`. The listing call's answer is tied to the table by the
predicate `OrderHistory.Answers`. Where the code handles an outcome between
the call and its answer, the handler is split in two. `BeginSubmit` and
`FinishSubmit` are one example; `BeginDelete` and `FinishDelete` are another.

In four places the code behaves differently from what one might expect,
and the model follows the code:

- **Repeated genres.** One might expect a stored genre list never to repeat
  a genre. The merge appends the trimmed free-text genre without checking the
  selected ones, so it can. `Genres.FinalizeMayRepeat` shows this.
- **Genre order.** One might expect saving an unchanged order to keep its
  genre list as stored. The free-text genre is always put last, so a list
  that stores it earlier comes back reordered, with the same genres.
  `Genres.GenreRoundTripAnyPosition` shows this.
- **Empty instruments.** One might expect an empty instruments field to be
  sent as an empty list. `"".split(',')` is `[""]`, so one blank instrument
  is sent. `EditOrderModal.NoInstrumentsBecomeOneBlank` and
  `EditOrderModal.MinimalFormSubmits` show this.
- **Full-width commas.** The edit dialog does not reject a full-width comma
  `，` (U+FF0C) in the instruments field. It is an ordinary character there,
  and the model treats it as one.

## Model

| member | source | states |
|---|---|---|
| Text.TrimStart | src/components/EditOrderModal.tsx:66-67 | the leading white space that `trim()` drops is all white, the rest is a suffix, and it does not start with white space |
| Text.TrimEnd | src/components/EditOrderModal.tsx:66-67 | the trailing white space that `trim()` drops is all white, the rest is a prefix, and it does not end with white space |
| Text.Trim | src/components/EditOrderModal.tsx:66-67 | `trim()` yields a string with no white space at either end, no longer than the input; it is empty exactly when the input is all white space |
| Text.TrimTrimmed | src/components/EditOrderModal.tsx:66-67 | trimming a trimmed string changes nothing |
| Text.TrimLeadingWhite | src/components/EditOrderModal.tsx:80 | a leading white-space character does not survive `trim()` |
| Text.TrimTrailingWhite | src/components/EditOrderModal.tsx:80 | a trailing white-space character does not survive `trim()` |
| Text.Split | src/components/EditOrderModal.tsx:80 | `split(sep)` gives at least one piece, and no piece contains the separator |
| Text.Join | src/components/EditOrderModal.tsx:41 | no contract of its own; `Text.JoinSplit` and `EditOrderModal.InstrumentsRoundTrip` relate it to `split` |
| Text.JoinSplit | src/components/EditOrderModal.tsx:41 | joining the pieces of a split with the separator gives back the string |
| Text.SplitWithoutSep | src/components/EditOrderModal.tsx:80 | a string without the separator splits into itself alone |
| Text.SplitAtSep | src/components/EditOrderModal.tsx:80 | a string cut at its first separator splits into the part before it followed by the pieces of the rest |
| Text.SplitCons | src/components/EditOrderModal.tsx:80 | a non-separator character put in front only extends the first piece |
| Text.TrimEach | src/components/EditOrderModal.tsx:80 | `.map(item => item.trim())`: one item per piece, the i-th being the i-th piece trimmed |
| Text.TrimKeepsChars | src/components/EditOrderModal.tsx:80 | `trim()` adds no character, so a comma-free piece stays comma-free |
| Orders.ApplyUpdate | src/components/EditOrderModal.tsx:78-91 | writing a payload to a row keeps its id, owner, status and creation time |
| OrderStore.OwnedBy | src/components/OrderHistory.tsx:150 | `eq('user_id', uid)` keeps exactly the table's rows owned by `uid` |
| OrderStore.InsertNewest | src/components/OrderHistory.tsx:151 | inserting a row adds exactly that row to the multiset, and the members are the old ones plus it |
| OrderStore.InsertNewestSorted | src/components/OrderHistory.tsx:151 | inserting into a newest-first list keeps it newest first |
| OrderStore.SortNewest | src/components/OrderHistory.tsx:151 | the sort is a permutation and is newest first |
| OrderStore.Listing | src/components/OrderHistory.tsx:147-151 | a listing exists for every table and user: exactly the user's rows, each as often as stored, newest first |
| OrderStore.DeleteRow | src/components/OrderHistory.tsx:49-52 | `delete().eq('id', id)` leaves exactly the rows with another id |
| OrderStore.UpdateRow | src/components/EditOrderModal.tsx:88-91 | `update(p).eq('id', id)` keeps the number of rows; a row is in the result exactly when it is a stored row with another id, or a stored row with that id after the payload is written to it |
| OrderStore.ListingOwned | src/components/OrderHistory.tsx:147-151 | every listed row is in the table and belongs to the user |
| OrderStore.ListingComplete | src/components/OrderHistory.tsx:147-151 | every row the user owns is listed |
| OrderStore.DeletedNotListed | src/components/OrderHistory.tsx:46-62 | after a delete, no listing shows a row with the deleted id |
| OrderStore.OthersStillListed | src/components/OrderHistory.tsx:46-62 | after a delete, every other row of the user is still listed |
| OrderStore.UpdatedListed | src/components/EditOrderModal.tsx:88-91 | after an update of the user's row, the listing shows it with the payload's columns |
| Genres.Predefined | src/components/EditOrderModal.tsx:47 | the filtered genres are all in the catalogue, and there are no more of them than were stored |
| Genres.FirstOther | src/components/EditOrderModal.tsx:48 | `find(...) \|\| ''` is never a catalogue genre, and when not empty it is a stored genre; `ReconstructOther` and `ReconstructNoOther` say which one |
| Genres.Reconstruct | src/components/EditOrderModal.tsx:47-50 | the selected genres are catalogue genres and no more than were stored, and "other" is not a catalogue genre; `GenreRoundTrip` and `SelectionRoundTrip` relate it to `Finalize` |
| Genres.FirstOtherIndex | src/components/EditOrderModal.tsx:48 | `find`: every genre before the index is in the catalogue, and the one at the index, if any, is not |
| Genres.PredefinedAppend | src/components/EditOrderModal.tsx:47 | the filter distributes over concatenation, so it keeps the stored order |
| Genres.PredefinedCount | src/components/EditOrderModal.tsx:47 | each catalogue genre is kept as often as stored, including repeats and more than three; every other genre is dropped |
| Genres.PredefinedListed | src/components/EditOrderModal.tsx:47 | a list of catalogue genres passes the filter whole |
| Genres.ReconstructOther | src/components/EditOrderModal.tsx:48-50 | the "other" field is the first stored genre outside the catalogue |
| Genres.ReconstructNoOther | src/components/EditOrderModal.tsx:48-50 | without a genre outside the catalogue, the "other" field is empty |
| Genres.RemoveAll | src/components/EditOrderModal.tsx:57 | a genre is in the result of `filter(g => g !== genre)` exactly when it was selected before and is not the clicked genre, and the result is no longer than before |
| Genres.RemoveAllAppend | src/components/EditOrderModal.tsx:57 | removal distributes over concatenation, so it keeps the order of the rest |
| Genres.RemoveAllAbsent | src/components/EditOrderModal.tsx:57 | removing an absent genre changes nothing |
| Genres.RemoveAllCount | src/components/EditOrderModal.tsx:57 | removal drops every occurrence of the genre and no occurrence of any other |
| Genres.Toggle | src/components/EditOrderModal.tsx:54-60 | a click on a selected genre removes it, and a click never adds any genre but the clicked one; `ToggleCases` to `ToggleValid` give the exact result |
| Genres.ToggleCases | src/components/EditOrderModal.tsx:54-60 | a click removes a selected genre; otherwise it appends the genre below three selected and leaves the first three above that |
| Genres.ToggleFull | src/components/EditOrderModal.tsx:58 | a click on a fourth genre leaves three selected genres unchanged |
| Genres.ToggleBound | src/components/EditOrderModal.tsx:58 | a click that adds never leaves more than three selected, and at most three stay at most three |
| Genres.ToggleTwice | src/components/EditOrderModal.tsx:54-60 | selecting and then deselecting a genre restores the selection |
| Genres.RemoveAllDistinct | src/components/EditOrderModal.tsx:57 | removal keeps a selection free of repeats |
| Genres.ToggleValid | src/components/EditOrderModal.tsx:54-60 | from a valid selection (catalogue genres, no repeats, at most three), a click on a catalogue genre gives a valid selection |
| Genres.Finalize | src/components/EditOrderModal.tsx:65-68 | the merged list starts with the selected genres and adds at most one entry, which is trimmed and not empty |
| Genres.FinalizeShape | src/components/EditOrderModal.tsx:65-73 | the merged list is empty exactly when nothing is selected and the "other" text is blank; it is the selection plus at most one genre, so at most four |
| Genres.GenreRoundTrip | src/components/EditOrderModal.tsx:47-50 | reconstructing a stored list in the form's shape (catalogue genres, then at most one trimmed non-blank free-text genre last) and merging it back gives the stored list |
| Genres.PredefinedSkip | src/components/EditOrderModal.tsx:47 | a genre outside the catalogue at the front is dropped by the filter |
| Genres.PredefinedAround | src/components/EditOrderModal.tsx:47 | the filter drops the one genre outside the catalogue that sits among catalogue genres, and keeps the rest in order |
| Genres.RoundTripAround | src/components/EditOrderModal.tsx:47-50 | the same as `GenreRoundTripAnyPosition`, with the stored list given as the genres before, the free-text genre, and the genres after |
| Genres.GenreRoundTripAnyPosition | src/components/EditOrderModal.tsx:47-50 | for a stored list of catalogue genres with one trimmed non-blank free-text genre at any position, reconstructing and merging moves that genre to the end, keeps the others in order and keeps the multiset of genres |
| Genres.SelectionRoundTrip | src/components/EditOrderModal.tsx:65-68 | merging a selection and reconstructing it gives the selection back, with "other" trimmed, when "other" is blank or outside the catalogue |
| Genres.FinalizeMayRepeat | src/components/EditOrderModal.tsx:65-68 | a free-text genre equal to a selected genre is stored twice, so the stored list has a repeat (with the helper `AppendCopyRepeats`) |
| Genres.TwoListedOneOther | src/components/EditOrderModal.tsx:47-50 | two catalogue genres and a trimmed free-text genre open as the two selected plus the free text in "other", and save back as stored |
| Genres.StoredGenresExample | src/components/EditOrderModal.tsx:47-50 | `["ロック", "EDM", "自作ジャンル"]` opens as two selected genres plus "自作ジャンル" in "other", and saves back unchanged |
| EditOrderModal.ParseInstruments | src/components/EditOrderModal.tsx:80 | the instruments sent are at least one item, each trimmed and comma-free |
| EditOrderModal.SeedInstruments | src/components/EditOrderModal.tsx:41 | no contract of its own; `InstrumentsRoundTrip` and `NoInstrumentsBecomeOneBlank` state what submitting its text gives back |
| EditOrderModal.ParsePieces | src/components/EditOrderModal.tsx:80 | the instruments sent are exactly the trimmed comma-separated pieces, one per piece |
| EditOrderModal.SplitSeededStep | src/components/EditOrderModal.tsx:41 | splitting the shown text yields the first instrument, then the rest with one leading space |
| EditOrderModal.SplitSeeded | src/components/EditOrderModal.tsx:41 | the shown text splits into one piece per stored instrument, each trimming back to it |
| EditOrderModal.InstrumentsRoundTrip | src/components/EditOrderModal.tsx:41 | a non-empty list of trimmed, comma-free instruments survives join and split-trim unchanged |
| EditOrderModal.NoInstrumentsBecomeOneBlank | src/components/EditOrderModal.tsx:41 | an order without instruments is saved with one blank instrument |
| EditOrderModal.SplitThreePieces | src/components/EditOrderModal.tsx:80 | `"a, b,  c "` splits into its three padded pieces |
| EditOrderModal.ParseThree | src/components/EditOrderModal.tsx:80 | a text of three pieces is sent as the three trimmed pieces |
| EditOrderModal.ThreeTrims | src/components/EditOrderModal.tsx:80 | the padded pieces of `"a, b,  c "` trim back to `a`, `b` and `c` |
| EditOrderModal.TrimPadded | src/components/EditOrderModal.tsx:80 | padding spaces around a trimmed item are removed |
| EditOrderModal.InstrumentsThreeItems | src/components/EditOrderModal.tsx:80 | irregular spacing around commas is trimmed away, item by item |
| EditOrderModal.InstrumentsExample | src/components/EditOrderModal.tsx:80 | `"ピアノ, ヴァイオリン,  ドラム "` is sent as `["ピアノ", "ヴァイオリン", "ドラム"]` |
| EditOrderModal.BuildPayload | src/components/EditOrderModal.tsx:78-86 | lyrics are `null` exactly when lyrics are off and verbatim otherwise; theme and notes are sent untrimmed; the instruments are the parsed field, each trimmed; the genres are the merged list; `has_lyrics` is the checkbox and `updated_at` the current time |
| EditOrderModal.Seed | src/components/EditOrderModal.tsx:38-50 | no contract of its own; `EditForm.constructor` seeds the form with it, and `UnchangedEditRoundTrip` shows that submitting it unchanged writes back the row |
| EditOrderModal.SubmitPayload | src/components/EditOrderModal.tsx:65-86 | no contract of its own; `SubmitRefused` says when there is no payload, `BuildPayload` what the payload holds |
| EditOrderModal.SubmitRefused | src/components/EditOrderModal.tsx:65-73 | a submit is refused exactly when no catalogue genre is selected and the "other" text is blank |
| EditOrderModal.MinimalFormSubmits | src/components/EditOrderModal.tsx:65-86 | one genre and empty other fields are accepted, with lyrics `null` and one blank instrument |
| EditOrderModal.UnchangedEditRoundTrip | src/components/EditOrderModal.tsx:38-91 | opening a canonical order and saving without a change writes back the same row, apart from the update time |
| EditOrderModal.EditForm.constructor | src/components/EditOrderModal.tsx:38-52 | the dialog opens with its fields seeded from the order, not loading, and with no message |
| EditOrderModal.EditForm.ToggleGenre | src/components/EditOrderModal.tsx:54-60 | the selected genres become the toggle of the previous ones |
| EditOrderModal.EditForm.BeginSubmit | src/components/EditOrderModal.tsx:62-91 | without genres, the message is shown and nothing is sent; otherwise loading starts and the update of this order with the built payload is issued |
| EditOrderModal.EditForm.FinishSubmit | src/components/EditOrderModal.tsx:93-100 | an error is shown with its prefix and nothing is reported; on success the message is shown and the parent is told once; loading ends |
| EditOrderModal.EditForm.Submit | src/components/EditOrderModal.tsx:62-101 | the whole handler: the form fields are untouched; no request exactly when no payload can be built (see `SubmitRefused`), with the message and no notification; otherwise the request for this order and the outcome as above |
| OrderHistory.Answers | src/components/OrderHistory.tsx:147-151 | no contract of its own; the assumption made of the listing call, that rows it returns are an `OrderStore.IsListing` of the table for the user, which `OrderStore.Listing` shows can be met |
| OrderHistory.OrderList.constructor | src/components/OrderHistory.tsx:139-141 | the list starts empty, loading, without error |
| OrderHistory.OrderList.View | src/components/OrderHistory.tsx:185-205 | loading notice while loading; then the error notice exactly for a non-empty error text; then the empty notice exactly for no orders; otherwise the rows |
| OrderHistory.OrderList.BeginFetch | src/components/OrderHistory.tsx:144-145 | a fetch starts loading and clears the error |
| OrderHistory.OrderList.CompleteFetch | src/components/OrderHistory.tsx:153-158 | rows replace the list (`null` gives none) and an error keeps it; loading ends; the list keeps only the user's orders, newest first |
| OrderHistory.OrderList.FetchOrders | src/components/OrderHistory.tsx:143-159 | after a fetch, the list is the listing or the old list with the error; loading is off and only the user's orders, newest first, are shown |
| OrderHistory.OrderList.OnRefreshCounter | src/components/OrderHistory.tsx:179-183 | refetches exactly for a positive counter; otherwise nothing changes |
| OrderHistory.OrderList.OnVisibilityChange | src/components/OrderHistory.tsx:165-169 | refetches exactly when the page became visible; otherwise nothing changes |
| OrderHistory.OrderItem.constructor | src/components/OrderHistory.tsx:31-33 | a row starts collapsed, not deleting and not editing |
| OrderHistory.OrderItem.ToggleOpen | src/components/OrderHistory.tsx:69 | a header click flips the expansion |
| OrderHistory.OrderItem.OpenEditor | src/components/OrderHistory.tsx:106-111 | the edit button opens the dialog |
| OrderHistory.OrderItem.CloseEditor | src/components/OrderHistory.tsx:126 | `onClose` closes the dialog |
| OrderHistory.OrderItem.EditorUpdated | src/components/OrderHistory.tsx:127-130 | `onOrderUpdated` tells the parent once and closes the dialog |
| OrderHistory.OrderItem.SubmitEdit | src/components/OrderHistory.tsx:123-131 | a dialog submit leaves the form fields as they were and sends this order's update exactly when a payload can be built; a refused submit shows the genre message and leaves `loading` alone, a sent one ends `loading` and shows the prefixed error or the success text; the parent is told exactly once on success, and the dialog closes exactly then |
| OrderHistory.OrderItem.BeginDelete | src/components/OrderHistory.tsx:46-52 | without confirmation nothing happens; with it, the row enters the deleting state and the delete of this order is issued |
| OrderHistory.OrderItem.FinishDelete | src/components/OrderHistory.tsx:54-60 | the alert reports the error with its prefix or the success; the parent is told once on success and never on failure; deleting ends |
| OrderHistory.OrderItem.HandleDelete | src/components/OrderHistory.tsx:46-62 | the whole handler: the delete is issued exactly when confirmed; a confirmed delete alerts the error with its prefix or the success text and ends deleting; the parent is told exactly once for a confirmed, successful delete |
| HomePage.ProfileName | src/app/page.tsx:37 | `profile?.name \|\| ''`: the profile's name when it has one; a non-empty result always comes from it |
| HomePage.Greeting | src/app/page.tsx:200 | `profileName \|\| 'ゲスト'`: never empty, and the profile name when it is set |
| HomePage.Home.constructor | src/app/page.tsx:10-22 | the page starts on the loading screen, without a session, in log-in mode, with counter 0 |
| HomePage.Home.View | src/app/page.tsx:139-209 | the loading screen exactly while loading; then the form exactly without a session; otherwise the main page with the user, the counter and the write handler passed to both children |
| HomePage.Home.InitialSession | src/app/page.tsx:28-40 | records the session, reads the profile name only when there is a user, and ends the loading screen |
| HomePage.Home.AuthStateChanged | src/app/page.tsx:46-62 | records the session, sets the profile name or clears it, and leaves the loading screen alone |
| HomePage.Home.SelectAuthMode | src/app/page.tsx:154-165 | the tabs set the form's mode |
| HomePage.Home.HandleSignUp | src/app/page.tsx:71-88 | an error is shown and the mode is kept; on success, the confirmation message is shown and the mode becomes log-in; loading ends |
| HomePage.Home.HandleLogin | src/app/page.tsx:90-98 | the error text is shown, or nothing; loading ends |
| HomePage.Home.HandleSubmit | src/app/page.tsx:100-107 | sign-up exactly in sign-up mode, log-in otherwise, with their outcomes |
| HomePage.Home.HandleLogout | src/app/page.tsx:109-117 | the error text is shown, or nothing; loading ends |
| HomePage.Home.HandleAccountDelete | src/app/page.tsx:119-132 | nothing without confirmation; an error is shown with its prefix and ends loading with no sign-out; success shows the message, signs out and stays loading |
| HomePage.Home.HandleOrderMutation | src/app/page.tsx:134-136 | the counter goes up by one and is positive |
| App.DeleteFromList | src/components/OrderHistory.tsx:46-62 | after a successful delete, the page counter goes up by one and the list stops loading; a successful refetch replaces the rows with the answer, clears the error and shows no row with the order's id, and a failed refetch keeps the old rows (the deleted order included) and records the error; after a failed delete, the counter, the rows, `loading` and the error are unchanged |
| App.RefetchAfterUpdate | src/components/OrderHistory.tsx:127-128 | after a successful update of the user's row, the page counter goes up by one and the list stops loading; a successful refetch replaces the rows with the answer, clears the error and lists the row with the payload's columns, and a failed one keeps the rows and records the error |
| App.EditFromList | src/components/OrderHistory.tsx:123-131 | after a successful update, the counter goes up by one, the dialog closes with the success text, the list stops loading and a successful refetch shows the row with the submitted columns while a failed one keeps the rows and records the error; after a refused or failed update, the dialog stays as it was with the genre message or the prefixed error, and the counter, the rows, `loading` and the error of the list are unchanged |

## Left out

- Remote calls to Supabase auth, tables and `rpc` are not executed. Each call is a parameter carrying its answer. The listing's answer is constrained by `OrderHistory.Answers`, and the table by the functions of `OrderStore`.
- Concurrency of `async` handlers is not modelled. An answer arrives in the same step as its call, so an interleaved second fetch or click is not captured. The same holds for the disabled buttons that guard against it.
- Browser dialogs and timers are parameters or outputs, not behaviour:
  - `window.confirm` is a `confirmed` parameter;
  - `alert` is a returned text;
  - the 1500 ms delayed `onClose` after a successful edit is not modelled, because it depends on a timer;
  - the row's copy-to-clipboard button (`handleCopy`, `isCopied`) is not modelled, because it depends on the clipboard and a timer.
- `new Date().toISOString()` is the `now` parameter. `created_at` is an integer that stands only for its ordering.
- EditOrderModal.EditForm.Submit: the theme input's HTML `required` attribute is not modelled, so the model accepts a submit with an empty theme, which the browser would block before the submit handler runs; `EditOrderModal.UnchangedEditRoundTrip` likewise covers orders whose theme is empty.
- Markup and styling, the text-input `onChange` setters (the fields are assigned directly), and the email, password and name inputs of the authentication form are not modelled.
- `OrderHistory.OrderList.FetchOrders`: the rows (`OrderItem` objects) are not re-created after a fetch. In the component, every fetch sets `loading`, the list then renders only the loading notice, and every row unmounts. So the rows come back collapsed, and an edit dialog that was open during a refetch (for example one triggered by the tab becoming visible) is closed with its unsaved edits lost. In the model, `OrderItem` objects keep `isOpen` and `isEditing` across a refetch.
- The listener subscription's set-up and clean-up are not modelled. Neither is the re-subscription of the order list's effects when the user id changes.
- `EditOrderModal.Seed` does not model `null` theme, instruments, genres or notes columns, or a `null` `has_lyrics` (the `\|\| ''` fallbacks). Only the lyrics column is nullable in the model.
- `HomePage.Home.HandleAccountDelete` leaves `loading` on after a successful deletion, as the code does. The sign-out's own outcome and the listener call that follows are not part of it.
- `src/components/MusicOrderForm.tsx` is not part of this model. The page only passes it `handleOrderMutation`.
- `src/app/profile/page.tsx`, `src/components/ProfileForm.tsx` and `streamlit_app.py` are not part of this model.
