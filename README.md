# Movie search: controller and display rules

A model, in Dafny, of the logic inside the three components of a browser
movie-search application: the search form (`SearchBar`), the top-level
component that holds the search text, the page and the selected movie
(`App`), and the movie detail dialog (`MovieModal`). The search service,
the query library and the rendering are outside the model. A render receives
the latest search outcome as a value.

Modules:

- `Wrappers`: `Option`, for JavaScript's `null` and `undefined`.
- `Text`: JavaScript's `trim` over ECMAScript's whitespace and line-terminator
  code points, the blank test `!s.trim()`, and the decimal text of an integer
  as a template literal writes it, with a parser to read it back.
- `Movies`: the movie record and one page of results. Only the fields the
  components read are kept. `src/types/movie.ts` is not part of this model.
- `SearchBar`: the input buffer (class `Form`), the submit guard and the
  debounced-submit guard. A handler returns the calls it makes to `onSubmit`
  and to the toast library as a list of effects.
- `MovieModal`: the image source, the text and rating fallbacks, the
  Escape-key and click rules for closing, and the body-style scroll lock
  (class `BodyStyle`).
- `App`: the state `(query, page, selectedMovie)` with handlers as a pure
  `Step` over events and as a class `Controller` whose methods are proved
  against `Step`. It also holds what a render derives (`Render`) and how a
  re-render re-runs the search form's debounced effect (`Settle`).

Four things the code does that a reader may not expect:

- `updateQuery` stores the text untrimmed. It resets the page to 1 even when
  the text equals the current one.
- There is no de-duplication of toasts. The error toast is raised on every
  render while the error is set.
- There is no "no results" notice and no clamping of page numbers.
- Nothing stops a search while the text is `""`.

## Model

| member | source | states |
|---|---|---|
| `App.Controller.constructor` | src/components/App/App.tsx:15-17 | the first state is query `""`, page 1, no selected movie, and it is well formed |
| `App.UpdateQueryEffect` | src/components/App/App.tsx:29-33 | a blank text leaves the state as it is; any other text becomes the query exactly as given and the page becomes 1, even when it equals the current query; the selection is untouched |
| `App.Controller.UpdateQuery` | src/components/App/App.tsx:29-33 | the method's new state is `Step` of the old one for `updateQuery`; the selection is unchanged and the state stays well formed |
| `App.UpdateQueryIdempotent` | src/components/App/App.tsx:29-33 | submitting the same text twice ends as submitting it once |
| `App.QueryStoredUntrimmed` | src/components/App/App.tsx:30-31 | the text " dune" is accepted and stored as " dune", although it trims to "dune" |
| `App.PageChangeRoundTrip` | src/components/App/App.tsx:49-50 | a 0-based choice `s` sets page `s + 1 >= 1`, `forcePage` gives back `s`, and the query and selection do not change |
| `App.Controller.OnPageChange` | src/components/App/App.tsx:49 | the method sets page to `selected + 1` and nothing else |
| `App.SelectAndClose` | src/components/App/App.tsx:35-36 | select sets the selection to the movie; close clears it, is idempotent and leaves a closed state as it is; neither touches query or page |
| `App.Controller.HandleMovieSelect` | src/components/App/App.tsx:35 | the method sets the selection to the movie and nothing else |
| `App.Controller.HandleCloseModal` | src/components/App/App.tsx:36 | the method clears the selection and nothing else |
| `App.StepKeepsWellFormed` | src/components/App/App.tsx:29-36 | every handler keeps the page at least 1 and the query either `""` or non-blank |
| `App.RunKeepsWellFormed` | src/components/App/App.tsx:15-36 | every state reached by any sequence of handler calls is well formed |
| `App.SearchIndependentOfSelection` | src/components/App/App.tsx:29-36 | after any handler calls, query and page are those the text and page events alone give: select and close never touch them |
| `App.SelectionIndependentOfSearch` | src/components/App/App.tsx:29-36 | after any handler calls, the selection is the one the select and close events alone give: text and page changes never touch it |
| `App.SearchBarSubmissionsAccepted` | src/components/SearchBar/SearchBar.tsx:12-25 | every text the search form submits, by the button or by the debounced value, passes App's blank guard and becomes the query on page 1 |
| `App.ErrorText` | src/components/App/App.tsx:25-26 | the toast text is the error's own message for an `Error`, and "An unknown error occurred" otherwise |
| `App.Render` | src/components/App/App.tsx:25-60 | pagination shows iff the search succeeded and there is more than one page, and it highlights `page - 1`; the loader follows `isLoading` and the error block follows `error`; the grid shows iff data is present with a non-empty result list, and it shows that list; the dialog shows the selected movie; a toast is raised iff an error is set, and its text is the error's message for an `Error` and "An unknown error occurred" otherwise |
| `App.NoDataNoResults` | src/components/App/App.tsx:38-39 | without data the movie list is empty, the page count is 0, and neither pagination nor grid shows |
| `App.PaginationFollowsChoice` | src/components/App/App.tsx:44-50 | in a well-formed state the highlighted page is non-negative, and after choosing a shown page that page is highlighted |
| `App.RerenderResubmitsAsWritten` | src/components/SearchBar/SearchBar.tsx:12-16 | as written, while the debounced text is non-blank, every state-changing handler call ends with that text as the query on page 1 |
| `App.PageChangeRevertedAsWritten` | src/components/App/App.tsx:49 | as written, on "batman" page 1 with "batman" debounced, choosing page 2 ends on page 1 |
| `App.HandlerFinalWithStableCallback` | src/components/SearchBar/SearchBar.tsx:12-16 | with a stable `onSubmit`, a handler call's result is final: a page change keeps its page and a submitted text stays the query |
| `SearchBar.Form.constructor` | src/components/SearchBar/SearchBar.tsx:8 | the buffer starts as `""` |
| `SearchBar.Form.HandleInputChange` | src/components/SearchBar/SearchBar.tsx:28-30 | the buffer becomes the new value and nothing else changes |
| `SearchBar.SubmitEffects` | src/components/SearchBar/SearchBar.tsx:18-25 | a submit makes exactly one call: the blank-query notice iff the text is blank, otherwise `onSubmit` with the untrimmed text |
| `SearchBar.Form.HandleSubmit` | src/components/SearchBar/SearchBar.tsx:18-26 | the method returns those calls; a blank text leaves the buffer unchanged, any other text clears it |
| `SearchBar.DebouncedEffects` | src/components/SearchBar/SearchBar.tsx:12-16 | a settled debounced value is sent to `onSubmit`, untrimmed, iff it is not blank, and no notice is shown |
| `SearchBar.ForwardedTextsNonBlank` | src/components/SearchBar/SearchBar.tsx:12-25 | no text the search form sends to `onSubmit` is blank |
| `Text.TrimStart` | src/components/SearchBar/SearchBar.tsx:20 | the result is the suffix of the input left after its leading whitespace, and it does not start with whitespace |
| `Text.TrimEnd` | src/components/SearchBar/SearchBar.tsx:20 | the result is the prefix of the input left before its trailing whitespace, and it does not end with whitespace |
| `Text.Trim` | src/components/SearchBar/SearchBar.tsx:20 | the result is the slice of the input left after dropping the leading whitespace and the trailing whitespace; what is dropped is all whitespace and the result neither starts nor ends with whitespace |
| `Text.BlankIffAllWhitespace` | src/components/SearchBar/SearchBar.tsx:13-20 | `!s.trim()` holds iff every character of `s` is whitespace |
| `Text.TrimIdempotent` | src/components/App/App.tsx:30 | trimming a trimmed text changes nothing |
| `Text.NonBlankHasVisibleChar` | src/components/App/App.tsx:30 | a text that passes the blank guard has a non-whitespace character |
| `Text.IntDecimalRoundTrip` | src/components/MovieModal/MovieModal.tsx:12 | the decimal text of an integer parses back to that integer |
| `MovieModal.ImageSrc` | src/components/MovieModal/MovieModal.tsx:35-39 | the image is the full-size prefix plus the backdrop if there is one, else plus the poster if there is one, else the fallback logo |
| `MovieModal.ImageFromCatalogueIffPath` | src/components/MovieModal/MovieModal.tsx:35-39 | the image address is a catalogue image iff the movie has a backdrop or a poster |
| `MovieModal.OverviewText` | src/components/MovieModal/MovieModal.tsx:55 | the overview is shown as is when non-empty, otherwise "No description"; the text is never empty |
| `MovieModal.ReleaseDateText` | src/components/MovieModal/MovieModal.tsx:57 | the release date is shown as is when non-empty, otherwise "Unknown"; the text is never empty |
| `MovieModal.RatingDisplay` | src/components/MovieModal/MovieModal.tsx:59-67 | a score is shown iff the average vote is a number above 0, and it is that number; otherwise "N/A" |
| `MovieModal.OnKeyDown` | src/components/MovieModal/MovieModal.tsx:14-18 | a key press calls `onClose` once iff the key is "Escape", and otherwise not at all |
| `MovieModal.ClickClosesAtMostOnce` | src/components/MovieModal/MovieModal.tsx:29-49 | a click calls `onClose` at most once, and exactly once iff it lands on the backdrop itself or on the close button; clicks inside the dialog do not close it |
| `MovieModal.LockedStyle` | src/components/MovieModal/MovieModal.tsx:10-12 | while open, overflow is "hidden" and the right padding reads back as `innerWidth - clientWidth` pixels |
| `MovieModal.RestoredStyle` | src/components/MovieModal/MovieModal.tsx:23-24 | on close the saved padding comes back exactly; the saved overflow comes back unless it was empty, in which case it becomes "auto" |
| `MovieModal.LockRestoreRoundTrip` | src/components/MovieModal/MovieModal.tsx:8-24 | open then close gives the body style back iff its overflow was non-empty |
| `MovieModal.EffectRerunsRestoreOnce` | src/components/MovieModal/MovieModal.tsx:6-27 | however many times the lock effect re-runs while open, closing ends as a single run does |
| `MovieModal.BodyStyle.Lock` | src/components/MovieModal/MovieModal.tsx:8-12 | the method returns the old style as the saved one and leaves the body in the locked style |
| `MovieModal.BodyStyle.Restore` | src/components/MovieModal/MovieModal.tsx:23-24 | the method leaves the body in the style restored from the saved one |
| `MovieModal.OpenThenClose` | src/components/MovieModal/MovieModal.tsx:8-24 | after opening and closing, the padding is the original and the overflow is the original or "auto" if it was empty |

## Left out

- Rendering, CSS modules, toast styling and duration, and the pagination widget's drawing. Only what is shown is modelled, as booleans and values.
- The query library: fetching, caching, keeping the previous data, de-duplicating requests and the query key. Its latest outcome is an input (`App.QueryResult`).
- The movie service and its HTTP API. These are network I/O and are not part of this model.
- The 500 ms debounce timer. Only "the debounced value has settled with this text" is modelled (`SearchBar.DebouncedEffects`).
- DOM mechanics of the dialog: adding and removing the `keydown` listener, and reading the real window and document widths. The widths are parameters (`MovieModal.BodyStyle.Lock`), and the listener is the function `MovieModal.OnKeyDown`.
- `App.TotalPagesOf`: `total_pages` is an integer here, so a `NaN` or missing value, which `|| 0` would also turn into 0, is not represented.
- `MovieModal.RatingDisplay`: `vote_average` is a real or absent. Floating-point details and the `{value}/10` number formatting are not modelled.
- `SearchBar.Form.HandleSubmit`: the form's field value is a parameter. In the page it is the controlled input, so it equals the buffer.
- React state updates are applied at once when a handler runs. Batching and the render scheduler are not modelled beyond `App.Settle`.

## Findings

| source | as written | input that shows it | evidently intended | confidence | as-written member | corrected member |
|---|---|---|---|---|---|---|
| src/components/SearchBar/SearchBar.tsx:16 | `onSubmit` is a dependency of the debounced-submit effect, and App passes `updateQuery`, which is a new function on every App render (src/components/App/App.tsx:29). Every App re-render therefore re-submits a non-blank debounced text and resets the page to 1. | Type "batman" and wait, so the debounced text is "batman". Then choose page 2 (0-based 1): the state ends on page 1. Submitting a newer text with the button before the debounce settles is likewise replaced by the stale debounced text. | The effect runs only when the debounced text changes, so page changes and button submissions stick. | medium, not executed | `App.RerenderResubmitsAsWritten` | `App.HandlerFinalWithStableCallback` |
