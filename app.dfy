/**
 * The top-level component (src/components/App/App.tsx): the search text, the
 * page and the selected movie, the four handlers that change them, and what a
 * render derives from them and from the latest result of the movie search.
 *
 * The search itself (fetching, caching, keeping the previous page while the
 * next one loads) belongs to a query library; a render receives its latest
 * outcome as a `QueryResult` value.
 */
module App {
  import opened Wrappers
  import opened Movies
  import opened Text
  import SearchBar

  // ---- State and handlers ----

  /** The component's state: search text, 1-based page, and the movie whose dialog is open. */
  datatype AppState = AppState(query: string, page: int, selectedMovie: Option<Movie>)

  /** The first render's state: no search text, page 1, no dialog. */
  const Initial: AppState := AppState("", 1, None)

  /** What every reachable state satisfies: a page of at least 1, and a text that is empty or not blank. */
  predicate WellFormed(s: AppState) {
    s.page >= 1 && (s.query == "" || !IsBlank(s.query))
  }

  /** A call of one of the component's handlers. */
  datatype Event =
    | QueryUpdated(newQuery: string)   // updateQuery(newQuery), the search form's onSubmit
    | PageSelected(selected: nat)      // the pagination widget's onPageChange, 0-based
    | MovieSelected(movie: Movie)      // handleMovieSelect(movie)
    | ModalClosed                      // handleCloseModal()

  /** The state after one handler call. */
  function Step(s: AppState, e: Event): AppState {
    match e
    case QueryUpdated(t) => if IsBlank(t) then s else s.(query := t, page := 1)
    case PageSelected(k) => s.(page := k + 1)
    case MovieSelected(m) => s.(selectedMovie := Some(m))
    case ModalClosed => s.(selectedMovie := None)
  }

  /** The state after the handler calls `events`, in order. */
  function Run(s: AppState, events: seq<Event>): AppState {
    if events == [] then s else Step(Run(s, events[..|events| - 1]), events[|events| - 1])
  }

  /** The 0-based page the pagination widget is told to highlight. */
  function ForcePage(s: AppState): int {
    s.page - 1
  }

  /**
   * `updateQuery`: a blank text changes nothing; any other text becomes the
   * search text exactly as given, untrimmed, and the page goes back to 1, even
   * when the text is the one already searched; the dialog is left alone.
   */
  lemma UpdateQueryEffect(s: AppState, t: string)
    ensures IsBlank(t) ==> Step(s, QueryUpdated(t)) == s
    ensures !IsBlank(t) ==> Step(s, QueryUpdated(t)) == AppState(t, 1, s.selectedMovie)
  {
  }

  /** Submitting the same text twice in a row ends as submitting it once. */
  lemma UpdateQueryIdempotent(s: AppState, t: string)
    ensures Step(Step(s, QueryUpdated(t)), QueryUpdated(t)) == Step(s, QueryUpdated(t))
  {
  }

  /** The stored text is not trimmed: submitting " dune" searches for " dune", not "dune". */
  lemma QueryStoredUntrimmed()
    ensures Step(Initial, QueryUpdated(" dune")).query == " dune"
    ensures Trim(" dune") == "dune"
  {
    assert TrimStart(" dune") == "dune" by {
      assert IsWhitespace(' ') && !IsWhitespace('d');
      assert " dune"[1..] == "dune";
    }
    assert TrimEnd("dune") == "dune" by {
      assert !IsWhitespace('e');
    }
    assert !IsBlank(" dune");
  }

  /**
   * Choosing page `selected` (0-based) in the widget makes the state's page
   * `selected + 1`, which is at least 1, and the widget is then told to
   * highlight `selected` again; nothing else changes.
   */
  lemma PageChangeRoundTrip(s: AppState, selected: nat)
    ensures Step(s, PageSelected(selected)).page == selected + 1 >= 1
    ensures ForcePage(Step(s, PageSelected(selected))) == selected
    ensures Step(s, PageSelected(selected)).query == s.query
    ensures Step(s, PageSelected(selected)).selectedMovie == s.selectedMovie
  {
  }

  /**
   * Selecting opens the dialog on that movie and closing shuts it, twice as
   * well as once; neither touches the search text or the page.
   */
  lemma SelectAndClose(s: AppState, m: Movie)
    ensures Step(s, MovieSelected(m)) == s.(selectedMovie := Some(m))
    ensures Step(s, ModalClosed) == s.(selectedMovie := None)
    ensures Step(Step(s, ModalClosed), ModalClosed) == Step(s, ModalClosed)
    ensures s.selectedMovie == None ==> Step(s, ModalClosed) == s
  {
  }

  /** Every handler keeps the state well formed. */
  lemma StepKeepsWellFormed(s: AppState, e: Event)
    requires WellFormed(s)
    ensures WellFormed(Step(s, e))
  {
  }

  /** Every state reached from the first render by any handler calls is well formed. */
  lemma {:induction false} RunKeepsWellFormed(s: AppState, events: seq<Event>)
    requires WellFormed(s)
    ensures WellFormed(Run(s, events))
  {
    if events != [] {
      RunKeepsWellFormed(s, events[..|events| - 1]);
      StepKeepsWellFormed(Run(s, events[..|events| - 1]), events[|events| - 1]);
    }
  }

  predicate IsSearchEvent(e: Event) {
    e.QueryUpdated? || e.PageSelected?
  }

  /** The search events of `events` (text and page changes), in order. */
  function SearchEvents(events: seq<Event>): (r: seq<Event>)
    ensures forall e :: e in r ==> IsSearchEvent(e)
  {
    if events == [] then []
    else
      var last := events[|events| - 1];
      SearchEvents(events[..|events| - 1]) + (if IsSearchEvent(last) then [last] else [])
  }

  /** The dialog events of `events` (select and close), in order. */
  function SelectionEvents(events: seq<Event>): (r: seq<Event>)
    ensures forall e :: e in r ==> !IsSearchEvent(e)
  {
    if events == [] then []
    else
      var last := events[|events| - 1];
      SelectionEvents(events[..|events| - 1]) + (if IsSearchEvent(last) then [] else [last])
  }

  /** How the two filters treat one more event at the end. */
  lemma FiltersSnoc(init: seq<Event>, last: Event)
    ensures IsSearchEvent(last) ==> SearchEvents(init + [last]) == SearchEvents(init) + [last]
    ensures IsSearchEvent(last) ==> SelectionEvents(init + [last]) == SelectionEvents(init)
    ensures !IsSearchEvent(last) ==> SearchEvents(init + [last]) == SearchEvents(init)
    ensures !IsSearchEvent(last) ==> SelectionEvents(init + [last]) == SelectionEvents(init) + [last]
  {
    var events := init + [last];
    assert events[..|events| - 1] == init;
  }

  /**
   * The search is independent of the dialog: after any handler calls, the
   * text and page are those the search events alone give.
   */
  lemma {:induction false} SearchIndependentOfSelection(s: AppState, events: seq<Event>)
    ensures Run(s, events).query == Run(s, SearchEvents(events)).query
    ensures Run(s, events).page == Run(s, SearchEvents(events)).page
  {
    if events != [] {
      var init := events[..|events| - 1];
      var last := events[|events| - 1];
      assert events == init + [last];
      SearchIndependentOfSelection(s, init);
      FiltersSnoc(init, last);
      if IsSearchEvent(last) {
        var se := SearchEvents(init) + [last];
        assert se[..|se| - 1] == SearchEvents(init);
      }
    }
  }

  /**
   * The dialog is independent of the search: after any handler calls, the
   * selected movie is the one the select and close events alone give.
   */
  lemma {:induction false} SelectionIndependentOfSearch(s: AppState, events: seq<Event>)
    ensures Run(s, events).selectedMovie == Run(s, SelectionEvents(events)).selectedMovie
  {
    if events != [] {
      var init := events[..|events| - 1];
      var last := events[|events| - 1];
      assert events == init + [last];
      SelectionIndependentOfSearch(s, init);
      FiltersSnoc(init, last);
      if !IsSearchEvent(last) {
        var de := SelectionEvents(init) + [last];
        assert de[..|de| - 1] == SelectionEvents(init);
      }
    }
  }

  /**
   * The search form never hands over a text the blank guard rejects: each text
   * it submits, by pressing the button or by the debounced value settling,
   * becomes the search text, untrimmed, on page 1.
   */
  lemma SearchBarSubmissionsAccepted(s: AppState, inputQuery: string, debouncedQuery: string)
    ensures forall t :: t in SearchBar.Submitted(SearchBar.SubmitEffects(inputQuery) + SearchBar.DebouncedEffects(debouncedQuery))
              ==> Step(s, QueryUpdated(t)) == AppState(t, 1, s.selectedMovie)
  {
    SearchBar.ForwardedTextsNonBlank(inputQuery, debouncedQuery);
  }

  /** The component's state, updated in place by its handlers. */
  class Controller {
    var query: string
    var page: int
    var selectedMovie: Option<Movie>

    function State(): AppState
      reads this
    {
      AppState(query, page, selectedMovie)
    }

    ghost predicate Valid()
      reads this
    {
      WellFormed(State())
    }

    /** `useState("")`, `useState(1)`, `useState(null)`. */
    constructor ()
      ensures State() == Initial && Valid()
    {
      query := "";
      page := 1;
      selectedMovie := None;
    }

    /** `updateQuery`: ignores a blank text; otherwise stores it as given and goes back to page 1. */
    method UpdateQuery(newQuery: string)
      requires Valid()
      modifies this
      ensures Valid()
      ensures State() == Step(old(State()), QueryUpdated(newQuery))
      ensures selectedMovie == old(selectedMovie)
    {
      if IsBlank(newQuery) {
        return;
      }
      query := newQuery;
      page := 1;
      assert WellFormed(State()) by {
        StepKeepsWellFormed(old(State()), QueryUpdated(newQuery));
      }
    }

    /** The pagination widget's `onPageChange`: its 0-based `selected` becomes the 1-based page. */
    method OnPageChange(selected: nat)
      requires Valid()
      modifies this
      ensures Valid()
      ensures State() == Step(old(State()), PageSelected(selected))
      ensures page == selected + 1 && query == old(query) && selectedMovie == old(selectedMovie)
    {
      page := selected + 1;
    }

    /** `handleMovieSelect`: opens the dialog on `movie`. */
    method HandleMovieSelect(movie: Movie)
      requires Valid()
      modifies this
      ensures Valid()
      ensures State() == Step(old(State()), MovieSelected(movie))
      ensures selectedMovie == Some(movie) && query == old(query) && page == old(page)
    {
      selectedMovie := Some(movie);
    }

    /** `handleCloseModal`: closes the dialog. */
    method HandleCloseModal()
      requires Valid()
      modifies this
      ensures Valid()
      ensures State() == Step(old(State()), ModalClosed)
      ensures selectedMovie == None && query == old(query) && page == old(page)
    {
      selectedMovie := None;
    }
  }

  // ---- What a render derives ----

  /** What the search threw: an `Error` with its message, or some other value. */
  datatype Thrown = ErrorObject(message: string) | OtherValue

  /** The latest outcome of the movie search, as the query library reports it. */
  datatype QueryResult = QueryResult(
    data: Option<FetchMoviesResponse>,
    isLoading: bool,
    isSuccess: bool,
    error: Option<Thrown>)

  const UnknownErrorMessage: string := "An unknown error occurred"

  /** The error toast's text: the error's own message, or a generic one for anything that is not an `Error`. */
  function ErrorText(e: Thrown): (r: string)
    ensures e.ErrorObject? ==> r == e.message
    ensures e.OtherValue? ==> r == UnknownErrorMessage
  {
    match e
    case ErrorObject(msg) => msg
    case OtherValue => UnknownErrorMessage
  }

  /** `data?.results || []`. */
  function MoviesOf(data: Option<FetchMoviesResponse>): seq<Movie> {
    if data.Some? then data.value.results else []
  }

  /** `data?.total_pages || 0`: zero for no data, the page count otherwise. */
  function TotalPagesOf(data: Option<FetchMoviesResponse>): int {
    if data.Some? && data.value.totalPages != 0 then data.value.totalPages else 0
  }

  /** The pagination widget's inputs: how many pages, and which one (0-based) to highlight. */
  datatype Pagination = Pagination(pageCount: int, forcePage: int)

  /** What one render shows and does. */
  datatype View = View(
    pagination: Option<Pagination>,
    loader: bool,
    errorMessage: bool,
    grid: Option<seq<Movie>>,
    dialog: Option<Movie>,
    errorToast: Option<string>)

  /**
   * One render: the pagination shows only for a successful search with more
   * than one page, highlighting the state's page; the loader and the error
   * block follow the loading and error flags; the grid shows the results only
   * when there are some; the dialog shows the selected movie; and an error
   * raises a toast on every render while it is set.
   */
  function Render(s: AppState, q: QueryResult): (v: View)
    ensures v.pagination.Some? <==> q.isSuccess && q.data.Some? && q.data.value.totalPages > 1
    ensures v.pagination.Some? ==>
              v.pagination.value == Pagination(q.data.value.totalPages, s.page - 1)
    ensures v.loader == q.isLoading
    ensures v.errorMessage == q.error.Some?
    ensures v.grid.Some? <==> q.data.Some? && q.data.value.results != []
    ensures v.grid.Some? ==> v.grid.value == q.data.value.results
    ensures v.dialog == s.selectedMovie
    ensures v.errorToast.Some? <==> q.error.Some?
    ensures q.error.Some? ==> v.errorToast == Some(ErrorText(q.error.value))
  {
    var movies := MoviesOf(q.data);
    var totalPages := TotalPagesOf(q.data);
    View(
      if q.isSuccess && totalPages > 1 then Some(Pagination(totalPages, ForcePage(s))) else None,
      q.isLoading,
      q.error.Some?,
      if q.data.Some? && |movies| > 0 then Some(movies) else None,
      s.selectedMovie,
      if q.error.Some? then Some(ErrorText(q.error.value)) else None)
  }

  /** Without data there is nothing to page through and no grid. */
  lemma NoDataNoResults(s: AppState, q: QueryResult)
    requires q.data.None?
    ensures MoviesOf(q.data) == [] && TotalPagesOf(q.data) == 0
    ensures Render(s, q).pagination.None? && Render(s, q).grid.None?
  {
  }

  /**
   * In a well-formed state the highlighted page is never negative, and after
   * the user picks page `selected` among those shown, that page is highlighted.
   */
  lemma PaginationFollowsChoice(s: AppState, q: QueryResult, selected: nat)
    requires WellFormed(s)
    requires Render(s, q).pagination.Some?
    requires selected < Render(s, q).pagination.value.pageCount
    ensures Render(s, q).pagination.value.forcePage >= 0
    ensures Render(Step(s, PageSelected(selected)), q).pagination
              == Some(Pagination(Render(s, q).pagination.value.pageCount, selected))
  {
  }

  // ---- Re-rendering and the search form's debounced effect ----

  /** Hands each text to `updateQuery`, in order. */
  function SubmitAll(s: AppState, texts: seq<string>): AppState
    decreases texts
  {
    if texts == [] then s else SubmitAll(Step(s, QueryUpdated(texts[0])), texts[1..])
  }

  /**
   * The state once a handler call `e` has settled, with `debouncedQuery` the
   * search form's current debounced text. A change of state renders App again,
   * and with it the search form, whose debounced-submit effect lists the
   * `onSubmit` callback among its dependencies. When that callback is not
   * `stable`, each App render makes a new one, so the effect runs again and
   * submits the debounced text once more; when it is stable, only a change of
   * the debounced text runs the effect, and no handler of App changes that.
   */
  function Settle(s: AppState, debouncedQuery: string, e: Event, stable: bool): AppState {
    var t := Step(s, e);
    if t != s && !stable then SubmitAll(t, SearchBar.Submitted(SearchBar.DebouncedEffects(debouncedQuery)))
    else t
  }

  /**
   * As written (`updateQuery` is a new function on every render): while the
   * debounced text is not blank, any handler call that changes the state ends
   * with that text searched again from page 1, so a page change, or a newer
   * text submitted by the button, is undone at once.
   */
  lemma RerenderResubmitsAsWritten(s: AppState, debouncedQuery: string, e: Event)
    requires !IsBlank(debouncedQuery)
    requires Step(s, e) != s
    ensures Settle(s, debouncedQuery, e, false) == AppState(debouncedQuery, 1, Step(s, e).selectedMovie)
  {
    var t := Step(s, e);
    assert SearchBar.Submitted(SearchBar.DebouncedEffects(debouncedQuery)) == [debouncedQuery];
    assert SubmitAll(t, [debouncedQuery]) == SubmitAll(Step(t, QueryUpdated(debouncedQuery)), []);
  }

  /** The concrete case: on the results for "batman", picking the second page shows the first again. */
  lemma PageChangeRevertedAsWritten()
    ensures Step(AppState("batman", 1, None), PageSelected(1)).page == 2
    ensures Settle(AppState("batman", 1, None), "batman", PageSelected(1), false).page == 1
  {
    assert !IsBlank("batman") by {
      assert TrimStart("batman") == "batman" by { assert !IsWhitespace('b'); }
      assert TrimEnd("batman") == "batman" by { assert !IsWhitespace('n'); }
    }
    RerenderResubmitsAsWritten(AppState("batman", 1, None), "batman", PageSelected(1));
  }

  /**
   * Corrected (a stable `updateQuery`, for instance kept with `useCallback`):
   * a handler call's effect is final whatever the debounced text, so a page
   * change keeps its page and a submitted text stays the search text.
   */
  lemma HandlerFinalWithStableCallback(s: AppState, debouncedQuery: string, e: Event)
    ensures Settle(s, debouncedQuery, e, true) == Step(s, e)
    ensures e.PageSelected? ==> Settle(s, debouncedQuery, e, true).page == e.selected + 1
    ensures e.QueryUpdated? && !IsBlank(e.newQuery) ==> Settle(s, debouncedQuery, e, true).query == e.newQuery
  {
  }
}
