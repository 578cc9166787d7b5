/**
 * The product catalogue's search box (`ProductPage`): the suggestion list and
 * its keyboard index, the arrival of suggestions, clearing the search and
 * the search itself.
 *
 * The debounce and `distinctUntilChanged` stages of the suggestion stream
 * are not modelled: `QueryEmitted` is a query that made it through them. The
 * 200 ms timer of `hideSuggestions` is the pair `hidePending` / `HideFires`:
 * once scheduled, the timer may fire between any two other events, and a
 * `HideTimer` event with nothing scheduled changes nothing.
 */
module ProductPage {
  import opened Wrappers
  import opened Text
  import opened Domain

  datatype SearchState = SearchState(
    products: seq<Product>,
    allProducts: seq<Product>,
    isLoading: bool,
    searchQuery: string,
    suggestions: seq<Product>,
    showSuggestions: bool,
    isLoadingSuggestions: bool,
    selectedIndex: int,
    hidePending: bool)

  const Initial: SearchState := SearchState([], [], true, "", [], false, false, -1, false)

  /** What the page asks the product service for. */
  datatype Request = Suggestions(query: string) | Search(query: string)

  datatype Step = Step(state: SearchState, request: Option<Request>)

  datatype Key = ArrowDown | ArrowUp | Enter | Escape | OtherKey

  /** Whenever the list is shown it is non-empty and the index is -1 (nothing selected) or a position in it. */
  ghost predicate Inv(st: SearchState) {
    st.showSuggestions ==> |st.suggestions| > 0 && -1 <= st.selectedIndex < |st.suggestions|
  }

  lemma InitialInv()
    ensures Inv(Initial)
  {
  }

  /** `hideSuggestions()`: schedules the timer. */
  function HideSuggestions(st: SearchState): (r: SearchState)
    ensures r == st.(hidePending := true)
  {
    st.(hidePending := true)
  }

  /** The timer of `hideSuggestions` fires: the list is hidden and the selection cleared. */
  function HideFires(st: SearchState): (r: SearchState)
    ensures !r.showSuggestions && r.selectedIndex == -1 && !r.hidePending
    ensures r.suggestions == st.suggestions && r.searchQuery == st.searchQuery && r.products == st.products
    ensures r.(showSuggestions := st.showSuggestions, selectedIndex := st.selectedIndex, hidePending := st.hidePending) == st
  {
    st.(showSuggestions := false, selectedIndex := -1, hidePending := false)
  }

  /** `performSearch()`: a blank query restores the full catalogue without a request; any other is sent. */
  function PerformSearch(st: SearchState): (r: Step)
    ensures IsBlank(st.searchQuery) ==> r == Step(st.(products := st.allProducts), None)
    ensures !IsBlank(st.searchQuery) ==> r == Step(st.(isLoading := true), Some(Search(st.searchQuery)))
  {
    TrimEmptyIffBlank(st.searchQuery);
    if |Trim(st.searchQuery)| == 0 then Step(st.(products := st.allProducts), None)
    else Step(st.(isLoading := true), Some(Search(st.searchQuery)))
  }

  /** `selectSuggestion(s)`: its name becomes the query, the list is to be hidden, and the search runs. */
  function SelectSuggestion(st: SearchState, s: Product): (r: Step)
    ensures r.state.searchQuery == s.name && r.state.hidePending
    ensures r == PerformSearch(HideSuggestions(st.(searchQuery := s.name)))
  {
    PerformSearch(HideSuggestions(st.(searchQuery := s.name)))
  }

  /** `onSearchKeyDown(event)`. */
  function KeyDown(st: SearchState, key: Key): (r: Step)
    requires Inv(st)
    ensures !st.showSuggestions ==> r == Step(st, None)
    ensures st.showSuggestions && key == ArrowDown ==>
      r == Step(st.(selectedIndex := if st.selectedIndex + 1 < |st.suggestions| - 1 then st.selectedIndex + 1 else |st.suggestions| - 1), None)
    ensures st.showSuggestions && key == ArrowUp ==>
      r == Step(st.(selectedIndex := if st.selectedIndex - 1 > -1 then st.selectedIndex - 1 else -1), None)
    ensures st.showSuggestions && key == Enter && st.selectedIndex >= 0 ==>
      r == SelectSuggestion(st, st.suggestions[st.selectedIndex])
    ensures st.showSuggestions && key == Enter && st.selectedIndex < 0 ==>
      r == if IsBlank(st.searchQuery) then Step(st, None) else PerformSearch(st)
    ensures st.showSuggestions && key == Escape ==> r == Step(HideSuggestions(st), None)
    ensures key == OtherKey ==> r == Step(st, None)
  {
    if !st.showSuggestions then Step(st, None)
    else match key
      case ArrowDown =>
        var next := st.selectedIndex + 1;
        var last := |st.suggestions| - 1;
        Step(st.(selectedIndex := if next < last then next else last), None)
      case ArrowUp =>
        var prev := st.selectedIndex - 1;
        Step(st.(selectedIndex := if prev > -1 then prev else -1), None)
      case Enter =>
        if st.selectedIndex >= 0 then SelectSuggestion(st, st.suggestions[st.selectedIndex])
        else
          TrimEmptyIffBlank(st.searchQuery);
          if |Trim(st.searchQuery)| > 0 then PerformSearch(st) else Step(st, None)
      case Escape => Step(HideSuggestions(st), None)
      case OtherKey => Step(st, None)
  }

  /** The arrows keep the index within `[-1, |suggestions| - 1]` and change nothing else. */
  lemma ArrowsKeepIndexInRange(st: SearchState, key: Key)
    requires Inv(st) && st.showSuggestions && (key == ArrowDown || key == ArrowUp)
    ensures var r := KeyDown(st, key);
      && -1 <= r.state.selectedIndex < |st.suggestions|
      && r.state == st.(selectedIndex := r.state.selectedIndex)
      && r.request.None?
  {
  }

  /** Arrow down then arrow up returns to where the index was, unless it was already on the last entry. */
  lemma DownThenUp(st: SearchState)
    requires Inv(st) && st.showSuggestions && st.selectedIndex < |st.suggestions| - 1
    ensures KeyDown(KeyDown(st, ArrowDown).state, ArrowUp).state == st
  {
  }

  /** Enter on a selected suggestion searches for its name (or restores the catalogue when that name is blank). */
  lemma EnterSearchesSelectedName(st: SearchState)
    requires Inv(st) && st.showSuggestions && st.selectedIndex >= 0
    ensures var name := st.suggestions[st.selectedIndex].name;
      var r := KeyDown(st, Enter);
      && r.state.searchQuery == name
      && (IsBlank(name) ==> r.request.None? && r.state.products == st.allProducts)
      && (!IsBlank(name) ==> r.request == Some(Search(name)))
  {
  }

  /** A query through the debounce stage: the empty one clears the list, any other asks for suggestions. */
  function QueryEmitted(st: SearchState, query: string): (r: Step)
    ensures query == "" ==>
      r == Step(st.(suggestions := [], showSuggestions := false, isLoadingSuggestions := false), None)
    ensures query != "" ==> r == Step(st.(isLoadingSuggestions := true), Some(Suggestions(query)))
  {
    if query == "" then Step(st.(suggestions := [], showSuggestions := false, isLoadingSuggestions := false), None)
    else Step(st.(isLoadingSuggestions := true), Some(Suggestions(query)))
  }

  /** Suggestions arrived: shown exactly when there are some, with nothing selected. */
  function SuggestionsArrived(st: SearchState, list: seq<Product>): (r: SearchState)
    ensures r.suggestions == list && (r.showSuggestions <==> |list| > 0)
    ensures r.selectedIndex == -1 && !r.isLoadingSuggestions
    ensures Inv(r)
    ensures r.(suggestions := st.suggestions, showSuggestions := st.showSuggestions,
               isLoadingSuggestions := st.isLoadingSuggestions, selectedIndex := st.selectedIndex) == st
  {
    st.(suggestions := list, showSuggestions := |list| > 0, isLoadingSuggestions := false, selectedIndex := -1)
  }

  /** The suggestion request failed. */
  function SuggestionsFailed(st: SearchState): (r: SearchState)
    ensures r.suggestions == [] && !r.showSuggestions && !r.isLoadingSuggestions
    ensures r.selectedIndex == st.selectedIndex
    ensures r.(suggestions := st.suggestions, showSuggestions := st.showSuggestions,
               isLoadingSuggestions := st.isLoadingSuggestions) == st
  {
    st.(suggestions := [], showSuggestions := false, isLoadingSuggestions := false)
  }

  /** `clearSearch()`: empty query and list, hidden, and the full catalogue back. */
  function ClearSearch(st: SearchState): (r: SearchState)
    ensures r.searchQuery == "" && r.suggestions == [] && !r.showSuggestions
    ensures r.products == st.allProducts && r.allProducts == st.allProducts
    ensures r.(searchQuery := st.searchQuery, suggestions := st.suggestions,
               showSuggestions := st.showSuggestions, products := st.products) == st
  {
    st.(searchQuery := "", suggestions := [], showSuggestions := false, products := st.allProducts)
  }

  /** Clearing and then searching sends nothing and shows the full catalogue. */
  lemma ClearThenSearchRestores(st: SearchState)
    ensures PerformSearch(ClearSearch(st)) == Step(ClearSearch(st), None)
  {
    var c := ClearSearch(st);
    assert IsBlank(c.searchQuery);
    assert c.(products := c.allProducts) == c;
  }

  /** Every event the page reacts to. */
  datatype Event =
    | Loaded(products: seq<Product>)
    | Input(value: string)
    | QueryReached(query: string)
    | SuggestionsIn(list: seq<Product>)
    | SuggestionsError
    | KeyPressed(key: Key)
    | HideTimer
    | Clear
    | Results(products: seq<Product>)
    | SearchError

  function Apply(st: SearchState, e: Event): (r: Step)
    requires Inv(st)
  {
    match e
    case Loaded(products) => Step(st.(products := products, allProducts := products, isLoading := false), None)
    case Input(value) => Step(st.(searchQuery := value), None)
    case QueryReached(query) => QueryEmitted(st, query)
    case SuggestionsIn(list) => Step(SuggestionsArrived(st, list), None)
    case SuggestionsError => Step(SuggestionsFailed(st), None)
    case KeyPressed(key) => KeyDown(st, key)
    case HideTimer => Step(if st.hidePending then HideFires(st) else st, None)
    case Clear => Step(ClearSearch(st), None)
    case Results(products) => Step(st.(products := products, isLoading := false), None)
    case SearchError => Step(st.(isLoading := false), None)
  }

  /** Every key keeps the invariant. */
  lemma KeyDownKeepsInv(st: SearchState, key: Key)
    requires Inv(st)
    ensures Inv(KeyDown(st, key).state)
  {
    if st.showSuggestions && key == Enter && st.selectedIndex >= 0 {
      var s := st.suggestions[st.selectedIndex];
      assert KeyDown(st, key).state.suggestions == st.suggestions;
      assert KeyDown(st, key).state.showSuggestions == st.showSuggestions;
      assert KeyDown(st, key).state.selectedIndex == st.selectedIndex;
    }
  }

  /** Every event keeps the invariant, so the index Enter reads is always a position in the list. */
  lemma ApplyKeepsInv(st: SearchState, e: Event)
    requires Inv(st)
    ensures Inv(Apply(st, e).state)
  {
    match e
    case KeyPressed(key) => KeyDownKeepsInv(st, key);
    case _ =>
  }

  function Run(st: SearchState, events: seq<Event>): (r: SearchState)
    requires Inv(st)
    ensures Inv(r)
    decreases |events|
  {
    if |events| == 0 then st
    else
      ApplyKeepsInv(st, events[0]);
      Run(Apply(st, events[0]).state, events[1..])
  }

  /** From the initial state, whatever happens, a shown list has a valid selection. */
  lemma {:induction false} ReachableStatesKeepIndexInRange(events: seq<Event>)
    ensures var st := Run(Initial, events);
      st.showSuggestions ==> -1 <= st.selectedIndex < |st.suggestions|
  {
    InitialInv();
  }
}
