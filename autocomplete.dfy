/**
 * The stock search box (frontend/src/components/StockSearchAutocomplete.tsx):
 * the suggestions list, whether the dropdown is shown, the loading flag and
 * the keyboard-highlighted index, and how the query, the search results,
 * focus, outside clicks, selection and the keys change them.
 */
module Autocomplete {
  import opened Wrappers
  import opened Text
  import opened SearchStock

  /** The keys `handleKeyDown` distinguishes; every other key is `OtherKey`. */
  datatype Key = ArrowDown | ArrowUp | Enter | Escape | OtherKey

  /** The component's React state. */
  datatype UiState = UiState(suggestions: seq<StockSearchResult>, showSuggestions: bool, loading: bool, selectedIndex: int)

  /** The state the component mounts with. */
  const Initial := UiState([], false, false, -1)

  /** The highlight is -1 or a suggestion, and the dropdown is only ever shown over two or more suggestions. */
  predicate Inv(s: UiState) {
    && -1 <= s.selectedIndex < |s.suggestions|
    && (s.showSuggestions ==> |s.suggestions| > 1)
  }

  /** What the render shows: the dropdown, when enabled, shown and holding more than one result. */
  predicate DropdownVisible(disableAutocomplete: bool, s: UiState) {
    !disableAutocomplete && s.showSuggestions && |s.suggestions| > 1
  }

  /** A query too short to search: blank after trimming, or under two characters. */
  predicate ShortQuery(value: string) {
    IsBlank(JavaScript, value) || |value| < 2
  }

  /**
   * The query effect's synchronous part: a short query clears and hides the
   * suggestions; a longer one leaves them as they are and, when enabled,
   * starts a search.
   */
  function QueryChanged(disableAutocomplete: bool, s: UiState, value: string): (r: UiState)
    ensures Inv(s) ==> Inv(r)
    ensures ShortQuery(value) ==> r.suggestions == [] && !r.showSuggestions && r.selectedIndex == -1
    ensures !ShortQuery(value) ==>
      r.suggestions == s.suggestions && r.showSuggestions == s.showSuggestions && r.selectedIndex == s.selectedIndex
    ensures r.loading <==> s.loading || (!ShortQuery(value) && !disableAutocomplete)
  {
    if ShortQuery(value) then s.(suggestions := [], showSuggestions := false, selectedIndex := -1)
    else if disableAutocomplete then s
    else s.(loading := true)
  }

  /**
   * The debounced callback once `searchStock` has answered: the results
   * replace the suggestions, nothing is highlighted, loading ends, and the
   * dropdown opens only over two or more results.
   */
  function ResultsArrived(s: UiState, results: seq<StockSearchResult>): (r: UiState)
    ensures Inv(r)
    ensures r.suggestions == results && !r.loading && r.selectedIndex == -1
    ensures r.showSuggestions <==> |results| > 1
  {
    UiState(results, |results| > 1, false, -1)
  }

  /** `onFocus`. */
  function Focused(disableAutocomplete: bool, s: UiState): UiState {
    if !disableAutocomplete && |s.suggestions| > 1 then s.(showSuggestions := true) else s
  }

  /** A mousedown outside the box; the listener is only installed while the dropdown is shown. */
  function ClickedOutside(disableAutocomplete: bool, s: UiState): UiState {
    if s.showSuggestions && !disableAutocomplete then s.(showSuggestions := false, selectedIndex := -1) else s
  }

  /** The state `handleSelect` leaves: nothing suggested, nothing shown, nothing highlighted. */
  function AfterSelect(s: UiState): UiState {
    s.(suggestions := [], showSuggestions := false, selectedIndex := -1)
  }

  /** What a key press does: the new state, the suggestion it selects, and whether the default was prevented. */
  datatype KeyOutcome = KeyOutcome(state: UiState, chosen: Option<StockSearchResult>, prevented: bool)

  /** Whether `handleKeyDown` returns at once. */
  predicate KeysIgnored(disableAutocomplete: bool, s: UiState) {
    disableAutocomplete || !s.showSuggestions || |s.suggestions| == 0
  }

  /**
   * `handleKeyDown`: ignored while closed; the arrows move the highlight
   * within the list, Enter picks a suggestion and clears the list, Escape
   * hides it, and no other key does anything.
   */
  function KeyDown(disableAutocomplete: bool, s: UiState, key: Key): (r: KeyOutcome)
    ensures Inv(s) ==> Inv(r.state)
    ensures KeysIgnored(disableAutocomplete, s) || key == OtherKey ==> r == KeyOutcome(s, None, false)
    ensures r.chosen.Some? <==> !KeysIgnored(disableAutocomplete, s) && key == Enter
    ensures r.chosen.Some? ==> r.chosen.value in s.suggestions && r.state == AfterSelect(s)
    ensures r.chosen.None? ==> r.state.suggestions == s.suggestions
  {
    if KeysIgnored(disableAutocomplete, s) then KeyOutcome(s, None, false)
    else match key
      case ArrowDown =>
        var i := if s.selectedIndex < |s.suggestions| - 1 then s.selectedIndex + 1 else s.selectedIndex;
        KeyOutcome(s.(selectedIndex := i), None, true)
      case ArrowUp =>
        KeyOutcome(s.(selectedIndex := if s.selectedIndex > 0 then s.selectedIndex - 1 else -1), None, true)
      case Enter =>
        if 0 <= s.selectedIndex < |s.suggestions| then KeyOutcome(AfterSelect(s), Some(s.suggestions[s.selectedIndex]), true)
        else KeyOutcome(AfterSelect(s), Some(s.suggestions[0]), true)
      case Escape =>
        KeyOutcome(s.(showSuggestions := false, selectedIndex := -1), None, true)
      case OtherKey =>
        KeyOutcome(s, None, false)
  }

  // ---------------------------------------------------------------------------
  // Properties

  /** Every event keeps the highlight in range and the dropdown over two or more suggestions. */
  lemma EventsKeepInv(disableAutocomplete: bool, s: UiState, value: string, results: seq<StockSearchResult>, key: Key)
    requires Inv(s)
    ensures Inv(QueryChanged(disableAutocomplete, s, value))
    ensures Inv(ResultsArrived(s, results))
    ensures Inv(Focused(disableAutocomplete, s))
    ensures Inv(ClickedOutside(disableAutocomplete, s))
    ensures Inv(AfterSelect(s))
    ensures Inv(KeyDown(disableAutocomplete, s, key).state)
  {
  }

  /** ArrowDown moves the highlight one down, and stays on the last suggestion. */
  lemma ArrowDownSteps(disableAutocomplete: bool, s: UiState)
    requires Inv(s) && !KeysIgnored(disableAutocomplete, s)
    ensures var o := KeyDown(disableAutocomplete, s, ArrowDown);
      && o.state == s.(selectedIndex := o.state.selectedIndex)
      && (s.selectedIndex < |s.suggestions| - 1 ==> o.state.selectedIndex == s.selectedIndex + 1)
      && (s.selectedIndex == |s.suggestions| - 1 ==> o.state.selectedIndex == s.selectedIndex)
      && o.chosen.None? && o.prevented
  {
  }

  /** ArrowUp moves the highlight one up; from the first suggestion or from nothing it goes to nothing. */
  lemma ArrowUpSteps(disableAutocomplete: bool, s: UiState)
    requires Inv(s) && !KeysIgnored(disableAutocomplete, s)
    ensures var o := KeyDown(disableAutocomplete, s, ArrowUp);
      && o.state == s.(selectedIndex := o.state.selectedIndex)
      && (s.selectedIndex > 0 ==> o.state.selectedIndex == s.selectedIndex - 1)
      && (s.selectedIndex <= 0 ==> o.state.selectedIndex == -1)
      && o.chosen.None? && o.prevented
  {
  }

  /** ArrowUp undoes ArrowDown unless the highlight was already on the last suggestion. */
  lemma DownThenUp(disableAutocomplete: bool, s: UiState)
    requires Inv(s) && !KeysIgnored(disableAutocomplete, s) && s.selectedIndex < |s.suggestions| - 1
    ensures KeyDown(disableAutocomplete, KeyDown(disableAutocomplete, s, ArrowDown).state, ArrowUp).state == s
  {
  }

  /** The state after pressing ArrowDown `n` times. */
  function PressDown(disableAutocomplete: bool, s: UiState, n: nat): UiState
    decreases n
  {
    if n == 0 then s else PressDown(disableAutocomplete, KeyDown(disableAutocomplete, s, ArrowDown).state, n - 1)
  }

  /** From any highlight, `n` ArrowDowns land `n` further down, but never past the last suggestion. */
  lemma {:induction false} PressDownClamps(disableAutocomplete: bool, s: UiState, n: nat)
    requires Inv(s) && !KeysIgnored(disableAutocomplete, s)
    ensures var t := PressDown(disableAutocomplete, s, n);
      && t == s.(selectedIndex := t.selectedIndex)
      && t.selectedIndex == if s.selectedIndex + n < |s.suggestions| - 1 then s.selectedIndex + n else |s.suggestions| - 1
    decreases n
  {
    if n > 0 {
      var s' := KeyDown(disableAutocomplete, s, ArrowDown).state;
      PressDownClamps(disableAutocomplete, s', n - 1);
    }
  }

  /**
   * With the dropdown open, Enter always selects a suggestion: the highlighted
   * one, or the first when nothing is highlighted; it then clears the list.
   */
  lemma EnterSelects(disableAutocomplete: bool, s: UiState)
    requires Inv(s) && !KeysIgnored(disableAutocomplete, s)
    ensures var o := KeyDown(disableAutocomplete, s, Enter);
      && o.chosen == Some(if s.selectedIndex >= 0 then s.suggestions[s.selectedIndex] else s.suggestions[0])
      && o.state == AfterSelect(s) && o.state.suggestions == [] && !DropdownVisible(disableAutocomplete, o.state)
      && o.prevented
  {
  }

  /** Escape hides the dropdown and clears the highlight, keeping the suggestions for the next focus. */
  lemma EscapeHides(disableAutocomplete: bool, s: UiState)
    requires Inv(s) && !KeysIgnored(disableAutocomplete, s)
    ensures var o := KeyDown(disableAutocomplete, s, Escape);
      && o.state.suggestions == s.suggestions && !o.state.showSuggestions && o.state.selectedIndex == -1
      && o.state.loading == s.loading && o.chosen.None? && o.prevented
      && Focused(disableAutocomplete, o.state).showSuggestions
  {
  }

  /** With autocomplete off, the dropdown hidden or no suggestions, no key changes anything or is intercepted. */
  lemma KeysIgnoredWhenClosed(disableAutocomplete: bool, s: UiState, key: Key)
    requires KeysIgnored(disableAutocomplete, s)
    ensures KeyDown(disableAutocomplete, s, key) == KeyOutcome(s, None, false)
  {
  }

  /** A short query clears and hides the suggestions, whether or not autocomplete is on. */
  lemma ShortQueryClears(disableAutocomplete: bool, s: UiState, value: string)
    requires ShortQuery(value)
    ensures var t := QueryChanged(disableAutocomplete, s, value);
      t.suggestions == [] && !DropdownVisible(disableAutocomplete, t) && t.selectedIndex == -1
  {
  }

  /** Once results arrive the dropdown is visible exactly when autocomplete is on and there are two or more. */
  lemma VisibleOnlyForSeveral(disableAutocomplete: bool, s: UiState, results: seq<StockSearchResult>)
    ensures var t := ResultsArrived(s, results);
      && (DropdownVisible(disableAutocomplete, t) <==> !disableAutocomplete && |results| > 1)
      && t.suggestions == results && t.selectedIndex == -1 && !t.loading
  {
  }

  /** A query `searchStock` refuses, such as a blank one, leaves nothing to suggest. */
  lemma RefusedQuerySuggestsNothing(s: UiState, value: string, polygonKey: string, search: (string, string) -> SearchReply)
    requires Refused(value, polygonKey)
    ensures ResultsArrived(s, Search(value, polygonKey, search)).suggestions == []
    ensures !ResultsArrived(s, Search(value, polygonKey, search)).showSuggestions
  {
  }

  // ---------------------------------------------------------------------------
  // The component

  /** The mounted component: its props that the handlers read, and its state. */
  class SearchBox {
    const disableAutocomplete: bool
    const polygonKey: string
    var suggestions: seq<StockSearchResult>
    var showSuggestions: bool
    var loading: bool
    var selectedIndex: int

    function State(): UiState
      reads this
    {
      UiState(suggestions, showSuggestions, loading, selectedIndex)
    }

    ghost predicate Valid()
      reads this
    {
      Inv(State())
    }

    constructor (disableAutocomplete: bool, polygonKey: string)
      ensures Valid() && State() == Initial
      ensures this.disableAutocomplete == disableAutocomplete && this.polygonKey == polygonKey
    {
      this.disableAutocomplete := disableAutocomplete;
      this.polygonKey := polygonKey;
      suggestions := [];
      showSuggestions := false;
      loading := false;
      selectedIndex := -1;
    }

    /** The query effect when `value` changes: clear on a short query, otherwise start loading. */
    method OnQuery(value: string)
      requires Valid()
      modifies this
      ensures Valid() && State() == QueryChanged(disableAutocomplete, old(State()), value)
    {
      EventsKeepInv(disableAutocomplete, State(), value, [], OtherKey);
      if IsBlank(JavaScript, value) || |value| < 2 {
        suggestions := [];
        showSuggestions := false;
        selectedIndex := -1;
        return;
      }
      if disableAutocomplete {
        return;
      }
      loading := true;
    }

    /** The debounced callback: store what `searchStock` answered for `value`. */
    method OnSearchDone(value: string, search: (string, string) -> SearchReply)
      requires Valid()
      modifies this
      ensures Valid() && State() == ResultsArrived(old(State()), Search(value, polygonKey, search))
    {
      var results := Search(value, polygonKey, search);
      suggestions := results;
      showSuggestions := |results| > 1;
      selectedIndex := -1;
      loading := false;
    }

    /** `onFocus`. */
    method OnFocus()
      requires Valid()
      modifies this
      ensures Valid() && State() == Focused(disableAutocomplete, old(State()))
    {
      if !disableAutocomplete && |suggestions| > 1 {
        showSuggestions := true;
      }
    }

    /** The outside-click listener. */
    method OnClickOutside()
      requires Valid()
      modifies this
      ensures Valid() && State() == ClickedOutside(disableAutocomplete, old(State()))
    {
      if showSuggestions && !disableAutocomplete {
        showSuggestions := false;
        selectedIndex := -1;
      }
    }

    /**
     * `handleSelect`: report the ticker to `onChange` and the ticker and the
     * name to `onSelect`, then clear the list.
     */
    method HandleSelect(result: StockSearchResult) returns (changed: string, selected: (string, string))
      requires Valid()
      modifies this
      ensures Valid() && State() == AfterSelect(old(State()))
      ensures changed == result.ticker && selected == (result.ticker, result.name)
    {
      changed := result.ticker;
      selected := (result.ticker, result.name);
      suggestions := [];
      showSuggestions := false;
      selectedIndex := -1;
    }

    /** `handleKeyDown`: what was selected, if anything, and whether the default was prevented. */
    method HandleKeyDown(key: Key) returns (chosen: Option<StockSearchResult>, prevented: bool)
      requires Valid()
      modifies this
      ensures Valid()
      ensures var o := KeyDown(disableAutocomplete, old(State()), key);
        State() == o.state && chosen == o.chosen && prevented == o.prevented
    {
      EventsKeepInv(disableAutocomplete, State(), [], [], key);
      chosen, prevented := None, false;
      if disableAutocomplete || !showSuggestions || |suggestions| == 0 {
        return;
      }
      match key {
        case ArrowDown =>
          prevented := true;
          if selectedIndex < |suggestions| - 1 {
            selectedIndex := selectedIndex + 1;
          }
        case ArrowUp =>
          prevented := true;
          selectedIndex := if selectedIndex > 0 then selectedIndex - 1 else -1;
        case Enter =>
          prevented := true;
          var pick := if 0 <= selectedIndex < |suggestions| then suggestions[selectedIndex] else suggestions[0];
          var _, _ := HandleSelect(pick);
          chosen := Some(pick);
        case Escape =>
          prevented := true;
          showSuggestions := false;
          selectedIndex := -1;
        case OtherKey =>
      }
    }
  }
}
