/**
 * The explorer map's derived views: the category and continent filter
 * toggles, the wonder filter with its case-insensitive search, the pins
 * shown and the progress totals.
 */
module ExplorerMap {
  import opened Wrappers
  import opened Seqs
  import opened Text
  import opened ExplorerTypes
  import ExplorerSlice

  /** The value a filter button dispatches: choosing the active value clears it. */
  function NextFilter<T(==)>(current: Option<T>, chosen: Option<T>): (next: Option<T>)
    ensures current == chosen ==> next.None?
    ensures current != chosen ==> next == chosen
  {
    if current == chosen then None else chosen
  }

  /** Pressing the same button twice from no filter comes back to no filter. */
  lemma FilterTogglesBack<T>(chosen: T)
    ensures NextFilter(NextFilter(None, Some(chosen)), Some(chosen)) == None
  {
  }

  /** `!searchQuery || name.toLowerCase().includes(q) || country.toLowerCase().includes(q)`. */
  predicate MatchesSearch(w: Wonder, query: string)
  {
    query == "" || Contains(Lower(w.name), Lower(query)) || Contains(Lower(w.country), Lower(query))
  }

  /** The `filteredWonders` predicate: all three conditions hold. */
  predicate Matches(w: Wonder, category: Option<WonderCategory>, continent: Option<WonderContinent>, query: string)
  {
    (category.None? || w.category == category.value)
    && (continent.None? || w.continent == continent.value)
    && MatchesSearch(w, query)
  }

  /** `filteredWonders`: exactly the matching wonders, in catalogue order. */
  function FilteredWonders(wonders: seq<Wonder>, category: Option<WonderCategory>,
                           continent: Option<WonderContinent>, query: string): (r: seq<Wonder>)
    ensures IsSubsequence(r, wonders)
    ensures forall i :: 0 <= i < |r| ==> r[i] in wonders && Matches(r[i], category, continent, query)
    ensures forall i :: 0 <= i < |wonders| && Matches(wonders[i], category, continent, query) ==> wonders[i] in r
  {
    Filter(wonders, (w: Wonder) => Matches(w, category, continent, query))
  }

  /** With no category, no continent and an empty query, every wonder is shown. */
  lemma NoFilterKeepsAll(wonders: seq<Wonder>)
    ensures FilteredWonders(wonders, None, None, "") == wonders
  {
    FilterKeepsAll(wonders, (w: Wonder) => Matches(w, None, None, ""));
  }

  /** The search ignores the case of ASCII letters in the query. */
  lemma SearchIgnoresCase(w: Wonder, query: string)
    ensures MatchesSearch(w, query) <==> MatchesSearch(w, Lower(query))
  {
    LowerIdempotent(query);
  }

  lemma LowerIdempotent(s: string)
    ensures Lower(Lower(s)) == Lower(s)
  {
  }

  /** `filteredWonders.slice(0, 20)`: the first min(20, n) are pinned. */
  function Pins(filtered: seq<Wonder>): (pins: seq<Wonder>)
    ensures |pins| <= 20 && |pins| <= |filtered|
    ensures |filtered| > 20 ==> |pins| == 20
    ensures pins == filtered[..|pins|]
    ensures |filtered| <= 20 ==> pins == filtered
  {
    Take(filtered, 20)
  }

  /**
   * `studentProgress?.totalWonders || 196`: a missing record and a stored 0
   * both show 196. (The visited count shown is `JourneyMap.WondersVisited`.)
   */
  function TotalShown(progress: Option<StudentProgress>): (t: int)
    ensures progress.None? || progress.value.totalWonders == 0 ==> t == ExplorerSlice.TotalWonders
    ensures progress.Some? && progress.value.totalWonders != 0 ==> t == progress.value.totalWonders
    ensures t != 0
  {
    if progress.Some? && progress.value.totalWonders != 0 then progress.value.totalWonders
    else ExplorerSlice.TotalWonders
  }
}
