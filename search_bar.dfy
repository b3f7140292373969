/** src/components/SearchBar.tsx: the query text and tab the bar keeps, the guard that
    only non-blank queries are searched, and the popular-search chips. */
module SearchBar {
  import opened Common
  import opened JsString

  datatype Tab = Manual | JobDescription

  /** The chips offered under the manual tab. */
  const PopularSearches: seq<string> := [
    "Senior React Native Engineer in London with Fintech experience",
    "Product Marketing Manager for B2B SaaS in New York",
    "DevOps Lead expert in Kubernetes and AWS",
    "Head of Sales for Early Stage Startup (Remote)"
  ]

  /** `query.trim()` is truthy. */
  predicate HasText(query: string) {
    Trim(query) != []
  }

  /** A query counts as non-blank exactly when one of its characters is not
      whitespace. */
  lemma HasTextIff(query: string)
    ensures HasText(query) <==> exists i :: 0 <= i < |query| && !IsWhitespace(query[i])
  {
    TrimEmptyIff(query);
  }

  /** The search button is disabled while loading and for a blank query. */
  function SearchDisabled(isLoading: bool, query: string): (r: bool)
    ensures r <==> isLoading || forall i :: 0 <= i < |query| ==> IsWhitespace(query[i])
  {
    HasTextIff(query);
    isLoading || !HasText(query)
  }

  /** The popular searches are offered only on the manual tab when not loading. */
  predicate ShowPopular(tab: Tab, isLoading: bool) {
    tab == Manual && !isLoading
  }

  /** A string whose last character is not whitespace is non-blank. */
  lemma TrailingTextHasText(s: string)
    requires |s| > 0 && !IsWhitespace(s[|s| - 1])
    ensures HasText(s)
  {
    TrimEmptyIff(s);
  }

  /** Every chip ends with a letter or a closing parenthesis. */
  lemma ChipEndsWithText(i: nat)
    requires i < |PopularSearches|
    ensures |PopularSearches[i]| > 0 && !IsWhitespace(PopularSearches[i][|PopularSearches[i]| - 1])
  {
  }

  /** Every chip is a non-blank query. */
  lemma ChipsHaveText()
    ensures forall i :: 0 <= i < |PopularSearches| ==> HasText(PopularSearches[i])
  {
    forall i | 0 <= i < |PopularSearches| ensures HasText(PopularSearches[i]) {
      ChipEndsWithText(i);
      TrailingTextHasText(PopularSearches[i]);
    }
  }

  /** Whenever the chips are on screen, clicking any of them leaves the search button
      enabled: the bar is not loading and the chip's text is a non-blank query. */
  lemma ShownChipEnablesSearch(tab: Tab, isLoading: bool, index: nat)
    requires ShowPopular(tab, isLoading)
    requires index < |PopularSearches|
    ensures !SearchDisabled(isLoading, PopularSearches[index])
  {
    ChipsHaveText();
    HasTextIff(PopularSearches[index]);
  }

  class Bar {
    var query: string
    var activeTab: Tab

    constructor ()
      ensures query == [] && activeTab == Manual
    {
      query := [];
      activeTab := Manual;
    }

    /** Typing in the text area. */
    method SetQuery(text: string)
      modifies this`query
      ensures query == text
    {
      query := text;
    }

    /** A click on a tab. */
    method SetTab(tab: Tab)
      modifies this`activeTab
      ensures activeTab == tab
    {
      activeTab := tab;
    }

    /** A click on the chip at `index`: the query becomes exactly that chip's text,
        which is non-blank. */
    method ChoosePopular(index: nat)
      requires index < |PopularSearches|
      modifies this`query
      ensures query == PopularSearches[index]
      ensures HasText(query)
    {
      query := PopularSearches[index];
      ChipsHaveText();
    }

    /** `handleSubmit`: the query, untrimmed, is handed to the search exactly when it
        holds a non-whitespace character; nothing changes. */
    method Submit() returns (searched: Option<string>)
      ensures searched.Some? <==> exists i :: 0 <= i < |query| && !IsWhitespace(query[i])
      ensures searched.Some? ==> searched.value == query
    {
      HasTextIff(query);
      if HasText(query) {
        searched := Some(query);
      } else {
        searched := None;
      }
    }
  }
}
