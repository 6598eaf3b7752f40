/** The booth list screen: a free-text search over booth names and codes
    and a keyword chip narrow the list of active booths. */
module BoothSearch {
  import opened Common
  import opened Domain
  import opened Strings
  import opened Sequences
  import BoothService

  type BoothItem = BoothService.BoothListResponse

  /** The lower-cased name or code contains the query. */
  predicate MatchesQuery(b: BoothItem, query: string)
  {
    Contains(ToLower(b.name), query) || Contains(ToLower(b.code), query)
  }

  /** `b.keywords.some((kw) => kw.id === keywordId)`. */
  predicate HasKeyword(b: BoothItem, keywordId: Id)
  {
    exists k | k in b.keywords :: k.id == keywordId
  }

  /** `filteredBooths`: the search filter applies only when the search text
      is not blank after trimming, the keyword filter only when a chip is
      selected. */
  function FilteredBooths(booths: seq<BoothItem>, search: string, selected: Option<Id>): seq<BoothItem>
  {
    var query := ToLower(Trim(search));
    var afterSearch := if Trim(search) != [] then Filter(booths, (b: BoothItem) => MatchesQuery(b, query)) else booths;
    if selected.Some? then Filter(afterSearch, (b: BoothItem) => HasKeyword(b, selected.value)) else afterSearch
  }

  /** The combined condition a booth must meet to be listed. */
  predicate Listed(b: BoothItem, search: string, selected: Option<Id>)
  {
    (IsBlank(search) || MatchesQuery(b, ToLower(Trim(search)))) &&
    (selected.None? || HasKeyword(b, selected.value))
  }

  /** Both filters together are one filter by `Listed`. */
  lemma FilteredIsOneFilter(booths: seq<BoothItem>, search: string, selected: Option<Id>)
    ensures FilteredBooths(booths, search, selected) == Filter(booths, (b: BoothItem) => Listed(b, search, selected))
  {
    TrimEmptyIffBlank(search);
    var query := ToLower(Trim(search));
    var bySearch := (b: BoothItem) => MatchesQuery(b, query);
    var listed := (b: BoothItem) => Listed(b, search, selected);
    if selected.Some? {
      var byKeyword := (b: BoothItem) => HasKeyword(b, selected.value);
      if Trim(search) != [] {
        FilterFilter(booths, bySearch, byKeyword, listed);
      } else {
        FilterSame(booths, byKeyword, listed);
      }
    } else if Trim(search) != [] {
      FilterSame(booths, bySearch, listed);
    } else {
      FilterAll(booths, listed);
    }
  }

  /** The list shows exactly the booths that match the search and carry
      the selected keyword, in the order the server sent them, each as
      often as it was sent. */
  lemma FilteredBoothsSpec(booths: seq<BoothItem>, search: string, selected: Option<Id>)
    ensures var r := FilteredBooths(booths, search, selected);
      IsSubsequence(r, booths) &&
      (forall b :: b in r <==> b in booths && Listed(b, search, selected)) &&
      (forall b :: b in r ==> multiset(r)[b] == multiset(booths)[b])
  {
    FilteredIsOneFilter(booths, search, selected);
    FilterIsSubsequence(booths, (b: BoothItem) => Listed(b, search, selected));
  }

  /** With a blank search and no chip selected every booth is listed. */
  lemma NoFilterListsAll(booths: seq<BoothItem>, search: string)
    requires IsBlank(search)
    ensures FilteredBooths(booths, search, None) == booths
  {
    TrimEmptyIffBlank(search);
  }

  /** Applying the keyword filter before the search filter lists the same
      booths in the same order. */
  lemma FilterOrderIrrelevant(booths: seq<BoothItem>, search: string, keywordId: Id)
    requires !IsBlank(search)
    ensures var query := ToLower(Trim(search));
      FilteredBooths(booths, search, Some(keywordId)) ==
      Filter(Filter(booths, (b: BoothItem) => HasKeyword(b, keywordId)), (b: BoothItem) => MatchesQuery(b, query))
  {
    TrimEmptyIffBlank(search);
    var query := ToLower(Trim(search));
    FilterCommutes(booths, (b: BoothItem) => MatchesQuery(b, query), (b: BoothItem) => HasKeyword(b, keywordId));
  }

  /** The search ignores the case of a booth's name and code: names and
      codes that agree once lower-cased match the same queries. */
  lemma SearchIgnoresCase(b: BoothItem, n1: string, n2: string, c1: string, c2: string, query: string)
    requires ToLower(n1) == ToLower(n2) && ToLower(c1) == ToLower(c2)
    ensures MatchesQuery(b.(name := n1, code := c1), query) == MatchesQuery(b.(name := n2, code := c2), query)
  {
  }

  /** The list ignores the case and the surrounding whitespace of what was
      typed: two search texts that trim and lower-case alike list the same
      booths. */
  lemma SearchTextCaseIrrelevant(booths: seq<BoothItem>, s1: string, s2: string, selected: Option<Id>)
    requires ToLower(Trim(s1)) == ToLower(Trim(s2))
    ensures FilteredBooths(booths, s1, selected) == FilteredBooths(booths, s2, selected)
  {
    assert |Trim(s1)| == |ToLower(Trim(s1))| == |Trim(s2)|;
  }

  /** A keyword chip click: the selected chip is deselected, any other chip
      becomes the selection. */
  function ChipClicked(selected: Option<Id>, keywordId: Id): (r: Option<Id>)
    ensures r.None? <==> selected == Some(keywordId)
    ensures r.Some? ==> r.value == keywordId
  {
    if selected == Some(keywordId) then None else Some(keywordId)
  }

  /** Two clicks on the same chip leave it selected exactly when it was
      selected before; a different chip selected before is lost. */
  lemma ChipClickedTwice(selected: Option<Id>, keywordId: Id)
    ensures ChipClicked(ChipClicked(selected, keywordId), keywordId) ==
      (if selected == Some(keywordId) then Some(keywordId) else None)
  {
  }
}
