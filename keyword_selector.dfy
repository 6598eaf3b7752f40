/** The keyword picker of the record forms: clicking a keyword selects it
    (at the end of the list) or deselects it. */
module KeywordSelector {
  import opened Domain
  import opened Sequences

  /** `toggleKeyword`: the list handed to `onChange`. */
  function Toggle(selected: seq<Id>, id: Id): seq<Id>
  {
    if id in selected then RemoveAll(selected, id) else selected + [id]
  }

  /** A selected id is removed wherever it occurs; other ids keep their
      order and their number of occurrences. */
  lemma ToggleSelected(selected: seq<Id>, id: Id)
    requires id in selected
    ensures id !in Toggle(selected, id)
    ensures IsSubsequence(Toggle(selected, id), selected)
    ensures forall other :: other != id ==> multiset(Toggle(selected, id))[other] == multiset(selected)[other]
  {
    RemoveAllIsSubsequence(selected, id);
  }

  /** An unselected id is appended; the rest stays as it was. */
  lemma ToggleUnselected(selected: seq<Id>, id: Id)
    requires id !in selected
    ensures Toggle(selected, id) == selected + [id]
    ensures Toggle(selected, id)[..|selected|] == selected && Toggle(selected, id)[|selected|] == id
  {
  }

  /** Selecting an id and deselecting it again gives back exactly the
      original list. */
  lemma ToggleTwiceRestores(selected: seq<Id>, id: Id)
    requires id !in selected
    ensures Toggle(Toggle(selected, id), id) == selected
  {
    RemoveAllOfLast(selected, id);
    RemoveAllAbsent(selected, id);
  }

  /** Deselecting and reselecting keeps the selection but moves the id to
      the end, once. */
  lemma ToggleTwiceMovesToEnd(selected: seq<Id>, id: Id)
    requires id in selected
    ensures Toggle(Toggle(selected, id), id) == RemoveAll(selected, id) + [id]
  {
  }
}
