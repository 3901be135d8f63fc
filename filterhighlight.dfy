/** The state and the matching rule of js/ui/filter-highlight.js: a toggle
    plus an optional category and an optional unlock type, combined with AND. */
module FilterHighlight {
  import opened Wrappers
  import opened Seqs
  import opened Techs

  /** A selector value as stored: `value && value !== 'all'` keeps it, anything
      else (null, "", "all") becomes null. */
  function Normalise(value: string): (r: Option<string>)
    ensures r.None? <==> value == "" || value == "all"
    ensures r.Some? ==> r.value == value
  {
    if value != "" && value != "all" then Some(value) else None
  }

  /** `techMatchesFilters` for given selectors: a selected category must be
      one of the record's categories, and a selected unlock type must be a key
      of its unlocks by type. */
  predicate Matches(category: Option<string>, unlock: Option<string>, t: Tech)
  {
    (category.None? || category.value in t.category) &&
    (unlock.None? || unlock.value in Keys(t.unlocksByType))
  }

  /** With nothing selected every record matches. */
  lemma NothingSelectedMatchesAll(t: Tech)
    ensures Matches(None, None, t)
  {
  }

  /** The two selectors combine with AND. */
  lemma MatchesBoth(category: Option<string>, unlock: Option<string>, t: Tech)
    ensures Matches(category, unlock, t) <==> Matches(category, None, t) && Matches(None, unlock, t)
  {
  }

  /** The module state. A stored selector is never "" or "all". */
  class FilterHighlighter {
    var filterHighlightActive: bool
    var highlightedCategory: Option<string>
    var highlightedUnlock: Option<string>
    var allTechs: seq<Tech>

    ghost predicate Valid()
      reads this
    {
      highlightedCategory != Some("") && highlightedUnlock != Some("") &&
      highlightedCategory != Some("all") && highlightedUnlock != Some("all")
    }

    constructor ()
      ensures Valid()
      ensures !filterHighlightActive && highlightedCategory.None? && highlightedUnlock.None? && allTechs == []
    {
      filterHighlightActive := false;
      highlightedCategory := None;
      highlightedUnlock := None;
      allTechs := [];
    }

    /** `initFilterHighlight`; a missing list is []. */
    method InitFilterHighlight(techs: seq<Tech>)
      modifies this
      ensures allTechs == techs
      ensures filterHighlightActive == old(filterHighlightActive)
      ensures highlightedCategory == old(highlightedCategory) && highlightedUnlock == old(highlightedUnlock)
    {
      allTechs := techs;
    }

    /** `isFilterHighlightActive`: the toggle is on and some selector is set. */
    predicate IsFilterHighlightActive()
      reads this
    {
      filterHighlightActive && (highlightedCategory.Some? || highlightedUnlock.Some?)
    }

    /** `setFilterHighlightState`; null selectors are "". */
    method SetFilterHighlightState(active: bool, category: string, unlock: string)
      modifies this
      ensures Valid()
      ensures filterHighlightActive == active
      ensures highlightedCategory == Normalise(category) && highlightedUnlock == Normalise(unlock)
      ensures allTechs == old(allTechs)
      ensures IsFilterHighlightActive() <==>
        active && ((category != "" && category != "all") || (unlock != "" && unlock != "all"))
    {
      filterHighlightActive := active;
      highlightedCategory := Normalise(category);
      highlightedUnlock := Normalise(unlock);
    }

    /** `techMatchesFilters` against the stored selectors. */
    predicate TechMatchesFilters(t: Tech)
      reads this
    {
      Matches(highlightedCategory, highlightedUnlock, t)
    }

    /** The state part of `clearFilterHighlight`. */
    method ClearFilterHighlight()
      modifies this
      ensures Valid()
      ensures !filterHighlightActive && highlightedCategory.None? && highlightedUnlock.None?
      ensures allTechs == old(allTechs)
      ensures !IsFilterHighlightActive()
      ensures forall t :: TechMatchesFilters(t)
    {
      filterHighlightActive := false;
      highlightedCategory := None;
      highlightedUnlock := None;
    }

    /** `updateTechs`; a missing list is []. The result says whether the
        highlight is scheduled to be re-applied: the toggle is on and a
        selector is set. */
    method UpdateTechs(techs: seq<Tech>) returns (reapply: bool)
      requires Valid()
      modifies this
      ensures allTechs == techs
      ensures filterHighlightActive == old(filterHighlightActive)
      ensures highlightedCategory == old(highlightedCategory) && highlightedUnlock == old(highlightedUnlock)
      ensures reapply == IsFilterHighlightActive()
    {
      allTechs := techs;
      reapply := filterHighlightActive && (highlightedCategory.Some? || highlightedUnlock.Some?);
    }
  }
}
