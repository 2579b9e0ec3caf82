/**
 * The search and filter panel (components/SearchFilters.tsx): the search
 * term, the selected category, the selected tags and the duration filter
 * are component state, and the panel reports a filter object to its parent.
 */
module SearchFilters {
  import opened Wrappers
  import opened Text
  import opened Seqs

  /** `{ category?, tags?, duration? }`: an absent field is `None`. */
  datatype Filters = Filters(category: Option<String>, tags: Option<seq<String>>, duration: Option<String>)

  function NotTag(tag: String): String -> bool {
    t => t != tag
  }

  /** `toggleTag(tag)`: a selected tag is filtered out, any other appended. */
  function Toggled(selected: seq<String>, tag: String): seq<String> {
    if tag in selected then Filter(selected, NotTag(tag)) else selected + [tag]
  }

  /** The object `handleFilterChange` reports: empty selections are left out. */
  function FiltersOf(category: String, tags: seq<String>, duration: String): Filters {
    Filters(
      if category == [] then None else Some(category),
      if |tags| > 0 then Some(tags) else None,
      if duration == [] then None else Some(duration))
  }

  /** Toggling a tag that is not selected appends it at the end. */
  lemma ToggleAbsent(selected: seq<String>, tag: String)
    requires tag !in selected
    ensures Toggled(selected, tag) == selected + [tag]
    ensures |Toggled(selected, tag)| == |selected| + 1
  {
  }

  /**
   * Toggling a selected tag removes every occurrence of it and keeps every
   * other tag, in order.
   */
  lemma TogglePresent(selected: seq<String>, tag: String)
    requires tag in selected
    ensures tag !in Toggled(selected, tag)
    ensures forall t :: t != tag ==> (t in Toggled(selected, tag) <==> t in selected)
    ensures IsSubsequence(Toggled(selected, tag), selected)
    ensures |Toggled(selected, tag)| < |selected|
  {
    var r := Toggled(selected, tag);
    forall t ensures t in r <==> t in selected && t != tag {
      FilterMemberIff(selected, NotTag(tag), t);
    }
    FilterIsSubsequence(selected, NotTag(tag));
    FilterShorter(selected, NotTag(tag), tag);
  }

  /** Dropping an element that occurs makes the list shorter. */
  lemma {:induction false} FilterShorter(s: seq<String>, p: String -> bool, x: String)
    requires x in s && !p(x)
    ensures |Filter(s, p)| < |s|
  {
    if s[0] != x {
      FilterShorter(s[1..], p, x);
    }
  }

  /** Toggling a tag that is not selected, then toggling it again, restores the selection. */
  lemma ToggleTwice(selected: seq<String>, tag: String)
    requires tag !in selected
    ensures Toggled(Toggled(selected, tag), tag) == selected
  {
    assert tag in selected + [tag];
    FilterAppend(selected, [tag], NotTag(tag));
    FilterKeepsAll(selected, NotTag(tag));
    assert Filter([tag], NotTag(tag)) == [];
  }

  /** Each field is present exactly when its selection is not empty, and then holds the selection. */
  lemma FiltersOmitEmpty(category: String, tags: seq<String>, duration: String)
    ensures var f := FiltersOf(category, tags, duration);
      && (f.category.None? <==> category == []) && (f.category.Some? ==> f.category.value == category)
      && (f.tags.None? <==> tags == []) && (f.tags.Some? ==> f.tags.value == tags)
      && (f.duration.None? <==> duration == []) && (f.duration.Some? ==> f.duration.value == duration)
  {
  }

  /** The panel's state. */
  class FilterPanel {
    var searchTerm: String
    var selectedCategory: String
    var selectedTags: seq<String>
    var durationFilter: String

    /** Every selection starts empty. */
    constructor ()
      ensures searchTerm == [] && selectedCategory == [] && selectedTags == [] && durationFilter == []
    {
      searchTerm := [];
      selectedCategory := [];
      selectedTags := [];
      durationFilter := [];
    }

    /** `handleSearch(term)`: the term is kept and passed on unchanged. */
    method HandleSearch(term: String) returns (reported: String)
      modifies this`searchTerm
      ensures searchTerm == term && reported == term
    {
      searchTerm := term;
      reported := term;
    }

    /** `handleFilterChange()`: the filter object built from the current selections. */
    method HandleFilterChange() returns (filters: Filters)
      ensures filters == FiltersOf(selectedCategory, selectedTags, durationFilter)
    {
      var category := if selectedCategory != [] then Some(selectedCategory) else None;
      var tags := if |selectedTags| > 0 then Some(selectedTags) else None;
      var duration := if durationFilter != [] then Some(durationFilter) else None;
      filters := Filters(category, tags, duration);
    }

    /** `toggleTag(tag)`. */
    method ToggleTag(tag: String)
      modifies this`selectedTags
      ensures selectedTags == Toggled(old(selectedTags), tag)
    {
      var updated := if tag in selectedTags then Filter(selectedTags, NotTag(tag)) else selectedTags + [tag];
      selectedTags := updated;
    }

    /** `clearFilters()`: the three selections are emptied and the empty filter is reported. */
    method ClearFilters() returns (filters: Filters)
      modifies this`selectedCategory, this`selectedTags, this`durationFilter
      ensures selectedCategory == [] && selectedTags == [] && durationFilter == []
      ensures filters == Filters(None, None, None)
      ensures filters == FiltersOf(selectedCategory, selectedTags, durationFilter)
    {
      selectedCategory := [];
      selectedTags := [];
      durationFilter := [];
      filters := Filters(None, None, None);
    }
  }
}
