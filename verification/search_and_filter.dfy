/** src/components/SearchAndFilter.tsx: the search box and category select
    of the landing page, whose state (the term and the category) lives in
    src/pages/Index.tsx, with the "clear filters" button and the badges
    naming the active filters. */
module SearchAndFilter {
  import opened Records
  import Directory

  /** `searchTerm || selectedCategory !== "all"`. */
  predicate HasActiveFilters(term: string, category: string)
  {
    term != "" || category != Directory.AllCategories
  }

  /** What the bar shows besides the inputs. */
  datatype FilterBar = FilterBar(
    clearButton: bool,
    searchBadge: Option<string>,
    categoryBadge: Option<string>,
    filteredCount: nat,
    totalSites: nat)

  /** The clear button under `hasActiveFilters &&`; the badges under
      `hasActiveFilters &&` and then `searchTerm &&` or
      `selectedCategory !== "all" &&`; "Showing {filteredCount} of {totalSites}". */
  function Bar(term: string, category: string, totalSites: nat, filteredCount: nat): (b: FilterBar)
    ensures b.clearButton <==> term != "" || category != "all"
    ensures b.searchBadge.Some? <==> term != ""
    ensures b.searchBadge.Some? ==> b.searchBadge.value == term
    ensures b.categoryBadge.Some? <==> category != "all"
    ensures b.categoryBadge.Some? ==> b.categoryBadge.value == category
    ensures b.filteredCount == filteredCount && b.totalSites == totalSites
  {
    var active := HasActiveFilters(term, category);
    FilterBar(
      active,
      if active && term != "" then Some(term) else None,
      if active && category != Directory.AllCategories then Some(category) else None,
      filteredCount,
      totalSites)
  }

  /** The bar the landing page shows for its loaded sites. */
  function BarFor(sites: seq<Site>, term: string, category: string): (b: FilterBar)
    ensures b.filteredCount <= b.totalSites == |sites|
  {
    Bar(term, category, |sites|, |Directory.FilteredSites(sites, term, category)|)
  }

  /** The landing page's `searchTerm` and `selectedCategory`, which the bar
      changes through the setters it is handed. */
  class FilterState {
    var searchTerm: string
    var selectedCategory: string

    /** `useState("")` and `useState("all")`. */
    constructor ()
      ensures searchTerm == "" && selectedCategory == "all"
      ensures !HasActiveFilters(searchTerm, selectedCategory)
    {
      searchTerm := "";
      selectedCategory := Directory.AllCategories;
    }

    /** The search box's `onChange`. */
    method OnSearchChange(term: string)
      modifies this`searchTerm
      ensures searchTerm == term
    {
      searchTerm := term;
    }

    /** The select's `onValueChange`. */
    method OnCategoryChange(category: string)
      modifies this`selectedCategory
      ensures selectedCategory == category
    {
      selectedCategory := category;
    }

    /** `clearFilters`: the term becomes "" and the category "all", so no
        filter is active any more. */
    method ClearFilters()
      modifies this
      ensures searchTerm == "" && selectedCategory == "all"
      ensures !HasActiveFilters(searchTerm, selectedCategory)
    {
      OnSearchChange("");
      OnCategoryChange(Directory.AllCategories);
    }
  }

  /** Once the filters are cleared the bar shows no clear button and no
      badge, and every loaded site is counted as shown. */
  lemma ClearedBarShowsEverything(sites: seq<Site>)
    ensures !HasActiveFilters("", "all")
    ensures var b := BarFor(sites, "", "all");
      !b.clearButton && b.searchBadge.None? && b.categoryBadge.None? && b.filteredCount == b.totalSites
  {
    Directory.NoFiltersShowAll(sites);
  }
}
