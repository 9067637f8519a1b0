/** `SmartSelectionViewModel`: the category names found in a scope (the active view or
    the whole project), a check box per category with a "select all", and a search box
    that filters the visible list. */
module SmartSelection {
  import opened Wrappers
  import opened Seqs
  import opened Text

  /** A row of the category list (`CategoryItem`); the "select all" setter writes
      `isChecked`. */
  class CategoryItem {
    const display: string
    var isChecked: bool

    constructor (display: string)
      ensures this.display == display && !isChecked
    {
      this.display := display;
      isChecked := false;
    }
  }

  /** `SelectionScopeType`. */
  datatype SelectionScope = CurrentView | EntireProject | SelectedViews

  // ---------------------------------------------------------------------------
  // Category names

  /** `!string.IsNullOrEmpty(name)` on `e.Category?.Name`. */
  predicate Named(name: Option<string>) {
    name.Some? && name.value != ""
  }

  function NameOf(name: Option<string>): string {
    name.GetOr("")
  }

  function Same(s: string): string {
    s
  }

  /** The names of a collector's element categories, non-empty, without repeats (the first
      of each kept), in ordinal order. */
  function CategoryNames(names: seq<Option<string>>): seq<string> {
    SortBy(DistinctBy(Map(Filter(names, Named), NameOf), Same), LexLe)
  }

  /** The category list of a scope: the active view's element categories, or the whole
      project's for both other scopes. */
  function NamesFor(scope: SelectionScope, inView: seq<Option<string>>, inProject: seq<Option<string>>): seq<string> {
    match scope
    case CurrentView => CategoryNames(inView)
    case EntireProject => CategoryNames(inProject)
    case SelectedViews => CategoryNames(inProject)
  }

  /** "Selected views" lists what "entire project" lists. */
  lemma SelectedViewsIsEntireProject(inView: seq<Option<string>>, inProject: seq<Option<string>>)
    ensures NamesFor(SelectedViews, inView, inProject) == NamesFor(EntireProject, inView, inProject)
  {
  }

  /** The names are non-empty, pairwise different and in order; each comes from an element,
      and each element's non-empty category name is listed. */
  lemma CategoryNamesSpec(names: seq<Option<string>>)
    ensures forall i :: 0 <= i < |CategoryNames(names)| ==>
      CategoryNames(names)[i] != "" && Some(CategoryNames(names)[i]) in names
    ensures forall i, j :: 0 <= i < j < |CategoryNames(names)| ==> CategoryNames(names)[i] != CategoryNames(names)[j]
    ensures SortedBy(CategoryNames(names), LexLe)
    ensures forall k :: 0 <= k < |names| && Named(names[k]) ==> names[k].value in CategoryNames(names)
  {
    CategoryNamesSound(names);
    CategoryNamesCover(names);
    var unique := DistinctBy(Map(Filter(names, Named), NameOf), Same);
    PermutationKeepsDistinctKeys(unique, CategoryNames(names), Same);
    LexLeIsTotalPreorder();
    SortByIsSorted(unique, LexLe);
  }

  /** Each listed name is a non-empty category name of some element. */
  lemma CategoryNamesSound(names: seq<Option<string>>)
    ensures forall i :: 0 <= i < |CategoryNames(names)| ==>
      CategoryNames(names)[i] != "" && Some(CategoryNames(names)[i]) in names
  {
    var named := Filter(names, Named);
    FilterSpec(names, Named);
    var strings := Map(named, NameOf);
    var unique := DistinctBy(strings, Same);
    var sorted := CategoryNames(names);
    forall i | 0 <= i < |sorted| ensures sorted[i] != "" && Some(sorted[i]) in names {
      assert sorted[i] in multiset(unique);
      var p :| 0 <= p < |strings| && strings[p] == sorted[i];
      assert named[p] in names && Named(named[p]);
    }
  }

  /** Each element's non-empty category name is listed. */
  lemma CategoryNamesCover(names: seq<Option<string>>)
    ensures forall k :: 0 <= k < |names| && Named(names[k]) ==> names[k].value in CategoryNames(names)
  {
    var named := Filter(names, Named);
    FilterSpec(names, Named);
    var strings := Map(named, NameOf);
    var unique := DistinctBy(strings, Same);
    var sorted := CategoryNames(names);
    forall k | 0 <= k < |names| && Named(names[k]) ensures names[k].value in sorted {
      assert names[k] in named;
      var p :| 0 <= p < |named| && named[p] == names[k];
      assert strings[p] == names[k].value;
      DistinctByCovers(strings, Same, strings[p]);
      var q :| 0 <= q < |unique| && Same(unique[q]) == Same(strings[p]);
      assert unique[q] in multiset(sorted);
    }
  }

  /** Fresh, unchecked items for the names, in order. */
  method NewItems(names: seq<string>) returns (items: seq<CategoryItem>)
    ensures |items| == |names|
    ensures forall k :: 0 <= k < |items| ==> (fresh(items[k]) && items[k].display == names[k] && !items[k].isChecked)
  {
    items := [];
    for i := 0 to |names|
      invariant |items| == i
      invariant forall k :: 0 <= k < i ==> (fresh(items[k]) && items[k].display == names[k] && !items[k].isChecked)
    {
      var item := new CategoryItem(names[i]);
      items := items + [item];
    }
  }

  // ---------------------------------------------------------------------------
  // Filtering

  /** What the collection view hands its filter: a category row or some other object. */
  datatype Bound = CategoryRow(item: CategoryItem) | OtherObject

  /** `FilterCategories`: a blank search accepts everything; otherwise a category whose
      display text contains the search, ignoring case, and nothing else. */
  predicate FilterCategories(searchText: Option<string>, bound: Bound) {
    if IsNullOrWhiteSpace(searchText) then true
    else if bound.CategoryRow? then ContainsIgnoreCase(bound.item.display, searchText.value)
    else false
  }

  /** The categories the filtered view shows. */
  function Visible(all: seq<CategoryItem>, searchText: Option<string>): seq<CategoryItem> {
    Filter(all, (c: CategoryItem) => FilterCategories(searchText, CategoryRow(c)))
  }

  /** A blank search shows every category; otherwise exactly those whose display text
      contains the search, ignoring case, in their list order. Objects that are not
      categories never pass a non-blank search. */
  lemma VisibleSpec(all: seq<CategoryItem>, searchText: Option<string>)
    ensures IsNullOrWhiteSpace(searchText) ==> Visible(all, searchText) == all
    ensures !IsNullOrWhiteSpace(searchText) ==>
      (forall i :: 0 <= i < |Visible(all, searchText)| ==>
        Visible(all, searchText)[i] in all
        && ContainsIgnoreCase(Visible(all, searchText)[i].display, searchText.value))
      && (forall i :: 0 <= i < |all| && ContainsIgnoreCase(all[i].display, searchText.value) ==>
        all[i] in Visible(all, searchText))
      && !FilterCategories(searchText, OtherObject)
  {
    var p := (c: CategoryItem) => FilterCategories(searchText, CategoryRow(c));
    if IsNullOrWhiteSpace(searchText) {
      FilterAll(all, p);
    } else {
      FilterSpec(all, p);
    }
  }

  // ---------------------------------------------------------------------------
  // Check states

  /** `_allCategories.All(c => c.IsChecked)`. */
  predicate AllChecked(items: seq<CategoryItem>)
    reads set c | c in items
  {
    forall i :: 0 <= i < |items| ==> items[i].isChecked
  }

  // ---------------------------------------------------------------------------
  // The view model

  class SmartSelectionViewModel {
    var allCategories: seq<CategoryItem>
    var selectAll: bool
    var searchText: Option<string>
    var selectionScope: SelectionScope

    /** The categories the list shows for the current search. */
    function CategoryView(): seq<CategoryItem>
      reads this
    {
      Visible(allCategories, searchText)
    }

    /** The `SelectAll` setter: every category, shown or not, gets the value. */
    method SetSelectAll(value: bool)
      modifies this, set c | c in allCategories
      ensures selectAll == value
      ensures forall i :: 0 <= i < |allCategories| ==> allCategories[i].isChecked == value
      ensures allCategories == old(allCategories) && searchText == old(searchText)
      ensures selectionScope == old(selectionScope)
    {
      selectAll := value;
      var items := allCategories;
      for i := 0 to |items|
        modifies set c | c in items
        invariant forall j :: 0 <= j < i ==> items[j].isChecked == value
      {
        items[i].isChecked := value;
      }
    }

    /** `OnCategoryItemChanged` for an `IsChecked` change: "select all" becomes whether
        every category is checked. */
    method OnCategoryItemChanged()
      modifies this
      ensures selectAll == AllChecked(allCategories)
      ensures allCategories == old(allCategories) && searchText == old(searchText)
      ensures selectionScope == old(selectionScope)
    {
      var allChecked := true;
      for i := 0 to |allCategories|
        invariant allChecked == forall j :: 0 <= j < i ==> allCategories[j].isChecked
      {
        allChecked := allChecked && allCategories[i].isChecked;
      }
      if allChecked != selectAll {
        selectAll := allChecked;
      }
    }

    /** `UpdateCategoriesBasedOnScope`: the list is refilled with fresh, unchecked items for
        the scope's category names; "select all" is then set to whether all are checked,
        which holds only for an empty list. */
    method UpdateCategoriesBasedOnScope(inView: seq<Option<string>>, inProject: seq<Option<string>>)
      modifies this
      ensures |allCategories| == |NamesFor(selectionScope, inView, inProject)|
      ensures forall k :: 0 <= k < |allCategories| ==> (fresh(allCategories[k])
        && allCategories[k].display == NamesFor(selectionScope, inView, inProject)[k]
        && !allCategories[k].isChecked)
      ensures selectAll <==> allCategories == []
      ensures searchText == old(searchText) && selectionScope == old(selectionScope)
    {
      var newCategories := NewItems(NamesFor(selectionScope, inView, inProject));
      allCategories := newCategories;
      var allChecked := forall i :: 0 <= i < |newCategories| ==> newCategories[i].isChecked;
      if newCategories != [] {
        assert !newCategories[0].isChecked;
      }
      SetSelectAll(allChecked);
    }

    /** The `SelectionScope` setter: the new scope's categories replace the list. */
    method SetSelectionScope(scope: SelectionScope, inView: seq<Option<string>>, inProject: seq<Option<string>>)
      modifies this
      ensures selectionScope == scope
      ensures |allCategories| == |NamesFor(scope, inView, inProject)|
      ensures forall k :: 0 <= k < |allCategories| ==> (fresh(allCategories[k])
        && allCategories[k].display == NamesFor(scope, inView, inProject)[k]
        && !allCategories[k].isChecked)
      ensures selectAll <==> allCategories == []
      ensures searchText == old(searchText)
    {
      selectionScope := scope;
      UpdateCategoriesBasedOnScope(inView, inProject);
    }

    /** The `SearchText` setter: the view is filtered by the new text. */
    method SetSearchText(value: Option<string>)
      modifies this
      ensures searchText == value && CategoryView() == Visible(allCategories, value)
      ensures allCategories == old(allCategories) && selectAll == old(selectAll)
      ensures selectionScope == old(selectionScope)
    {
      searchText := value;
    }
  }
}
