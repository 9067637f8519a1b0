/** `Ex1SmartSelectionViewModel`: a searchable list of model and annotation categories
    with check boxes, a tri-state "select all", a transparency setting, and a command that
    selects the elements of the checked categories, at most 10 000 of them. */
module Ex1SmartSelection {
  import opened Wrappers
  import opened Seqs
  import opened Text
  import opened Revit

  /** The kinds of category `LoadCategories` tells apart. */
  datatype CategoryType = Model | Annotation | Other

  /** A category of the document's settings; an empty name stands for a null one. */
  datatype Category = Category(name: string, id: ElementId, categoryType: CategoryType, hasParent: bool)

  /** A row of the category list; the command handlers write `isChecked`. */
  class CategoryItem {
    const display: string
    const categoryId: ElementId
    var isChecked: bool

    constructor (display: string, categoryId: ElementId)
      ensures this.display == display && this.categoryId == categoryId && !isChecked
    {
      this.display := display;
      this.categoryId := categoryId;
      isChecked := false;
    }
  }

  function Display(c: CategoryItem): string {
    c.display
  }

  // ---------------------------------------------------------------------------
  // Loading

  /** `LoadCategories`' filter: named, model or annotation, and not a subcategory. */
  predicate Listed(c: Category) {
    c.name != "" && (c.categoryType == Model || c.categoryType == Annotation) && !c.hasParent
  }

  /** The sort key of `StringComparer.OrdinalIgnoreCase`: the upper-cased name. */
  function FoldedName(c: Category): string {
    FoldUpper(c.name)
  }

  /** The listed categories ordered by name, ignoring case as `OrdinalIgnoreCase` does
      (stable). */
  function Loaded(categories: seq<Category>): seq<Category> {
    SortBy(Filter(categories, Listed), ByKey(FoldedName, LexLe))
  }

  /** The loaded list is made of listed categories only, holds every listed one, and is
      in case-insensitive order. */
  lemma LoadedSpec(categories: seq<Category>)
    ensures multiset(Loaded(categories)) == multiset(Filter(categories, Listed))
    ensures forall i :: 0 <= i < |Loaded(categories)| ==>
      Listed(Loaded(categories)[i]) && Loaded(categories)[i] in categories
    ensures forall c :: c in categories && Listed(c) ==> c in Loaded(categories)
    ensures SortedBy(Map(Loaded(categories), FoldedName), LexLe)
    ensures forall i, j :: 0 <= i < j < |Loaded(categories)| ==>
      LeIgnoreCase(Loaded(categories)[i].name, Loaded(categories)[j].name)
  {
    var listed := Filter(categories, Listed);
    FilterSpec(categories, Listed);
    var loaded := Loaded(categories);
    forall i | 0 <= i < |loaded| ensures Listed(loaded[i]) && loaded[i] in categories {
      assert loaded[i] in multiset(listed);
    }
    forall c | c in categories && Listed(c) ensures c in loaded {
      assert c in multiset(loaded);
    }
    SortByKey(listed, FoldedName, LexLe);
    LexLeIsTotalPreorder();
    SortByIsSorted(Map(listed, FoldedName), LexLe);
  }

  /** A fresh, unchecked item for each loaded category, in order. */
  method NewItems(loaded: seq<Category>) returns (items: seq<CategoryItem>)
    ensures |items| == |loaded|
    ensures forall k :: 0 <= k < |items| ==> (fresh(items[k])
      && items[k].display == loaded[k].name && items[k].categoryId == loaded[k].id && !items[k].isChecked)
  {
    items := [];
    for i := 0 to |loaded|
      invariant |items| == i
      invariant forall k :: 0 <= k < i ==> (fresh(items[k])
        && items[k].display == loaded[k].name && items[k].categoryId == loaded[k].id && !items[k].isChecked)
    {
      var item := new CategoryItem(loaded[i].name, loaded[i].id);
      items := items + [item];
    }
  }

  // ---------------------------------------------------------------------------
  // Check states

  /** `items.Where(c => c.IsChecked)`. */
  function CheckedItems(items: seq<CategoryItem>): (r: seq<CategoryItem>)
    reads set c | c in items
    ensures |r| <= |items|
    decreases |items|
  {
    if items == [] then []
    else
      var init := items[..|items| - 1];
      var last := items[|items| - 1];
      CheckedItems(init) + (if last.isChecked then [last] else [])
  }

  /** The checked items are checked items of the list, and every checked item of the list
      is among them. */
  lemma {:induction false} CheckedItemsSpec(items: seq<CategoryItem>)
    ensures forall i :: 0 <= i < |CheckedItems(items)| ==>
      CheckedItems(items)[i].isChecked && CheckedItems(items)[i] in items
    ensures forall i :: 0 <= i < |items| && items[i].isChecked ==> items[i] in CheckedItems(items)
    decreases |items|
  {
    if items != [] {
      var n := |items| - 1;
      var init := items[..n];
      CheckedItemsSpec(init);
      var r := CheckedItems(items);
      var rest := CheckedItems(init);
      assert r == rest + (if items[n].isChecked then [items[n]] else []);
      forall i | 0 <= i < |r| ensures r[i].isChecked && r[i] in items {
        if i < |rest| {
          assert r[i] == rest[i] && rest[i] in init;
        }
      }
      forall i | 0 <= i < |items| && items[i].isChecked ensures items[i] in r {
        if i < n {
          assert items[i] == init[i];
        }
      }
    }
  }

  /** `items.Count(c => c.IsChecked)`. */
  function CheckedCount(items: seq<CategoryItem>): nat
    reads set c | c in items
  {
    |CheckedItems(items)|
  }

  /** No item is checked exactly when the count is 0. */
  lemma NoneCheckedSpec(items: seq<CategoryItem>)
    ensures CheckedCount(items) == 0 <==> forall i :: 0 <= i < |items| ==> !items[i].isChecked
  {
    CheckedItemsSpec(items);
    var r := CheckedItems(items);
    if r != [] {
      var p :| 0 <= p < |items| && items[p] == r[0];
      assert items[p].isChecked;
    }
  }

  /** All items are checked exactly when the count is the length. */
  lemma {:induction false} AllCheckedSpec(items: seq<CategoryItem>)
    ensures CheckedCount(items) == |items| <==> forall i :: 0 <= i < |items| ==> items[i].isChecked
    decreases |items|
  {
    if items != [] {
      var n := |items| - 1;
      var init := items[..n];
      AllCheckedSpec(init);
      assert CheckedCount(items) == CheckedCount(init) + (if items[n].isChecked then 1 else 0);
      if !items[n].isChecked {
        assert CheckedCount(items) < |items|;
      } else if forall i :: 0 <= i < n ==> init[i].isChecked {
        assert CheckedCount(items) == |items|;
        forall i | 0 <= i < |items| ensures items[i].isChecked {
          if i < n {
            assert items[i] == init[i];
          }
        }
      } else {
        var j :| 0 <= j < n && !init[j].isChecked;
        assert CheckedCount(items) != |items| && !items[j].isChecked;
      }
    }
  }

  /** `UpdateSelectAllState`'s rule: false when none is checked, true when all are,
      null otherwise. */
  function SelectAllState(items: seq<CategoryItem>): Option<bool>
    reads set c | c in items
  {
    var checkedCount := CheckedCount(items);
    if checkedCount == 0 then Some(false) else if checkedCount == |items| then Some(true) else None
  }

  /** The tri-state in terms of the items: false for none checked (also for an empty
      list), true for a non-empty list all checked, null for a mixed list. */
  lemma SelectAllStateSpec(items: seq<CategoryItem>)
    ensures SelectAllState(items) == Some(false) <==> forall i :: 0 <= i < |items| ==> !items[i].isChecked
    ensures SelectAllState(items) == Some(true) <==>
      |items| > 0 && forall i :: 0 <= i < |items| ==> items[i].isChecked
    ensures SelectAllState(items) == None <==>
      exists i, j :: 0 <= i < |items| && 0 <= j < |items| && items[i].isChecked && !items[j].isChecked
  {
    NoneCheckedSpec(items);
    AllCheckedSpec(items);
  }

  /** `CategoryView.Any(c => c.IsChecked)`: when Apply, Color and Clear may run. */
  predicate AnyChecked(items: seq<CategoryItem>)
    reads set c | c in items
  {
    exists i :: 0 <= i < |items| && items[i].isChecked
  }

  /** The commands are enabled exactly when the tri-state is not false. */
  lemma AnyCheckedIffNotFalse(items: seq<CategoryItem>)
    ensures AnyChecked(items) <==> SelectAllState(items) != Some(false)
    ensures AnyChecked(items) <==> CheckedItems(items) != []
  {
    SelectAllStateSpec(items);
    CheckedItemsSpec(items);
    if AnyChecked(items) {
      var i :| 0 <= i < |items| && items[i].isChecked;
      assert items[i] in CheckedItems(items);
    }
  }

  // ---------------------------------------------------------------------------
  // Transparency

  const MaxTransparency := 90

  /** `Math.Max(0, Math.Min(90, value))`. */
  function Clamp(value: int): (t: int)
    ensures 0 <= t <= MaxTransparency
    ensures 0 <= value <= MaxTransparency ==> t == value
    ensures value < 0 ==> t == 0
    ensures value > MaxTransparency ==> t == MaxTransparency
  {
    if value < 0 then 0 else if value > MaxTransparency then MaxTransparency else value
  }

  // ---------------------------------------------------------------------------
  // Selecting elements

  const MaxSelection := 10000

  function CategoryIdOf(c: CategoryItem): ElementId {
    c.categoryId
  }

  predicate IsValidId(id: ElementId) {
    id != InvalidElementId
  }

  /** The ids `ApplyUI` collects: for each checked category in order, the ids of its
      elements (as `elementsOf` lists them) other than `InvalidElementId`. */
  function Collected(categoryIds: seq<ElementId>, elementsOf: ElementId -> seq<ElementId>): seq<ElementId>
    decreases |categoryIds|
  {
    if categoryIds == [] then []
    else
      var n := |categoryIds| - 1;
      Collected(categoryIds[..n], elementsOf) + Filter(elementsOf(categoryIds[n]), IsValidId)
  }

  /** A collected id is valid and is an element of one of the categories. */
  lemma {:induction false} CollectedFrom(categoryIds: seq<ElementId>, elementsOf: ElementId -> seq<ElementId>, id: ElementId)
    requires id in Collected(categoryIds, elementsOf)
    ensures id != InvalidElementId
    ensures exists k :: 0 <= k < |categoryIds| && id in elementsOf(categoryIds[k])
    decreases |categoryIds|
  {
    var n := |categoryIds| - 1;
    var init := categoryIds[..n];
    if id in Collected(init, elementsOf) {
      CollectedFrom(init, elementsOf, id);
      var k :| 0 <= k < n && id in elementsOf(init[k]);
      assert init[k] == categoryIds[k];
    } else {
      FilterSpec(elementsOf(categoryIds[n]), IsValidId);
    }
  }

  /** Every valid element id of category `k` is collected. */
  lemma {:induction false} CollectedHas(categoryIds: seq<ElementId>, elementsOf: ElementId -> seq<ElementId>,
                                        k: nat, id: ElementId)
    requires k < |categoryIds| && id in elementsOf(categoryIds[k]) && id != InvalidElementId
    ensures id in Collected(categoryIds, elementsOf)
    decreases |categoryIds|
  {
    var n := |categoryIds| - 1;
    var init := categoryIds[..n];
    if k < n {
      assert init[k] == categoryIds[k];
      CollectedHas(init, elementsOf, k, id);
    } else {
      FilterSpec(elementsOf(categoryIds[n]), IsValidId);
    }
  }

  /** The collected ids are exactly the valid element ids of the categories. */
  lemma CollectedSpec(categoryIds: seq<ElementId>, elementsOf: ElementId -> seq<ElementId>)
    ensures forall id :: id in Collected(categoryIds, elementsOf) <==>
      (id != InvalidElementId && exists k :: 0 <= k < |categoryIds| && id in elementsOf(categoryIds[k]))
  {
    forall id | id in Collected(categoryIds, elementsOf)
      ensures id != InvalidElementId && exists k :: 0 <= k < |categoryIds| && id in elementsOf(categoryIds[k])
    {
      CollectedFrom(categoryIds, elementsOf, id);
    }
    forall id | id != InvalidElementId && exists k :: 0 <= k < |categoryIds| && id in elementsOf(categoryIds[k])
      ensures id in Collected(categoryIds, elementsOf)
    {
      var k :| 0 <= k < |categoryIds| && id in elementsOf(categoryIds[k]);
      CollectedHas(categoryIds, elementsOf, k, id);
    }
  }

  /** `Take(10000)` when there are more than 10 000. */
  function Cap(ids: seq<ElementId>): (r: seq<ElementId>)
    ensures |r| <= MaxSelection
    ensures r <= ids
    ensures r == ids <==> |ids| <= MaxSelection
    ensures |ids| > MaxSelection ==> |r| == MaxSelection
  {
    if |ids| > MaxSelection then ids[..MaxSelection] else ids
  }

  /** What `ApplyUI` does: warns that nothing is checked, or selects `ids`, `capped`
      telling whether the 10 000 warning was shown. */
  datatype Selection = NothingChecked | Selected(ids: seq<ElementId>, capped: bool)

  /** The selection made for a non-empty list of checked categories. */
  function SelectionOf(categoryIds: seq<ElementId>, elementsOf: ElementId -> seq<ElementId>): Selection {
    var all := Collected(categoryIds, elementsOf);
    Selected(Cap(all), |all| > MaxSelection)
  }

  /** `ApplyUI`'s inner loop: the valid ids among `elements` appended in order. */
  method AddValidIds(elementIds: seq<ElementId>, elements: seq<ElementId>) returns (r: seq<ElementId>)
    ensures r == elementIds + Filter(elements, IsValidId)
  {
    r := elementIds;
    for j := 0 to |elements|
      invariant r == elementIds + Filter(elements[..j], IsValidId)
    {
      var id := elements[j];
      ghost var seen := elements[..j];
      assert elements[..j + 1] == seen + [id];
      FilterSnoc(seen, id, IsValidId);
      if id != InvalidElementId {
        r := r + [id];
      }
    }
    assert elements[..|elements|] == elements;
  }

  /** `ApplyUI`'s loops: the ids of the checked categories' elements, in order, without
      `InvalidElementId`, cut to the first 10 000. */
  method SelectElements(categoryIds: seq<ElementId>, elementsOf: ElementId -> seq<ElementId>)
    returns (selection: Selection)
    ensures selection == SelectionOf(categoryIds, elementsOf)
  {
    var elementIds: seq<ElementId> := [];
    for i := 0 to |categoryIds|
      invariant elementIds == Collected(categoryIds[..i], elementsOf)
    {
      assert categoryIds[..i + 1][..i] == categoryIds[..i];
      elementIds := AddValidIds(elementIds, elementsOf(categoryIds[i]));
    }
    assert categoryIds[..|categoryIds|] == categoryIds;
    var capped := false;
    if |elementIds| > MaxSelection {
      capped := true;
      elementIds := elementIds[..MaxSelection];
    }
    selection := Selected(elementIds, capped);
  }

  /** A selection never holds more than 10 000 ids nor an invalid one; it is the whole
      collection unless that is larger, and then its first 10 000 ids. */
  lemma SelectionSpec(categoryIds: seq<ElementId>, elementsOf: ElementId -> seq<ElementId>)
    ensures var s := SelectionOf(categoryIds, elementsOf);
      && |s.ids| <= MaxSelection
      && (forall i :: 0 <= i < |s.ids| ==> s.ids[i] != InvalidElementId)
      && s.ids <= Collected(categoryIds, elementsOf)
      && (s.capped <==> s.ids != Collected(categoryIds, elementsOf))
      && (s.capped ==> s.ids == Collected(categoryIds, elementsOf)[..MaxSelection])
      && (!s.capped ==> s.ids == Collected(categoryIds, elementsOf))
  {
    var all := Collected(categoryIds, elementsOf);
    var s := SelectionOf(categoryIds, elementsOf);
    forall i | 0 <= i < |s.ids| ensures s.ids[i] != InvalidElementId {
      assert s.ids[i] == all[i];
      CollectedFrom(categoryIds, elementsOf, all[i]);
    }
  }

  // ---------------------------------------------------------------------------
  // Search

  /** `Display.Contains(text, OrdinalIgnoreCase)`. */
  predicate Matches(c: CategoryItem, text: string) {
    ContainsIgnoreCase(c.display, text)
  }

  /** The categories a search shows, before ordering: all of them for a blank search. */
  function Found(all: seq<CategoryItem>, searchText: Option<string>): seq<CategoryItem> {
    if IsNullOrWhiteSpace(searchText) then all
    else Filter(all, (c: CategoryItem) => Matches(c, searchText.value))
  }

  /** `ExecuteSearchCommand`'s new list: the found categories ordered by display text. */
  function SearchView(all: seq<CategoryItem>, searchText: Option<string>): seq<CategoryItem> {
    SortBy(Found(all, searchText), ByKey(Display, LexLe))
  }

  /** A search shows exactly the categories that match (every one for a blank search),
      each as often as in the full list, ordered by display text. */
  lemma SearchViewSpec(all: seq<CategoryItem>, searchText: Option<string>)
    ensures multiset(SearchView(all, searchText)) == multiset(Found(all, searchText))
    ensures forall i :: 0 <= i < |SearchView(all, searchText)| ==>
      SearchView(all, searchText)[i] in all
      && (IsNullOrWhiteSpace(searchText) || Matches(SearchView(all, searchText)[i], searchText.value))
    ensures forall i :: 0 <= i < |all| && (IsNullOrWhiteSpace(searchText) || Matches(all[i], searchText.value)) ==>
      all[i] in SearchView(all, searchText)
    ensures SortedBy(Map(SearchView(all, searchText), Display), LexLe)
  {
    var found := Found(all, searchText);
    var view := SearchView(all, searchText);
    if !IsNullOrWhiteSpace(searchText) {
      FilterSpec(all, (c: CategoryItem) => Matches(c, searchText.value));
    }
    forall i | 0 <= i < |view|
      ensures view[i] in all && (IsNullOrWhiteSpace(searchText) || Matches(view[i], searchText.value))
    {
      assert view[i] in multiset(found);
    }
    forall i | 0 <= i < |all| && (IsNullOrWhiteSpace(searchText) || Matches(all[i], searchText.value))
      ensures all[i] in view
    {
      assert all[i] in found;
      assert all[i] in multiset(view);
    }
    SortByKey(found, Display, LexLe);
    LexLeIsTotalPreorder();
    SortByIsSorted(Map(found, Display), LexLe);
  }

  // ---------------------------------------------------------------------------
  // The view model

  class Ex1SmartSelectionViewModel {
    var allCategories: seq<CategoryItem>
    var categoryView: seq<CategoryItem>
    var selectAll: Option<bool>
    var searchText: Option<string>
    var selectedTransparency: int

    /** The transparency stays within the range the dialog offers, and the visible
        categories are among the loaded ones. */
    predicate Valid()
      reads this
    {
      && 0 <= selectedTransparency <= MaxTransparency
      && forall i :: 0 <= i < |categoryView| ==> categoryView[i] in allCategories
    }

    /** The constructor with `LoadCategories`: one unchecked item per listed category, in
        case-insensitive name order, shown in full; "select all" starts false. */
    constructor (categories: seq<Category>)
      ensures Valid()
      ensures |allCategories| == |Loaded(categories)|
      ensures forall k :: 0 <= k < |allCategories| ==> (fresh(allCategories[k])
        && allCategories[k].display == Loaded(categories)[k].name
        && allCategories[k].categoryId == Loaded(categories)[k].id
        && !allCategories[k].isChecked)
      ensures categoryView == allCategories
      ensures selectAll == Some(false) && searchText == None && selectedTransparency == 0
    {
      var items := NewItems(Loaded(categories));
      allCategories := items;
      categoryView := items;
      selectAll := Some(false);
      searchText := None;
      selectedTransparency := 0;
    }

    /** `UpdateSelectAllState`, also the handler every visible item's `IsChecked` change
        runs. */
    method UpdateSelectAllState()
      modifies this
      ensures selectAll == SelectAllState(categoryView)
      ensures allCategories == old(allCategories) && categoryView == old(categoryView)
      ensures searchText == old(searchText) && selectedTransparency == old(selectedTransparency)
    {
      var checkedCount := CheckedCount(categoryView);
      var totalCount := |categoryView|;
      selectAll := if checkedCount == 0 then Some(false) else if checkedCount == totalCount then Some(true) else None;
    }

    /** The `SelectAll` setter: a changed true or false value is written to every visible
        item (each write re-running the handler); null, or the same value, leaves the
        items alone. Either way "select all" ends equal to the value set. */
    method SetSelectAll(value: Option<bool>)
      requires Valid()
      modifies this, set c | c in categoryView
      ensures Valid()
      ensures selectAll == value
      ensures allCategories == old(allCategories) && categoryView == old(categoryView)
      ensures searchText == old(searchText) && selectedTransparency == old(selectedTransparency)
      ensures old(selectAll) != value && value.Some? ==>
        forall i :: 0 <= i < |categoryView| ==> categoryView[i].isChecked == value.value
      ensures old(selectAll) == value || value.None? ==>
        forall i :: 0 <= i < |categoryView| ==> categoryView[i].isChecked == old(categoryView[i].isChecked)
    {
      if selectAll != value {
        selectAll := value;
        if value.Some? {
          var items := categoryView;
          for i := 0 to |items|
            modifies this, set c | c in items
            invariant allCategories == old(allCategories) && categoryView == items
            invariant searchText == old(searchText) && selectedTransparency == old(selectedTransparency)
            invariant forall j :: 0 <= j < i ==> items[j].isChecked == value.value
            invariant i == 0 ==> selectAll == value
            invariant i > 0 ==> selectAll == SelectAllState(items)
          {
            items[i].isChecked := value.value;
            UpdateSelectAllState();
          }
          if items != [] {
            SelectAllStateSpec(items);
          }
        }
      }
    }

    /** Whether the Apply, Color and Clear commands may run. */
    predicate CommandsEnabled()
      reads this, set c | c in categoryView
    {
      AnyChecked(categoryView)
    }

    /** The `SelectedTransparency` setter: the value clamped to [0, 90]. */
    method SetSelectedTransparency(value: int)
      requires Valid()
      modifies this
      ensures Valid()
      ensures selectedTransparency == Clamp(value)
      ensures allCategories == old(allCategories) && categoryView == old(categoryView)
      ensures selectAll == old(selectAll) && searchText == old(searchText)
    {
      if selectedTransparency != value {
        selectedTransparency := Clamp(value);
      }
    }

    /** `ApplyUI`: nothing to select without a checked category; otherwise the ids of the
        checked categories' elements, capped at 10 000. */
    method ApplyUI(elementsOf: ElementId -> seq<ElementId>) returns (selection: Selection)
      ensures CheckedItems(categoryView) == [] ==> selection == NothingChecked
      ensures CheckedItems(categoryView) != [] ==>
        selection == SelectionOf(Map(CheckedItems(categoryView), CategoryIdOf), elementsOf)
    {
      var selectedCategories := CheckedItems(categoryView);
      if selectedCategories == [] {
        return NothingChecked;
      }
      selection := SelectElements(Map(selectedCategories, CategoryIdOf), elementsOf);
    }

    /** `ExecuteSearchCommand`: the view becomes the matching categories ordered by display
        text, and "select all" is recomputed for it. */
    method ExecuteSearch()
      requires Valid()
      modifies this
      ensures Valid()
      ensures categoryView == SearchView(allCategories, searchText)
      ensures selectAll == SelectAllState(categoryView)
      ensures allCategories == old(allCategories) && searchText == old(searchText)
      ensures selectedTransparency == old(selectedTransparency)
    {
      SearchViewSpec(allCategories, searchText);
      categoryView := SearchView(allCategories, searchText);
      UpdateSelectAllState();
    }

    /** The `SearchText` setter: a changed text runs the search. */
    method SetSearchText(value: Option<string>)
      requires Valid()
      modifies this
      ensures Valid()
      ensures searchText == value
      ensures old(searchText) != value ==>
        categoryView == SearchView(allCategories, value) && selectAll == SelectAllState(categoryView)
      ensures old(searchText) == value ==> categoryView == old(categoryView) && selectAll == old(selectAll)
      ensures allCategories == old(allCategories) && selectedTransparency == old(selectedTransparency)
    {
      if searchText != value {
        searchText := value;
        ExecuteSearch();
      }
    }
  }
}
