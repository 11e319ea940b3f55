/**
 * `useTableControlState`
 * (client/src/app/shared/hooks/use-table-controls/useTableControlState.ts):
 * the composition of the filter, sort, pagination, selection and expansion
 * hooks into one table state. The hooks themselves are not part of this
 * model; what they produce (filtered, sorted and current-page items) is
 * passed in, and the model states how this hook counts the extra columns,
 * applies its defaults, projects sort values into column order, finds the
 * initial sort index and bypasses pagination.
 */
module TableControlState {
  import opened Common

  /** `expandableVariant`: `"single"`, `"compound"` or `null` (no expansion). */
  datatype ExpandableVariant = Single | Compound | NoExpansion

  datatype Direction = Asc | Desc

  /** `initialSort` as given by the caller: a column key and a direction. */
  datatype InitialSort = InitialSort(columnKey: string, direction: Direction)

  /** The initial sort handed to the sort hook: a column index and a direction. */
  datatype SortIndex = SortIndex(index: int, direction: Direction)

  /** A table item; the hook only relies on its `name`. */
  datatype Item<D> = Item(name: string, data: D)

  /**
   * The arguments of the hook. Optional arguments are `None` when left out
   * (`undefined`); `columnNames` is the ordered list of (key, label) pairs.
   * `getSortValues` and the filter storage key are passed separately or not at all.
   */
  datatype Args<D, F> = Args(
    items: seq<Item<D>>,
    columnNames: seq<(string, string)>,
    isSelectable: Option<bool>,
    expandableVariant: Option<ExpandableVariant>,
    hasActionsColumn: Option<bool>,
    filterCategories: Option<seq<F>>,
    initialSort: Option<InitialSort>,
    hasPagination: Option<bool>,
    initialItemsPerPage: Option<int>)

  /** The arguments after the destructuring defaults have been applied. */
  datatype Settings<F> = Settings(
    isSelectable: bool,
    expandableVariant: ExpandableVariant,
    hasActionsColumn: bool,
    filterCategories: seq<F>,
    hasPagination: bool,
    initialItemsPerPage: int)

  /** The destructuring defaults: each argument left out takes its default, any given one is kept. */
  function WithDefaults<D, F>(args: Args<D, F>): (s: Settings<F>)
    ensures args.isSelectable.None? ==> !s.isSelectable
    ensures args.expandableVariant.None? ==> s.expandableVariant == NoExpansion
    ensures args.hasActionsColumn.None? ==> !s.hasActionsColumn
    ensures args.filterCategories.None? ==> s.filterCategories == []
    ensures args.hasPagination.None? ==> s.hasPagination
    ensures args.initialItemsPerPage.None? ==> s.initialItemsPerPage == 10
    ensures args.isSelectable.Some? ==> s.isSelectable == args.isSelectable.value
    ensures args.expandableVariant.Some? ==> s.expandableVariant == args.expandableVariant.value
    ensures args.hasActionsColumn.Some? ==> s.hasActionsColumn == args.hasActionsColumn.value
    ensures args.filterCategories.Some? ==> s.filterCategories == args.filterCategories.value
    ensures args.hasPagination.Some? ==> s.hasPagination == args.hasPagination.value
    ensures args.initialItemsPerPage.Some? ==> s.initialItemsPerPage == args.initialItemsPerPage.value
  {
    Settings(
      args.isSelectable.GetOr(false),
      args.expandableVariant.GetOr(NoExpansion),
      args.hasActionsColumn.GetOr(false),
      args.filterCategories.GetOr([]),
      args.hasPagination.GetOr(true),
      args.initialItemsPerPage.GetOr(10))
  }

  // ---------------------------------------------------------------------------
  // Extra columns

  /** The columns inserted before the data columns: a checkbox column and a single-expansion toggle column. */
  function ColumnsBeforeData(isSelectable: bool, variant: ExpandableVariant): (n: nat)
    ensures n <= 2
    ensures n == 0 <==> !isSelectable && variant != Single
    ensures n == 2 <==> isSelectable && variant == Single
  {
    (if isSelectable then 1 else 0) + (if variant == Single then 1 else 0)
  }

  /** The columns inserted after the data columns: the actions column. */
  function ColumnsAfterData(hasActionsColumn: bool): (n: nat)
    ensures n == 1 <==> hasActionsColumn
    ensures n <= 1
  {
    if hasActionsColumn then 1 else 0
  }

  /** Compound expansion lives inside the data cells, so it adds no column. */
  lemma CompoundAddsNoColumn(isSelectable: bool)
    ensures ColumnsBeforeData(isSelectable, Compound) == ColumnsBeforeData(isSelectable, NoExpansion)
    ensures ColumnsBeforeData(isSelectable, Single) == ColumnsBeforeData(isSelectable, NoExpansion) + 1
  {
  }

  /** The counters of the hook, incremented one condition at a time. */
  method CountColumns(isSelectable: bool, variant: ExpandableVariant, hasActionsColumn: bool, columnCount: nat)
    returns (before: nat, after: nat, rendered: nat)
    ensures before == ColumnsBeforeData(isSelectable, variant)
    ensures after == ColumnsAfterData(hasActionsColumn)
    ensures rendered == columnCount + before + after
    ensures columnCount <= rendered <= columnCount + 3
  {
    before := 0;
    after := 0;
    if isSelectable {
      before := before + 1;
    }
    if variant == Single {
      before := before + 1;
    }
    if hasActionsColumn {
      after := after + 1;
    }
    rendered := columnCount + before + after;
  }

  // ---------------------------------------------------------------------------
  // Sort values and the initial sort

  /** The column keys of `columnNames`, in order. */
  function ColumnKeys(columnNames: seq<(string, string)>): (keys: seq<string>)
    ensures |keys| == |columnNames|
    ensures forall i :: 0 <= i < |keys| ==> keys[i] == columnNames[i].0
  {
    seq(|columnNames|, i requires 0 <= i < |columnNames| => columnNames[i].0)
  }

  /**
   * The per-column-key sort values of an item turned into a vector in column
   * order: `byKey[key] || ""` for each key.
   */
  function ProjectSortValues(keys: seq<string>, byKey: map<string, SortValue>): (r: seq<SortValue>)
    ensures |r| == |keys|
    ensures forall i :: 0 <= i < |r| ==> Truthy(r[i]) || r[i] == SText("")
    ensures forall i :: 0 <= i < |r| && Truthy(r[i]) ==> keys[i] in byKey && byKey[keys[i]] == r[i]
    ensures forall i :: 0 <= i < |r| && keys[i] in byKey && Truthy(byKey[keys[i]]) ==> r[i] == byKey[keys[i]]
  {
    seq(|keys|, i requires 0 <= i < |keys| =>
      if keys[i] in byKey && Truthy(byKey[keys[i]]) then byKey[keys[i]] else SText(""))
  }

  /** A value that is present but falsy, such as the number 0, sorts as the empty string. */
  lemma FalsyValueSortsAsEmpty(keys: seq<string>, byKey: map<string, SortValue>, i: nat)
    requires i < |keys| && keys[i] in byKey && !Truthy(byKey[keys[i]])
    ensures ProjectSortValues(keys, byKey)[i] == SText("")
  {
    var r := ProjectSortValues(keys, byKey);
    assert !Truthy(r[i]);
  }

  /** The initial sort handed to the sort hook: the key's position in column order (-1 when absent). */
  function InitialSortIndex(keys: seq<string>, initialSort: Option<InitialSort>): (r: Option<SortIndex>)
    ensures r.Some? <==> initialSort.Some?
    ensures r.Some? ==> r.value.direction == initialSort.value.direction
    ensures r.Some? ==> -1 <= r.value.index < |keys|
    ensures r.Some? ==> (r.value.index == -1 <==> initialSort.value.columnKey !in keys)
    ensures r.Some? && 0 <= r.value.index ==>
      keys[r.value.index] == initialSort.value.columnKey && initialSort.value.columnKey !in keys[..r.value.index]
  {
    match initialSort
    case None => None
    case Some(s) => Some(SortIndex(IndexOf(keys, s.columnKey), s.direction))
  }

  // ---------------------------------------------------------------------------
  // The composed state

  /** Two items are the same selection entry when their names agree. */
  predicate SameItem<D>(a: Item<D>, b: Item<D>)
  {
    a.name == b.name
  }

  /** The item is selected when an item with the same name is among the selected ones. */
  function IsSelected<D>(selected: seq<Item<D>>, item: Item<D>): (r: bool)
    ensures item in selected ==> r
    ensures r <==> exists i :: 0 <= i < |selected| && selected[i].name == item.name
  {
    exists i :: 0 <= i < |selected| && SameItem(selected[i], item)
  }

  /** An item refreshed with new data but the same name stays selected. */
  lemma SelectionKeepsRenewedItem<D>(selected: seq<Item<D>>, k: nat, data: D)
    requires k < |selected|
    ensures IsSelected(selected, Item(selected[k].name, data))
  {
    assert SameItem(selected[k], Item(selected[k].name, data));
  }

  /** What the hook returns, apart from the unseen hooks' own states. */
  datatype TableState<D, F> = TableState(
    args: Args<D, F>,
    numRenderedColumns: nat,
    numColumnsBeforeData: nat,
    numColumnsAfterData: nat,
    selectableItems: seq<Item<D>>,
    initialSortIndex: Option<SortIndex>,
    sortedItems: seq<Item<D>>,
    currentPageItems: seq<Item<D>>)

  /**
   * `useTableControlState`, given what the filter hook (`filtered`), the sort
   * hook (`sorted`) and the pagination hook (`page`) produce.
   */
  function UseTableControlState<D, F>(args: Args<D, F>, filtered: seq<Item<D>>, sorted: seq<Item<D>>, page: seq<Item<D>>)
    : (r: TableState<D, F>)
    ensures r.args == args
    ensures r.numColumnsBeforeData == ColumnsBeforeData(WithDefaults(args).isSelectable, WithDefaults(args).expandableVariant)
    ensures r.numColumnsAfterData == ColumnsAfterData(WithDefaults(args).hasActionsColumn)
    ensures r.numRenderedColumns == |args.columnNames| + r.numColumnsBeforeData + r.numColumnsAfterData
    ensures r.selectableItems == filtered
    ensures r.sortedItems == sorted
    ensures WithDefaults(args).hasPagination ==> r.currentPageItems == page
    ensures !WithDefaults(args).hasPagination ==> r.currentPageItems == sorted
    ensures r.initialSortIndex == InitialSortIndex(ColumnKeys(args.columnNames), args.initialSort)
  {
    var s := WithDefaults(args);
    var before := ColumnsBeforeData(s.isSelectable, s.expandableVariant);
    var after := ColumnsAfterData(s.hasActionsColumn);
    TableState(
      args,
      |args.columnNames| + before + after,
      before,
      after,
      filtered,
      InitialSortIndex(ColumnKeys(args.columnNames), args.initialSort),
      sorted,
      if s.hasPagination then page else sorted)
  }

  /** With every optional argument left out, one column per name is rendered and pagination applies. */
  lemma DefaultTableState<D, F>(items: seq<Item<D>>, columnNames: seq<(string, string)>, filtered: seq<Item<D>>, sorted: seq<Item<D>>, page: seq<Item<D>>)
    ensures var a: Args<D, F> := Args(items, columnNames, None, None, None, None, None, None, None);
      var r := UseTableControlState(a, filtered, sorted, page);
      r.numRenderedColumns == |columnNames| && r.currentPageItems == page && r.initialSortIndex.None?
  {
  }
}
