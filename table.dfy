/** The record list under the dashboard's form: the class filter and the sort
    over the listed records, the sort toggle, the delete confirmation dialog
    and the list of class filter options. */
module RecordTable {
  import opened JsValues
  import opened Collections

  /** `{ field, direction }`: the column sorted on and `asc` or `desc`. */
  datatype SortOrder = SortOrder(field: string, direction: string)

  const InitialSortOrder := SortOrder("", "")

  /** `localeCompare` as a comparison function: negative, zero or positive.
      Only its consistency is assumed: it orders every pair, transitively. */
  ghost predicate IsCollation(collate: (string, string) -> int) {
    && (forall x, y :: collate(x, y) <= 0 || collate(y, x) <= 0)
    && (forall x, y, z :: collate(x, y) <= 0 && collate(y, z) <= 0 ==> collate(x, z) <= 0)
  }

  // ---------------------------------------------------------------- filter

  /** The class filter is in force only on the student table with a class chosen. */
  predicate FilterActive(formType: Option<string>, filterClass: string) {
    formType == Some("student") && filterClass != ""
  }

  /** Some entry is undefined or null, so reading any property off it throws. */
  predicate HasNullishEntry(items: seq<Value>) {
    exists i :: 0 <= i < |items| && (items[i].Undef? || items[i].Null?)
  }

  predicate InClass(filterClass: string, item: Value) {
    Get(item, "class") == Str(filterClass)
  }

  /** The filter step: every item when the filter is not in force, otherwise the
      items whose `class` is the chosen class. Reading `class` off an undefined
      or null entry throws (None). */
  function FilterRows(items: seq<Value>, formType: Option<string>, filterClass: string): Option<seq<Value>> {
    if !FilterActive(formType, filterClass) then Some(items)
    else if HasNullishEntry(items) then None
    else Some(Filter(items, item => InClass(filterClass, item)))
  }

  /** With the filter in force the kept items are exactly those of the chosen
      class, each as often as in the list and in the list's order; otherwise
      everything is kept. */
  lemma FilterRowsSpec(items: seq<Value>, formType: Option<string>, filterClass: string)
    requires FilterRows(items, formType, filterClass).Some?
    ensures var rows := FilterRows(items, formType, filterClass).value;
      && (!FilterActive(formType, filterClass) ==> rows == items)
      && (FilterActive(formType, filterClass) ==>
            && (forall x :: x in rows <==> x in items && Get(x, "class") == Str(filterClass))
            && (forall x :: multiset(rows)[x] == if InClass(filterClass, x) then multiset(items)[x] else 0)
            && (forall i :: 0 <= i < |rows| ==> Get(rows[i], "class") == Str(filterClass)))
  {
    if FilterActive(formType, filterClass) {
      FilterMultiset(items, item => InClass(filterClass, item));
    }
  }

  /** Filtering keeps the list's order: the rows kept from a concatenation are
      the rows kept from each part, one after the other. */
  lemma FilterRowsKeepsOrder(a: seq<Value>, b: seq<Value>, filterClass: string)
    ensures Filter(a + b, item => InClass(filterClass, item)) ==
              Filter(a, item => InClass(filterClass, item)) + Filter(b, item => InClass(filterClass, item))
  {
    FilterAppend(a, b, item => InClass(filterClass, item));
  }

  // ---------------------------------------------------------------- sort

  /** The `studentName` a row is sorted by. */
  function NameOf(item: Value): string {
    var n := Get(item, "studentName");
    if n.Str? then n.s else ""
  }

  /** The instant `new Date(item.createdAt)` denotes, by the given clock reading. */
  function CreatedOf(stamp: Value -> int, item: Value): int {
    stamp(Get(item, "createdAt"))
  }

  /** The comparator handed to `sort`. */
  function Compare(order: SortOrder, collate: (string, string) -> int, stamp: Value -> int, a: Value, b: Value): int {
    if order.field == "name" then
      if order.direction == "asc" then collate(NameOf(a), NameOf(b)) else collate(NameOf(b), NameOf(a))
    else if order.field == "created" then
      if order.direction == "asc" then CreatedOf(stamp, a) - CreatedOf(stamp, b)
      else CreatedOf(stamp, b) - CreatedOf(stamp, a)
    else 0
  }

  /** `a` may stay before `b`: the comparator does not put it after. */
  function Le(order: SortOrder, collate: (string, string) -> int, stamp: Value -> int): (Value, Value) -> bool {
    (a, b) => Compare(order, collate, stamp, a, b) <= 0
  }

  /** The sort throws when two or more rows are compared and a comparison reads
      a property off an undefined or null row, or sorts by name and a row's
      `studentName` is not a string receiver for `localeCompare`. */
  predicate SortThrows(order: SortOrder, rows: seq<Value>) {
    && |rows| >= 2
    && (|| (order.field == "name" && exists i :: 0 <= i < |rows| && !Get(rows[i], "studentName").Str?)
        || (order.field == "created" && HasNullishEntry(rows)))
  }

  /** `filteredData`: `(dataList || [])` filtered, then sorted. A truthy list
      that is not an array has no `filter` and throws (None). */
  function FilteredData(dataList: Value, formType: Option<string>, filterClass: string, order: SortOrder,
                        collate: (string, string) -> int, stamp: Value -> int): Option<seq<Value>> {
    if Truthy(dataList) && !dataList.Arr? then None
    else
      var items := if dataList.Arr? then dataList.items else [];
      match FilterRows(items, formType, filterClass)
      case None => None
      case Some(rows) =>
        if SortThrows(order, rows) then None else Some(SortBy(rows, Le(order, collate, stamp)))
  }

  /** For a consistent collation the comparator is a total preorder. */
  lemma LeTotalPreorder(order: SortOrder, collate: (string, string) -> int, stamp: Value -> int)
    requires IsCollation(collate)
    ensures TotalPreorder(Le(order, collate, stamp))
  {
    var le := Le(order, collate, stamp);
    forall a, b ensures le(a, b) || le(b, a) {
      if order.field == "name" {
        assert collate(NameOf(a), NameOf(b)) <= 0 || collate(NameOf(b), NameOf(a)) <= 0;
      }
    }
    forall a, b, c | le(a, b) && le(b, c) ensures le(a, c) {
      if order.field == "name" {
        if order.direction == "asc" {
          assert collate(NameOf(a), NameOf(b)) <= 0 && collate(NameOf(b), NameOf(c)) <= 0;
        } else {
          assert collate(NameOf(c), NameOf(b)) <= 0 && collate(NameOf(b), NameOf(a)) <= 0;
        }
      }
    }
  }

  /** The sorted rows are the filtered rows rearranged: none lost, none added. */
  lemma FilteredDataPermutes(dataList: Value, formType: Option<string>, filterClass: string, order: SortOrder,
                             collate: (string, string) -> int, stamp: Value -> int)
    requires FilteredData(dataList, formType, filterClass, order, collate, stamp).Some?
    ensures var items := if dataList.Arr? then dataList.items else [];
      && FilterRows(items, formType, filterClass).Some?
      && multiset(FilteredData(dataList, formType, filterClass, order, collate, stamp).value)
         == multiset(FilterRows(items, formType, filterClass).value)
  {
  }

  /** Sorting by name orders the rows by the collation of their `studentName`,
      rising for 'asc' and falling otherwise; with two or more rows every name
      is a string. */
  lemma FilteredDataByName(dataList: Value, formType: Option<string>, filterClass: string, order: SortOrder,
                           collate: (string, string) -> int, stamp: Value -> int)
    requires IsCollation(collate) && order.field == "name"
    requires FilteredData(dataList, formType, filterClass, order, collate, stamp).Some?
    ensures var r := FilteredData(dataList, formType, filterClass, order, collate, stamp).value;
      && (|r| >= 2 ==> forall i :: 0 <= i < |r| ==> Get(r[i], "studentName").Str?)
      && (order.direction == "asc" ==>
            forall i, j :: 0 <= i < j < |r| ==> collate(NameOf(r[i]), NameOf(r[j])) <= 0)
      && (order.direction != "asc" ==>
            forall i, j :: 0 <= i < j < |r| ==> collate(NameOf(r[j]), NameOf(r[i])) <= 0)
  {
    var items := if dataList.Arr? then dataList.items else [];
    var rows := FilterRows(items, formType, filterClass).value;
    var r := SortBy(rows, Le(order, collate, stamp));
    LeTotalPreorder(order, collate, stamp);
    SortBySorted(rows, Le(order, collate, stamp));
    if |r| >= 2 {
      forall i | 0 <= i < |r| ensures Get(r[i], "studentName").Str? {
        assert r[i] in multiset(rows);
      }
    }
  }

  /** Sorting by creation orders the rows by their `createdAt` instants, rising
      for 'asc' and falling otherwise. */
  lemma FilteredDataByCreated(dataList: Value, formType: Option<string>, filterClass: string, order: SortOrder,
                              collate: (string, string) -> int, stamp: Value -> int)
    requires IsCollation(collate) && order.field == "created"
    requires FilteredData(dataList, formType, filterClass, order, collate, stamp).Some?
    ensures var r := FilteredData(dataList, formType, filterClass, order, collate, stamp).value;
      && (order.direction == "asc" ==>
            forall i, j :: 0 <= i < j < |r| ==> CreatedOf(stamp, r[i]) <= CreatedOf(stamp, r[j]))
      && (order.direction != "asc" ==>
            forall i, j :: 0 <= i < j < |r| ==> CreatedOf(stamp, r[j]) <= CreatedOf(stamp, r[i]))
  {
    var items := if dataList.Arr? then dataList.items else [];
    var rows := FilterRows(items, formType, filterClass).value;
    LeTotalPreorder(order, collate, stamp);
    SortBySorted(rows, Le(order, collate, stamp));
  }

  /** Any other sort field compares every pair as equal, so the filtered rows
      keep their order, and the sort cannot throw. */
  lemma FilteredDataUnsorted(dataList: Value, formType: Option<string>, filterClass: string, order: SortOrder,
                             collate: (string, string) -> int, stamp: Value -> int)
    requires order.field != "name" && order.field != "created"
    requires !Truthy(dataList) || dataList.Arr?
    ensures var items := if dataList.Arr? then dataList.items else [];
      FilteredData(dataList, formType, filterClass, order, collate, stamp) ==
        FilterRows(items, formType, filterClass)
  {
    var items := if dataList.Arr? then dataList.items else [];
    var le := Le(order, collate, stamp);
    if FilterRows(items, formType, filterClass).Some? {
      SortByIdentity(FilterRows(items, formType, filterClass).value, le);
    }
  }

  // ---------------------------------------------------------------- handleSort

  /** The updater `handleSort(field)` hands to `setSortOrder`. */
  function NextSortOrder(prev: SortOrder, field: string): (next: SortOrder)
    ensures next.field == field
    ensures next.direction == "asc" || next.direction == "desc"
    ensures prev.field != field ==> next.direction == "asc"
    ensures prev.field == field ==> (next.direction == "asc" <==> prev.direction != "asc")
  {
    if prev.field == field then SortOrder(field, if prev.direction == "asc" then "desc" else "asc")
    else SortOrder(field, "asc")
  }

  /** Sorting twice on the column already sorted on restores its direction. */
  lemma NextSortOrderTwice(prev: SortOrder)
    requires prev.direction == "asc" || prev.direction == "desc"
    ensures NextSortOrder(NextSortOrder(prev, prev.field), prev.field) == prev
  {
  }

  /** Sorting twice on a new column leaves it falling. */
  lemma NextSortOrderNewFieldTwice(prev: SortOrder, field: string)
    requires prev.field != field
    ensures NextSortOrder(NextSortOrder(prev, field), field) == SortOrder(field, "desc")
  {
  }

  // ---------------------------------------------------------------- rendering

  /** `Array.from(new Set(dataList.map(item => item.class)))`: the class filter
      options. Mapping over an undefined or null entry throws (None). */
  function ClassOptions(items: seq<Value>): Option<seq<Value>> {
    if HasNullishEntry(items) then None
    else Some(Distinct(seq(|items|, i requires 0 <= i < |items| => Get(items[i], "class"))))
  }

  /** Each class appears once among the options, every listed record's class
      does, and the options follow the order in which the classes first occur. */
  lemma ClassOptionsSpec(items: seq<Value>)
    requires ClassOptions(items).Some?
    ensures var opts := ClassOptions(items).value;
      var classes := seq(|items|, i requires 0 <= i < |items| => Get(items[i], "class"));
      && NoDuplicates(opts)
      && (forall c :: c in opts <==> c in classes)
      && (forall c :: c in classes <==> exists i :: 0 <= i < |items| && Get(items[i], "class") == c)
      && (forall i, j :: 0 <= i < j < |opts| ==> FirstIndex(classes, opts[i]) < FirstIndex(classes, opts[j]))
  {
    var classes := seq(|items|, i requires 0 <= i < |items| => Get(items[i], "class"));
    DistinctSpec(classes);
    forall c ensures c in classes <==> exists i :: 0 <= i < |items| && Get(items[i], "class") == c {
      if c in classes {
        var i :| 0 <= i < |classes| && classes[i] == c;
        assert Get(items[i], "class") == c;
      }
      if exists i :: 0 <= i < |items| && Get(items[i], "class") == c {
        var i :| 0 <= i < |items| && Get(items[i], "class") == c;
        assert classes[i] == c;
      }
    }
  }

  /** What `renderTable` draws: the loading message, or a table of rows. */
  datatype TableView = LoadingMessage | Rows(rows: seq<Value>)

  /** What the table shows: the loading message while loading; otherwise the
      filtered and sorted rows for students, the list as given for classes and
      teachers, no rows for any other form type. `filteredData` is computed on
      every render, loading or not, and `dataList.map` needs an array whose
      entries each have an `_id` to read, so either failing throws the whole
      render (None). */
  function TableRows(dataList: Value, loading: bool, formType: Option<string>, filterClass: string,
                     order: SortOrder, collate: (string, string) -> int, stamp: Value -> int): Option<TableView> {
    match FilteredData(dataList, formType, filterClass, order, collate, stamp)
    case None => None
    case Some(rows) =>
      if loading then Some(LoadingMessage)
      else if formType == Some("student") then
        if dataList.Arr? && ClassOptions(dataList.items).Some? then Some(Rows(rows)) else None
      else if formType == Some("class") || formType == Some("teacher") then
        if dataList.Arr? && !HasNullishEntry(dataList.items) then Some(Rows(dataList.items)) else None
      else Some(Rows([]))
  }

  /** While loading no rows are shown, only the message; a list that has not
      arrived yet (undefined or null) shows the message too, whatever the form
      type, filter and sort. */
  lemma LoadingShowsMessage(dataList: Value, formType: Option<string>, filterClass: string, order: SortOrder,
                            collate: (string, string) -> int, stamp: Value -> int)
    ensures TableRows(dataList, true, formType, filterClass, order, collate, stamp).Some? ==>
              TableRows(dataList, true, formType, filterClass, order, collate, stamp) == Some(LoadingMessage)
    ensures !Truthy(dataList) ==>
              TableRows(dataList, true, formType, filterClass, order, collate, stamp) == Some(LoadingMessage)
  {
    if !Truthy(dataList) && !dataList.Arr? {
      assert FilterRows([], formType, filterClass) == Some([]);
      assert !SortThrows(order, []);
    }
  }

  /** The class and teacher tables are neither filtered nor sorted: whenever
      they render a table it shows the list as given, whatever the filter and
      sort. They render only a list without undefined or null entries: reading
      `_id` off such an entry throws. */
  lemma ClassAndTeacherTablesUnsorted(items: seq<Value>, loading: bool, formType: Option<string>,
                                      filterClass: string, order: SortOrder,
                                      collate: (string, string) -> int, stamp: Value -> int)
    requires formType == Some("class") || formType == Some("teacher")
    requires TableRows(Arr(items), loading, formType, filterClass, order, collate, stamp).Some?
    ensures TableRows(Arr(items), loading, formType, filterClass, order, collate, stamp) ==
              Some(if loading then LoadingMessage else Rows(items))
    ensures !loading ==> !HasNullishEntry(items)
  {
  }

  /** An undefined or null entry breaks the class and teacher tables once
      loading is over, whatever the filter and sort. */
  lemma NullishEntryBreaksTable(items: seq<Value>, formType: Option<string>, filterClass: string,
                                order: SortOrder, collate: (string, string) -> int, stamp: Value -> int)
    requires formType == Some("class") || formType == Some("teacher")
    requires HasNullishEntry(items)
    ensures TableRows(Arr(items), false, formType, filterClass, order, collate, stamp).None?
  {
  }

  /** A class list holding `null` does not render. */
  lemma NullClassEntryThrows(collate: (string, string) -> int, stamp: Value -> int)
    ensures TableRows(Arr([Null]), false, Some("class"), "", InitialSortOrder, collate, stamp).None?
  {
    assert HasNullishEntry([Null]) by { assert [Null][0].Null?; }
    NullishEntryBreaksTable([Null], Some("class"), "", InitialSortOrder, collate, stamp);
  }

  /** The student table shows exactly the filtered and sorted rows. */
  lemma StudentTableShowsFilteredData(items: seq<Value>, loading: bool, filterClass: string, order: SortOrder,
                                      collate: (string, string) -> int, stamp: Value -> int)
    requires TableRows(Arr(items), loading, Some("student"), filterClass, order, collate, stamp).Some?
    ensures FilteredData(Arr(items), Some("student"), filterClass, order, collate, stamp).Some?
    ensures TableRows(Arr(items), loading, Some("student"), filterClass, order, collate, stamp) ==
              Some(if loading then LoadingMessage
                   else Rows(FilteredData(Arr(items), Some("student"), filterClass, order, collate, stamp).value))
  {
  }

  /** Sorting by name throws for any two or more non-student rows, even while
      loading: outside the student table nothing is filtered, and a row without
      a `studentName` string has no `localeCompare`. */
  lemma NameSortNeedsNames(items: seq<Value>, loading: bool, formType: Option<string>,
                           collate: (string, string) -> int, stamp: Value -> int)
    requires formType != Some("student") && |items| >= 2
    requires exists i :: 0 <= i < |items| && !Get(items[i], "studentName").Str?
    ensures TableRows(Arr(items), loading, formType, "", SortOrder("name", "asc"), collate, stamp).None?
  {
    assert FilterRows(items, formType, "") == Some(items);
    assert SortThrows(SortOrder("name", "asc"), items);
  }

  /** The sort order outlives a switch of form type: two class records, which
      have no `studentName`, break the class table's render once the student
      table was sorted by name. */
  lemma NameSortBreaksClassTable(loading: bool, collate: (string, string) -> int, stamp: Value -> int)
    ensures var items := [Obj(map["className" := Str("A")]), Obj(map["className" := Str("B")])];
      TableRows(Arr(items), loading, Some("class"), "", SortOrder("name", "asc"), collate, stamp).None?
  {
    var items := [Obj(map["className" := Str("A")]), Obj(map["className" := Str("B")])];
    assert !Get(items[0], "studentName").Str?;
    NameSortNeedsNames(items, loading, Some("class"), collate, stamp);
  }

  // ---------------------------------------------------------------- component state

  /** The table's own state cells. */
  class TableState {
    var filterClass: string
    var sortOrder: SortOrder
    var showModal: bool
    var deleteItemId: Value

    constructor ()
      ensures filterClass == "" && sortOrder == InitialSortOrder
      ensures !showModal && deleteItemId == Null
    {
      filterClass := "";
      sortOrder := InitialSortOrder;
      showModal := false;
      deleteItemId := Null;
    }

    /** The class filter's `onChange`. */
    method SetFilterClass(c: string)
      modifies this
      ensures filterClass == c
      ensures sortOrder == old(sortOrder) && showModal == old(showModal) && deleteItemId == old(deleteItemId)
    {
      filterClass := c;
    }

    method HandleSort(field: string)
      modifies this
      ensures sortOrder == NextSortOrder(old(sortOrder), field)
      ensures filterClass == old(filterClass) && showModal == old(showModal) && deleteItemId == old(deleteItemId)
    {
      sortOrder := NextSortOrder(sortOrder, field);
    }

    /** Remembers the record to delete and opens the confirmation dialog. */
    method OpenDeleteModal(id: Value)
      modifies this
      ensures deleteItemId == id && showModal
      ensures filterClass == old(filterClass) && sortOrder == old(sortOrder)
    {
      deleteItemId := id;
      showModal := true;
    }

    /** Hands the remembered id to `handleDelete`, once, and closes the dialog;
      `deleted` lists the ids handed over. The id itself stays remembered. */
    method ConfirmDelete() returns (deleted: seq<Value>)
      modifies this
      ensures deleted == [old(deleteItemId)]
      ensures !showModal && deleteItemId == old(deleteItemId)
      ensures filterClass == old(filterClass) && sortOrder == old(sortOrder)
    {
      deleted := [deleteItemId];
      showModal := false;
    }

    /** Forgets the id and closes the dialog without deleting anything. */
    method CancelDelete() returns (deleted: seq<Value>)
      modifies this
      ensures deleted == []
      ensures !showModal && deleteItemId == Null
      ensures filterClass == old(filterClass) && sortOrder == old(sortOrder)
    {
      deleted := [];
      deleteItemId := Null;
      showModal := false;
    }
  }

  /** Delete pressed on a row and confirmed deletes that row's record; pressed
      again and cancelled deletes nothing and leaves no id behind. */
  method DeleteDialogScenario(id: Value) returns (confirmed: seq<Value>, cancelled: seq<Value>, leftOpen: bool, leftId: Value)
    ensures confirmed == [id]
    ensures cancelled == []
    ensures !leftOpen && leftId == Null
  {
    var t := new TableState();
    t.OpenDeleteModal(id);
    confirmed := t.ConfirmDelete();
    t.OpenDeleteModal(id);
    cancelled := t.CancelDelete();
    leftOpen := t.showModal;
    leftId := t.deleteItemId;
  }

  /** Two clicks on the name column sort it rising, then falling; a third
      click on the creation column starts that one rising. */
  method SortToggleScenario() returns (first: SortOrder, second: SortOrder, third: SortOrder)
    ensures first == SortOrder("name", "asc")
    ensures second == SortOrder("name", "desc")
    ensures third == SortOrder("created", "asc")
  {
    var t := new TableState();
    t.HandleSort("name");
    first := t.sortOrder;
    t.HandleSort("name");
    second := t.sortOrder;
    t.HandleSort("created");
    third := t.sortOrder;
  }
}
