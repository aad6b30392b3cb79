/**
 * The generic data table: a click on a column header asks the parent for a new sort, the header
 * shows an icon for the current sort, and the body shows a spinner, an empty message or the rows.
 * The table keeps no state of its own: `sortKey` and `sortDirection` come from the parent, which
 * is expected to feed every sort event back as the new props.
 */
module DataTable {
  import opened Types

  datatype Column = Column(key: string, title: string, sortable: bool)

  /** The arguments of one `onSort(key, direction)` call. */
  datatype SortEvent = SortEvent(key: string, direction: Direction)

  /** The sort props the parent passes in; absent props are `None`. */
  datatype SortProps = SortProps(sortKey: Option<string>, sortDirection: Option<Direction>)

  /** What stands next to a header title. */
  datatype SortIcon = NoIcon | Placeholder | ChevronUp | ChevronDown

  /** What the table body shows. */
  datatype Body<T> = Spinner | EmptyMessage(text: string) | Rows(records: seq<T>)

  const DefaultEmptyMessage: string := "Nenhum dado encontrado"

  /** True when `column` is the one the table is sorted by. */
  predicate IsActive(column: Column, props: SortProps)
  {
    props.sortKey == Some(column.key)
  }

  /**
   * `handleSort`: no event for a column that is not sortable or when no `onSort` was given;
   * otherwise the column's key, descending only when it is the active column sorted ascending.
   */
  function HandleSort(column: Column, hasOnSort: bool, props: SortProps): (event: Option<SortEvent>)
    ensures event.None? <==> !column.sortable || !hasOnSort
    ensures event.Some? ==> event.value.key == column.key
    ensures event.Some? ==> (event.value.direction == Desc <==> IsActive(column, props) && props.sortDirection == Some(Asc))
  {
    if !column.sortable || !hasOnSort then None
    else if props.sortKey == Some(column.key) && props.sortDirection == Some(Asc) then Some(SortEvent(column.key, Desc))
    else Some(SortEvent(column.key, Asc))
  }

  /** The props a parent passes back after it handled `event`. */
  function Apply(event: SortEvent): SortProps
  {
    SortProps(Some(event.key), Some(event.direction))
  }

  /** `getSortIcon`. */
  function SortIconFor(column: Column, props: SortProps): (icon: SortIcon)
    ensures icon == NoIcon <==> !column.sortable
    ensures icon == Placeholder <==> column.sortable && !IsActive(column, props)
    ensures icon == ChevronUp <==> column.sortable && IsActive(column, props) && props.sortDirection == Some(Asc)
    ensures icon == ChevronDown <==> column.sortable && IsActive(column, props) && props.sortDirection != Some(Asc)
  {
    if !column.sortable then NoIcon
    else if props.sortKey != Some(column.key) then Placeholder
    else if props.sortDirection == Some(Asc) then ChevronUp
    else ChevronDown
  }

  /** A column other than the active one always starts ascending. */
  lemma NewColumnStartsAscending(column: Column, props: SortProps)
    requires column.sortable && !IsActive(column, props)
    ensures HandleSort(column, true, props) == Some(SortEvent(column.key, Asc))
  {
  }

  /** Two clicks on the same sortable column, each fed back by the parent, return to ascending. */
  lemma TwoClicksReturnToAscending(column: Column)
    requires column.sortable
    ensures var first := HandleSort(column, true, SortProps(Some(column.key), Some(Asc)));
            && first == Some(SortEvent(column.key, Desc))
            && HandleSort(column, true, Apply(first.value)) == Some(SortEvent(column.key, Asc))
  {
  }

  /**
   * Once the parent has fed an event back, the header shows it: the clicked column's chevron
   * points up exactly for an ascending sort, and every other sortable column shows the blank
   * placeholder.
   */
  lemma IconShowsLastSort(clicked: Column, hasOnSort: bool, props: SortProps, other: Column)
    requires HandleSort(clicked, hasOnSort, props).Some?
    requires other.sortable && other.key != clicked.key
    ensures var event := HandleSort(clicked, hasOnSort, props).value;
            && (SortIconFor(clicked, Apply(event)) == ChevronUp <==> event.direction == Asc)
            && SortIconFor(clicked, Apply(event)) in {ChevronUp, ChevronDown}
            && SortIconFor(other, Apply(event)) == Placeholder
  {
  }

  /**
   * The body: the spinner while loading (`loading` defaults to false), else the empty message
   * (defaulting to `Nenhum dado encontrado`) when there is no row, else one row per record.
   */
  function BodyFor<T>(data: seq<T>, loading: Option<bool>, emptyMessage: Option<string>): (body: Body<T>)
    ensures body.Spinner? <==> loading == Some(true)
    ensures body.EmptyMessage? <==> loading != Some(true) && |data| == 0
    ensures body.EmptyMessage? ==> body.text == (if emptyMessage.Some? then emptyMessage.value else DefaultEmptyMessage)
    ensures body.Rows? ==> body.records == data && |data| > 0
  {
    var isLoading := if loading.Some? then loading.value else false;
    var message := if emptyMessage.Some? then emptyMessage.value else DefaultEmptyMessage;
    if isLoading then Spinner
    else if |data| == 0 then EmptyMessage(message)
    else Rows(data)
  }
}
