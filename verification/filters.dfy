/** The filter vocabulary shared by the frontend and the backend: the six
    filter dimensions, the call-date operator and unit enumerations, and the
    global filter record. A dimension value is `None` when the field is
    absent (`undefined`). */
module Filters {
  import opened Wrappers

  /** The six string-valued filter dimensions, in the order the query is built. */
  datatype Dimension = Brand | Owner | FranchiseId | StoreId | Channel | EngagementMode

  /** The property name of a dimension, used both as query key and as filter-object key. */
  function Key(d: Dimension): string {
    match d
    case Brand => "brand"
    case Owner => "owner"
    case FranchiseId => "franchiseId"
    case StoreId => "storeId"
    case Channel => "channel"
    case EngagementMode => "engagementMode"
  }

  /** The dimensions in source order. */
  const Dimensions: seq<Dimension> := [Brand, Owner, FranchiseId, StoreId, Channel, EngagementMode]

  datatype DateFilterOperator =
    | IsInRange | IsOnTheDay | IsBefore | IsAfter | IsOnOrAfter | IsOnOrBefore
    | IsInTheLast | IsNext | IsPrevious | IsAnyTime | IsNull | IsNotNull

  /** The string literal of an operator. */
  function OperatorName(op: DateFilterOperator): string {
    match op
    case IsInRange => "is_in_range"
    case IsOnTheDay => "is_on_the_day"
    case IsBefore => "is_before"
    case IsAfter => "is_after"
    case IsOnOrAfter => "is_on_or_after"
    case IsOnOrBefore => "is_on_or_before"
    case IsInTheLast => "is_in_the_last"
    case IsNext => "is_next"
    case IsPrevious => "is_previous"
    case IsAnyTime => "is_any_time"
    case IsNull => "is_null"
    case IsNotNull => "is_not_null"
  }

  datatype DateFilterUnit = Days | Weeks | Months | Years

  /** The string literal of a unit. */
  function UnitName(u: DateFilterUnit): string {
    match u
    case Days => "days"
    case Weeks => "weeks"
    case Months => "months"
    case Years => "years"
  }

  /** The call-date filter; `from`/`to` are ISO date strings, `quantity` a JavaScript number. */
  datatype CallDateFilter = CallDateFilter(
    operator: DateFilterOperator,
    from: Option<string>,
    to: Option<string>,
    quantity: Option<real>,
    unit: Option<DateFilterUnit>)

  datatype GlobalFilters = GlobalFilters(
    brand: Option<string>,
    owner: Option<string>,
    franchiseId: Option<string>,
    storeId: Option<string>,
    channel: Option<string>,
    engagementMode: Option<string>,
    callDate: CallDateFilter)
  {
    /** The value of one dimension field. */
    function Field(d: Dimension): Option<string> {
      match d
      case Brand => brand
      case Owner => owner
      case FranchiseId => franchiseId
      case StoreId => storeId
      case Channel => channel
      case EngagementMode => engagementMode
    }
  }

  /** A selection that narrows: present, truthy (non-empty) and not the sentinel "any". */
  predicate Concrete(v: Option<string>) {
    v.Some? && v.value != "" && v.value != "any"
  }

  /** A truthy optional string: present and non-empty. */
  predicate NonEmpty(v: Option<string>) {
    v.Some? && v.value != ""
  }
}
