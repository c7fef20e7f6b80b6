/** The call-date control: the operator list, which inputs each operator
    shows, and the state transitions of its change handlers. */
module CallDateFilterControl {
  import opened Wrappers
  import opened Filters
  import opened Sequences

  /** The operator drop-down: every operator with its label, in display order. */
  const OperatorOptions: seq<(DateFilterOperator, string)> := [
    (IsInRange, "is in range"),
    (IsOnTheDay, "is on the day"),
    (IsBefore, "is before"),
    (IsAfter, "is after"),
    (IsOnOrAfter, "is on or after"),
    (IsOnOrBefore, "is on or before"),
    (IsInTheLast, "is in the last"),
    (IsNext, "is next"),
    (IsPrevious, "is previous"),
    (IsAnyTime, "is any time"),
    (IsNull, "is null"),
    (IsNotNull, "is not null")]

  /** The unit drop-down, in display order; each label is the unit's own name. */
  const UnitOptions: seq<DateFilterUnit> := [Days, Weeks, Months, Years]

  function OptionOperators(opts: seq<(DateFilterOperator, string)>): (r: seq<DateFilterOperator>)
    ensures |r| == |opts|
    ensures forall i :: 0 <= i < |opts| ==> r[i] == opts[i].0
  {
    seq(|opts|, i requires 0 <= i < |opts| => opts[i].0)
  }

  /** The drop-down offers twelve different operators, which are all of them. */
  lemma OperatorOptionsComplete(op: DateFilterOperator)
    ensures |OperatorOptions| == 12
    ensures NoDuplicates(OptionOperators(OperatorOptions))
    ensures op in OptionOperators(OperatorOptions)
  {
    var ops := OptionOperators(OperatorOptions);
    OptionOperatorsInOrder();
    RanksAreIndices(ops);
    assert NoDuplicates(ops) by {
      forall i, j | 0 <= i < j < |ops| ensures ops[i] != ops[j] {
        assert Rank(ops[i]) == i && Rank(ops[j]) == j;
      }
    }
    match op
    case IsInRange => assert ops[0] == op;
    case IsOnTheDay => assert ops[1] == op;
    case IsBefore => assert ops[2] == op;
    case IsAfter => assert ops[3] == op;
    case IsOnOrAfter => assert ops[4] == op;
    case IsOnOrBefore => assert ops[5] == op;
    case IsInTheLast => assert ops[6] == op;
    case IsNext => assert ops[7] == op;
    case IsPrevious => assert ops[8] == op;
    case IsAnyTime => assert ops[9] == op;
    case IsNull => assert ops[10] == op;
    case IsNotNull => assert ops[11] == op;
  }

  /** The operators of the drop-down, position by position. */
  lemma OptionOperatorsInOrder()
    ensures OptionOperators(OperatorOptions)
      == [IsInRange, IsOnTheDay, IsBefore, IsAfter, IsOnOrAfter, IsOnOrBefore,
          IsInTheLast, IsNext, IsPrevious, IsAnyTime, IsNull, IsNotNull]
  {
  }

  /** The display position of each operator in the drop-down. */
  function Rank(op: DateFilterOperator): nat {
    match op
    case IsInRange => 0
    case IsOnTheDay => 1
    case IsBefore => 2
    case IsAfter => 3
    case IsOnOrAfter => 4
    case IsOnOrBefore => 5
    case IsInTheLast => 6
    case IsNext => 7
    case IsPrevious => 8
    case IsAnyTime => 9
    case IsNull => 10
    case IsNotNull => 11
  }

  lemma RanksAreIndices(ops: seq<DateFilterOperator>)
    requires ops == [IsInRange, IsOnTheDay, IsBefore, IsAfter, IsOnOrAfter, IsOnOrBefore,
                     IsInTheLast, IsNext, IsPrevious, IsAnyTime, IsNull, IsNotNull]
    ensures forall i :: 0 <= i < |ops| ==> Rank(ops[i]) == i
  {
  }

  /** Every label is its operator's name with spaces for underscores. */
  lemma OperatorLabelsSpellNames(i: nat)
    requires i < |OperatorOptions|
    ensures Underscored(OperatorOptions[i].1) == OperatorName(OperatorOptions[i].0)
  {
    if i == 0 {
      Spells("is in range", "is_in_range");
    } else if i == 1 {
      Spells("is on the day", "is_on_the_day");
    } else if i == 2 {
      Spells("is before", "is_before");
    } else if i == 3 {
      Spells("is after", "is_after");
    } else if i == 4 {
      Spells("is on or after", "is_on_or_after");
    } else if i == 5 {
      Spells("is on or before", "is_on_or_before");
    } else if i == 6 {
      Spells("is in the last", "is_in_the_last");
    } else if i == 7 {
      Spells("is next", "is_next");
    } else if i == 8 {
      Spells("is previous", "is_previous");
    } else if i == 9 {
      Spells("is any time", "is_any_time");
    } else if i == 10 {
      Spells("is null", "is_null");
    } else {
      Spells("is not null", "is_not_null");
    }
  }

  /** Turning the spaces of `text` into underscores gives `name`. */
  lemma Spells(text: string, name: string)
    requires |text| == |name|
    requires forall k :: 0 <= k < |text| ==> name[k] == if text[k] == ' ' then '_' else text[k]
    ensures Underscored(text) == name
  {
  }

  /** A label with its spaces turned into underscores. */
  function Underscored(s: string): (r: string)
    ensures |r| == |s|
  {
    seq(|s|, i requires 0 <= i < |s| => if s[i] == ' ' then '_' else s[i])
  }

  /** The input modes the four `show*` flags select. */
  predicate ShowRange(op: DateFilterOperator) { op == IsInRange }

  predicate ShowSingleDate(op: DateFilterOperator) {
    op == IsOnTheDay || op == IsBefore || op == IsAfter || op == IsOnOrAfter || op == IsOnOrBefore
  }

  predicate ShowRelative(op: DateFilterOperator) {
    op == IsInTheLast || op == IsNext || op == IsPrevious
  }

  predicate ShowNothingElse(op: DateFilterOperator) {
    op == IsAnyTime || op == IsNull || op == IsNotNull
  }

  /** Exactly one input mode holds for every operator. */
  lemma ModesPartitionOperators(op: DateFilterOperator)
    ensures ShowRange(op) || ShowSingleDate(op) || ShowRelative(op) || ShowNothingElse(op)
    ensures !(ShowRange(op) && ShowSingleDate(op)) && !(ShowRange(op) && ShowRelative(op))
    ensures !(ShowRange(op) && ShowNothingElse(op)) && !(ShowSingleDate(op) && ShowRelative(op))
    ensures !(ShowSingleDate(op) && ShowNothingElse(op)) && !(ShowRelative(op) && ShowNothingElse(op))
  {
  }

  /** `handleOperatorChange`: a new operator clears the dates; the relative
      operators start at 1 day, the others carry no quantity or unit. */
  function OnOperatorChange(op: DateFilterOperator): (r: CallDateFilter)
    ensures r.operator == op
    ensures r.from.None? && r.to.None?
    ensures r.quantity == Some(1.0) <==> ShowRelative(op)
    ensures r.unit == Some(Days) <==> ShowRelative(op)
    ensures !ShowRelative(op) ==> r.quantity.None? && r.unit.None?
  {
    var needsRelative := op == IsInTheLast || op == IsNext || op == IsPrevious;
    CallDateFilter(op, None, None,
      if needsRelative then Some(1.0) else None,
      if needsRelative then Some(Days) else None)
  }

  /** After an operator change, the stored fields are exactly those the new
      mode shows an input for (the single-date and range modes start empty). */
  lemma OperatorChangeKeepsOnlyRelevantFields(op: DateFilterOperator)
    ensures OnOperatorChange(op).quantity.Some? <==> ShowRelative(op)
    ensures OnOperatorChange(op).unit.Some? <==> ShowRelative(op)
    ensures ShowNothingElse(op) ==> OnOperatorChange(op) == CallDateFilter(op, None, None, None, None)
  {
  }

  /** `handleFromChange`. */
  function OnFromChange(c: CallDateFilter, input: string): (r: CallDateFilter)
    ensures r.from == Some(input)
    ensures r.(from := c.from) == c
  {
    c.(from := Some(input))
  }

  /** `handleToChange`. */
  function OnToChange(c: CallDateFilter, input: string): (r: CallDateFilter)
    ensures r.to == Some(input)
    ensures r.(to := c.to) == c
  {
    c.(to := Some(input))
  }

  /** `handleQuantityChange`: an empty input clears the quantity, anything
      else is converted with `Number`, given here as `toNumber`. */
  function OnQuantityChange(c: CallDateFilter, input: string, toNumber: string -> real): (r: CallDateFilter)
    ensures r.quantity.None? <==> input == ""
    ensures input != "" ==> r.quantity == Some(toNumber(input))
    ensures r.(quantity := c.quantity) == c
  {
    c.(quantity := if input == "" then None else Some(toNumber(input)))
  }

  /** `handleUnitChange`. */
  function OnUnitChange(c: CallDateFilter, u: DateFilterUnit): (r: CallDateFilter)
    ensures r.unit == Some(u)
    ensures r.(unit := c.unit) == c
  {
    c.(unit := Some(u))
  }

  /** The field handlers never change the operator, so the input mode stays put. */
  lemma FieldEditsKeepMode(c: CallDateFilter, input: string, toNumber: string -> real, u: DateFilterUnit)
    ensures OnFromChange(c, input).operator == c.operator
    ensures OnToChange(c, input).operator == c.operator
    ensures OnQuantityChange(c, input, toNumber).operator == c.operator
    ensures OnUnitChange(c, u).operator == c.operator
  {
  }

  /** Editing one field twice keeps the last edit; editing different fields commutes. */
  lemma FieldEditsCompose(c: CallDateFilter, a: string, b: string, u: DateFilterUnit)
    ensures OnFromChange(OnFromChange(c, a), b) == OnFromChange(c, b)
    ensures OnToChange(OnFromChange(c, a), b) == OnFromChange(OnToChange(c, b), a)
    ensures OnUnitChange(OnFromChange(c, a), u) == OnFromChange(OnUnitChange(c, u), a)
  {
  }
}
