/** The value and delta formatters of the comparison components. A rendered
    number is kept abstract (`Fixed`): what is modelled is the unit dispatch
    that chooses the prefix, the suffix and the number of decimals, and the
    sign or arrow put in front of a delta. */
module Format {
  import opened Wrappers
  import opened Numeric
  import opened Metrics

  /** `value.toFixed(digits)`; the decimal rendering itself is not modelled. */
  datatype Fixed = Fixed(value: real, digits: nat)

  /** A rendered quantity: prefix, rounded number, suffix. */
  datatype Text = Text(prefix: string, number: Fixed, suffix: string)

  /** The four ways the formatters treat a unit. */
  datatype UnitClass = PercentUnit | DollarUnit | MinutesUnit | OtherUnit

  function ClassOf(u: Unit): UnitClass {
    if u == Some("%") then PercentUnit
    else if u == Some("$") then DollarUnit
    else if u == Some("mins") then MinutesUnit
    else OtherUnit
  }

  /** The short value format: `12.5%`, `$3.20`, `4.0m`, `7.0`. */
  function FormatValue(v: real, u: Unit): (t: Text)
    ensures t.number.value == v
    ensures ClassOf(u) == PercentUnit ==> t == Text("", Fixed(v, 1), "%")
    ensures ClassOf(u) == DollarUnit ==> t == Text("$", Fixed(v, 2), "")
    ensures ClassOf(u) == MinutesUnit ==> t == Text("", Fixed(v, 1), "m")
    ensures ClassOf(u) == OtherUnit ==> t == Text("", Fixed(v, 1), "")
  {
    if u == Some("%") then Text("", Fixed(v, 1), "%")
    else if u == Some("$") then Text("$", Fixed(v, 2), "")
    else if u == Some("mins") then Text("", Fixed(v, 1), "m")
    else Text("", Fixed(v, 1), "")
  }

  /** The delta format: as `FormatValue`, but percentages are shown in points (`pp`). */
  function FormatDelta(v: real, u: Unit): (t: Text)
    ensures t.number.value == v
    ensures ClassOf(u) == PercentUnit ==> t == Text("", Fixed(v, 1), "pp")
    ensures ClassOf(u) != PercentUnit ==> t == FormatValue(v, u)
  {
    if u == Some("%") then Text("", Fixed(v, 1), "pp")
    else if u == Some("$") then Text("$", Fixed(v, 2), "")
    else if u == Some("mins") then Text("", Fixed(v, 1), "m")
    else Text("", Fixed(v, 1), "")
  }

  /** The long value format of the stacked bars: `4.0 mins`, and any other
      non-empty unit spelled after a space. */
  function FormatLongValue(v: real, u: Unit): (t: Text)
    ensures t.number.value == v
    ensures ClassOf(u) == PercentUnit ==> t == FormatValue(v, u)
    ensures ClassOf(u) == DollarUnit ==> t == FormatValue(v, u)
    ensures ClassOf(u) == MinutesUnit ==> t == Text("", Fixed(v, 1), " mins")
    ensures ClassOf(u) == OtherUnit && u.Some? && u.value != "" ==> t == Text("", Fixed(v, 1), " " + u.value)
    ensures ClassOf(u) == OtherUnit && (u.None? || u.value == "") ==> t == FormatValue(v, u)
  {
    if u == Some("%") then Text("", Fixed(v, 1), "%")
    else if u == Some("$") then Text("$", Fixed(v, 2), "")
    else if u == Some("mins") then Text("", Fixed(v, 1), " mins")
    else Text("", Fixed(v, 1), if u.Some? && u.value != "" then " " + u.value else "")
  }

  /** The unit class can be read back from a formatted value: two units give
      the same rendering of a number exactly when they are treated alike. */
  lemma FormatValueIdentifiesClass(v: real, u1: Unit, u2: Unit)
    ensures FormatValue(v, u1) == FormatValue(v, u2) <==> ClassOf(u1) == ClassOf(u2)
  {
  }

  /** A delta: whether it is non-negative, and its magnitude rendered. */
  datatype SignedDelta = SignedDelta(nonNegative: bool, magnitude: Text)

  /** `delta >= 0`, then `formatDelta(Math.abs(delta), unit)`. */
  function SignDelta(delta: real, u: Unit): (d: SignedDelta)
    ensures d.nonNegative <==> delta >= 0.0
    ensures d.magnitude.number.value >= 0.0
    ensures d.magnitude == FormatDelta(d.magnitude.number.value, u)
    ensures d.magnitude == FormatDelta(Abs(delta), u)
  {
    SignedDelta(delta >= 0.0, FormatDelta(Abs(delta), u))
  }

  /** The sign character of a chip: `+`, or the minus sign U+2212. */
  function Sign(d: SignedDelta): string {
    if d.nonNegative then "+" else "\U{2212}"
  }

  /** The arrow of a gauge delta: up for non-negative, down otherwise. */
  function Arrow(d: SignedDelta): string {
    if d.nonNegative then "\U{25B2}" else "\U{25BC}"
  }

  /** The number a reader reconstructs from the shown sign and magnitude. */
  function ReadBack(d: SignedDelta): real {
    if Sign(d) == "+" then d.magnitude.number.value else -d.magnitude.number.value
  }

  /** Sign and magnitude lose nothing: reading them back gives the delta. */
  lemma SignDeltaRoundTrip(delta: real, u: Unit)
    ensures ReadBack(SignDelta(delta, u)) == delta
  {
  }

  /** Sign and arrow always agree. */
  lemma SignMatchesArrow(d: SignedDelta)
    ensures Sign(d) == "+" <==> Arrow(d) == "\U{25B2}"
  {
  }
}
