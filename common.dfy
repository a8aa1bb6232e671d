/** Value types shared by the inventory models: nullable references, exact
    decimals and calendar dates. */
module Common {

  /** A C# nullable reference or nullable value (`string?`, `int?`). */
  datatype Option<+T> = None | Some(value: T)

  /** C# `decimal` is an exact base-10 number; it is modelled as an exact
      `real`, so sums, differences and products carry no rounding. */
  type Decimal = real

  /** The day of the month, as `DateTime.Day` returns it. */
  type Day = d: int | 1 <= d <= 31 witness 1

  /** The month of the year, as `DateTime.Month` returns it. */
  type MonthOfYear = m: int | 1 <= m <= 12 witness 1

  /** A `System.DateTime` reduced to its calendar date. */
  datatype DateTime = DateTime(year: int, month: MonthOfYear, day: Day)
}
