/** The library value types the bike record holds. Only their equality matters
    to the modelled code: no arithmetic and no calendar logic is performed. */
module Scalars {

  /** An exact decimal, as `java.math.BigDecimal`: the value is
      `unscaled * 10^-scale`, and two decimals are equal when both parts are. */
  datatype Decimal = Decimal(unscaled: int, scale: int)

  /** A calendar date, as `java.time.LocalDate`, identified by its day number
      counted from 1970-01-01. */
  datatype Date = Date(epochDay: int)
}
