/**
 * The entities shared by the price code: one hourly price observation and the
 * three-valued day rating.
 */
module Models {

  /**
   * One observation. `dateTime` is the local hour it starts, counted in whole
   * hours, standing for the ISO 8601 local date-time string; `id` is carried
   * through unchanged and never inspected.
   */
  datatype Price = Price(id: string, dateTime: int, price: real)

  /** The sort key: the observation's instant. */
  function DateKey(p: Price): int {
    p.dateTime
  }

  /** The prices of a series, position by position. */
  function Values(s: seq<Price>): seq<real> {
    seq(|s|, i requires 0 <= i < |s| => s[i].price)
  }

  /** "BUENO", "NORMAL" and "MALO". */
  datatype DayRating = Bueno | Normal | Malo

  /** A rating's position from best to worst, for stating monotonicity. */
  function Rank(r: DayRating): nat {
    match r
    case Bueno => 0
    case Normal => 1
    case Malo => 2
  }
}
