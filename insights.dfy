/** The host engine's values that every alpha model produces or consumes, as plain records. */
module Insights {

  /** A security identifier. The host's Symbol objects compare by value, as strings do. */
  type Symbol = string

  datatype Option<+T> = None | Some(value: T)

  /** The host's InsightDirection. */
  datatype Direction = Up | Down | Flat

  /** Durations are counted in whole minutes. */
  type Minutes = nat

  const OneDay: Minutes := 1440

  /** `Insight.Price(symbol, period, direction, magnitude)`: a prediction that the price of
      `symbol` moves in `direction` within `period`. A magnitude left out by the caller is None. */
  datatype Insight = Insight(symbol: Symbol, period: Minutes, direction: Direction, magnitude: Option<real>)
}
