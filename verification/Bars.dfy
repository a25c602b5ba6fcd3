/** src/swingdash/domain/bars.py: daily and intraday bars. A NaN high or low is an unknown one. */
module Bars {
  import opened Wrappers

  datatype DailyBar = DailyBar(
    date: int,
    open: Option<real>,
    high: Option<real>,
    low: Option<real>,
    close: real,
    volume: real)

  /** One-minute candle; `ts` in seconds. */
  datatype MinuteBar = MinuteBar(ts: int, volume: real)
}
