/** The record behind both price views: one observed mandi price of a commodity on a date. */
module PriceRecords {
  import Dates

  /**
   * `price` is a JavaScript number that the views only carry and display;
   * no arithmetic is done on it, so it stays an uninterpreted real here.
   */
  datatype PriceRecord = PriceRecord(commodity: string, price: real, market: string, date: string)

  /** Every date is a YYYY-MM-DD calendar date, the form the price data uses. */
  predicate AllDatesWellFormed(data: seq<PriceRecord>) {
    forall i :: 0 <= i < |data| ==> Dates.WellFormed(data[i].date)
  }

  function RecordDate(r: PriceRecord): string {
    r.date
  }
}
