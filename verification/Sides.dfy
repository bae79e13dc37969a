/** The side of an order. */
module Sides {
  datatype Side = BUY | SELL
}
