/** The stored entity, the watch-list and the append-only price collection. */
module Prices {

  /** A partial result: `None` stands for a value JavaScript reports as NaN or undefined. */
  datatype Option<+T> = None | Some(value: T)

  /** An ISO-8601 timestamp as produced by `Date.prototype.toISOString`. */
  type Timestamp = string

  /** One observed price of one instrument at one moment (the `Price` schema). */
  datatype PriceSample = PriceSample(isin: string, timestamp: Timestamp, price: real)

  /** The instruments the scraper keeps (the `ISINS` array). */
  const Isins: seq<string> := ["UA4000234223", "UA4000207518"]

  /** The `Price` collection: documents are only ever appended. */
  class PriceStore {
    var samples: seq<PriceSample>

    constructor ()
      ensures samples == []
    {
      samples := [];
    }

    /** `Price.create`: the new document goes after every existing one. */
    method Create(s: PriceSample)
      modifies this
      ensures samples == old(samples) + [s]
    {
      samples := samples + [s];
    }
  }
}
