/** The raw search hits returned by the listing client, as far as the scraper
    looks into them. Every leaf value is opaque: the scraper copies prices,
    ratings and coordinates without computing with them. */
module Hits {

  import opened Wrappers

  /** A leaf value of the client's JSON payload (number, string, boolean or
      null); never inspected. */
  type Value(==)

  /** The leaf keys of one JSON object. */
  type Attrs = map<string, Value>

  /** `d.get(key)`: the value stored under `key`, or None when it is absent. */
  function Get(d: Attrs, key: string): (r: Option<Value>)
    ensures r.Some? <==> key in d
    ensures r.Some? ==> r.value == d[key]
  {
    if key in d then Some(d[key]) else None
  }

  /** The `primary_host` object nested in a listing. */
  datatype Host = Host(attrs: Attrs)

  /** The `listing` object of a hit, with its optional `primary_host`. */
  datatype Listing = Listing(attrs: Attrs, primaryHost: Option<Host>)

  /** The `rate` object nested in a pricing quote. */
  datatype Rate = Rate(attrs: Attrs)

  /** The `pricing_quote` object of a hit, with its optional `rate`. */
  datatype PricingQuote = PricingQuote(attrs: Attrs, rate: Option<Rate>)

  /** One element of a search reply's `results` list. */
  datatype RawHit = RawHit(listing: Option<Listing>, pricingQuote: Option<PricingQuote>)
}
