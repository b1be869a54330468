/** `extract_listing_info`: the projection of raw hits onto flat records with
    a fixed list of seventeen columns. */
module Extract {

  import opened Wrappers
  import opened Hits

  /** One key of an output record and the value stored under it. */
  datatype Field = Field(key: string, value: Option<Value>)

  /** An output dictionary, as its fields in insertion order (the order the
      CSV writer later takes its header from). */
  type Record = seq<Field>

  /** The keys of a record, in insertion order. */
  function Keys(rec: Record): (ks: seq<string>)
    ensures |ks| == |rec|
    ensures forall i :: 0 <= i < |rec| ==> ks[i] == rec[i].key
  {
    if |rec| == 0 then [] else Keys(rec[..|rec| - 1]) + [rec[|rec| - 1].key]
  }

  /** No key occurs twice, as in every Python dictionary. */
  predicate DistinctKeys(rec: Record) {
    forall i, j :: 0 <= i < j < |rec| ==> rec[i].key != rec[j].key
  }

  /** `rec.get(key)`: the value under the first field named `key`. */
  function Lookup(rec: Record, key: string): Option<Value> {
    if |rec| == 0 then None
    else if rec[0].key == key then rec[0].value
    else Lookup(rec[1..], key)
  }

  /** Where a column's value lives in a raw hit: a key of the `listing`
      block, of its `primary_host`, of the `pricing_quote` block, or of that
      quote's `rate`. */
  datatype Source =
    | InListing(key: string)
    | InHost(key: string)
    | InQuote(key: string)
    | InRate(key: string)

  /** The output columns, in the order the source builds each dictionary. */
  const Columns: seq<string> := [
    "id", "name", "property_type", "room_type", "bedrooms", "bathrooms",
    "price_per_night", "monthly_price_factor", "weekly_price_factor",
    "is_superhost", "license_code", "latitude", "longitude", "reviews_count",
    "star_rating", "city", "neighborhood"
  ]

  /** Where each column is read from, position by position with Columns. */
  const Sources: seq<Source> := [
    InListing("id"), InListing("name"), InListing("property_type"),
    InListing("room_type_category"), InListing("bedrooms"), InListing("bathrooms"),
    InRate("amount"), InQuote("monthly_price_factor"), InQuote("weekly_price_factor"),
    InHost("is_superhost"), InListing("license"), InListing("lat"), InListing("lng"),
    InListing("reviews_count"), InListing("star_rating"), InListing("city"),
    InListing("localized_neighborhood")
  ]

  /** The record has exactly the output columns, in order. */
  predicate HasColumns(rec: Record) {
    |rec| == |Columns| && forall i :: 0 <= i < |Columns| ==> rec[i].key == Columns[i]
  }

  /** Reference reading of a column: follow the nested blocks, and give None
      as soon as one of them is absent or the final key is. */
  function Resolve(hit: RawHit, src: Source): Option<Value> {
    match src
    case InListing(k) =>
      if hit.listing.Some? then Get(hit.listing.value.attrs, k) else None
    case InHost(k) =>
      if hit.listing.Some? && hit.listing.value.primaryHost.Some?
      then Get(hit.listing.value.primaryHost.value.attrs, k) else None
    case InQuote(k) =>
      if hit.pricingQuote.Some? then Get(hit.pricingQuote.value.attrs, k) else None
    case InRate(k) =>
      if hit.pricingQuote.Some? && hit.pricingQuote.value.rate.Some?
      then Get(hit.pricingQuote.value.rate.value.attrs, k) else None
  }

  /** The body of the loop of `extract_listing_info` for one hit: absent
      blocks are replaced by empty dictionaries, then each key is read. */
  function ExtractOne(hit: RawHit): (rec: Record)
    ensures HasColumns(rec)
    ensures forall i :: 0 <= i < |Sources| ==> rec[i].value == Resolve(hit, Sources[i])
  {
    var data := if hit.listing.Some? then hit.listing.value else Listing(map[], None);
    var host := if data.primaryHost.Some? then data.primaryHost.value.attrs else map[];
    var quote := if hit.pricingQuote.Some? then hit.pricingQuote.value else PricingQuote(map[], None);
    var pricing := if quote.rate.Some? then quote.rate.value.attrs else map[];
    [ Field("id", Get(data.attrs, "id")),
      Field("name", Get(data.attrs, "name")),
      Field("property_type", Get(data.attrs, "property_type")),
      Field("room_type", Get(data.attrs, "room_type_category")),
      Field("bedrooms", Get(data.attrs, "bedrooms")),
      Field("bathrooms", Get(data.attrs, "bathrooms")),
      Field("price_per_night", Get(pricing, "amount")),
      Field("monthly_price_factor", Get(quote.attrs, "monthly_price_factor")),
      Field("weekly_price_factor", Get(quote.attrs, "weekly_price_factor")),
      Field("is_superhost", Get(host, "is_superhost")),
      Field("license_code", Get(data.attrs, "license")),
      Field("latitude", Get(data.attrs, "lat")),
      Field("longitude", Get(data.attrs, "lng")),
      Field("reviews_count", Get(data.attrs, "reviews_count")),
      Field("star_rating", Get(data.attrs, "star_rating")),
      Field("city", Get(data.attrs, "city")),
      Field("neighborhood", Get(data.attrs, "localized_neighborhood")) ]
  }

  /** `extract_listing_info(listings)`: one record appended per hit. */
  function ExtractListingInfo(hits: seq<RawHit>): (recs: seq<Record>)
    ensures |recs| == |hits|
    ensures forall i :: 0 <= i < |hits| ==> recs[i] == ExtractOne(hits[i])
    ensures forall i :: 0 <= i < |recs| ==> HasColumns(recs[i])
  {
    if |hits| == 0 then []
    else ExtractListingInfo(hits[..|hits| - 1]) + [ExtractOne(hits[|hits| - 1])]
  }

  /** No column name is repeated, so the records are well-formed
      dictionaries and each column has one cell. */
  lemma ColumnsDistinct()
    ensures forall i, j :: 0 <= i < j < |Columns| ==> Columns[i] != Columns[j]
  {
  }

  /** A key not repeated before position `i` is looked up at position `i`. */
  lemma {:induction false} LookupFirst(rec: Record, i: nat)
    requires i < |rec|
    requires forall j :: 0 <= j < i ==> rec[j].key != rec[i].key
    ensures Lookup(rec, rec[i].key) == rec[i].value
  {
    if i > 0 {
      LookupFirst(rec[1..], i - 1);
    }
  }

  /** A record with the output columns is a well-formed dictionary. */
  lemma ColumnKeysDistinct(rec: Record)
    requires HasColumns(rec)
    ensures DistinctKeys(rec)
  {
    ColumnsDistinct();
  }

  /** Looking a column up by name in a projected record gives the table's
      reading of that column. */
  lemma ExtractOneByName(hit: RawHit, i: nat)
    requires i < |Columns|
    ensures Lookup(ExtractOne(hit), Columns[i]) == Resolve(hit, Sources[i])
  {
    ColumnsDistinct();
    LookupFirst(ExtractOne(hit), i);
  }

  /** Every listing-derived column, `is_superhost` included, is None when the
      hit has no `listing` block. */
  lemma MissingListing(hit: RawHit, i: nat)
    requires hit.listing.None?
    requires i < |Columns|
    requires Sources[i].InListing? || Sources[i].InHost?
    ensures Lookup(ExtractOne(hit), Columns[i]) == None
  {
    ExtractOneByName(hit, i);
  }

  /** The pricing columns are read from the hit's `pricing_quote` alone:
      replacing the `listing` block leaves them unchanged. */
  lemma PricingIgnoresListing(hit: RawHit, other: Option<Listing>, i: nat)
    requires i < |Columns|
    requires Sources[i].InQuote? || Sources[i].InRate?
    ensures Lookup(ExtractOne(hit), Columns[i]) == Lookup(ExtractOne(hit.(listing := other)), Columns[i])
  {
    ExtractOneByName(hit, i);
    ExtractOneByName(hit.(listing := other), i);
  }

  /** Without a `primary_host` block, `is_superhost` is None. */
  lemma MissingHost(hit: RawHit)
    requires hit.listing.None? || hit.listing.value.primaryHost.None?
    ensures Lookup(ExtractOne(hit), "is_superhost") == None
  {
    ExtractOneByName(hit, 9);
  }

  /** Without a `pricing_quote` block or its `rate`, `price_per_night` is
      None; without the quote, both price factors are None too. */
  lemma MissingRate(hit: RawHit)
    requires hit.pricingQuote.None? || hit.pricingQuote.value.rate.None?
    ensures Lookup(ExtractOne(hit), "price_per_night") == None
    ensures hit.pricingQuote.None? ==>
      Lookup(ExtractOne(hit), "monthly_price_factor") == None
      && Lookup(ExtractOne(hit), "weekly_price_factor") == None
  {
    ExtractOneByName(hit, 6);
    ExtractOneByName(hit, 7);
    ExtractOneByName(hit, 8);
  }

  /** A present key is copied as is: with the `listing` block present, every
      listing column holds exactly the block's entry for its source key. */
  lemma PresentListingCopied(hit: RawHit, i: nat)
    requires hit.listing.Some?
    requires i < |Columns| && Sources[i].InListing?
    ensures Sources[i].key in hit.listing.value.attrs ==>
      Lookup(ExtractOne(hit), Columns[i]) == Some(hit.listing.value.attrs[Sources[i].key])
    ensures Sources[i].key !in hit.listing.value.attrs ==>
      Lookup(ExtractOne(hit), Columns[i]) == None
  {
    ExtractOneByName(hit, i);
  }

  /** The projection works hit by hit: projecting a concatenation is
      concatenating the projections. */
  lemma ExtractAppend(a: seq<RawHit>, b: seq<RawHit>)
    ensures ExtractListingInfo(a + b) == ExtractListingInfo(a) + ExtractListingInfo(b)
  {
  }
}
