/** Rows of the tables the core reads: `listings_raw` (one row per MLS
    listing) and `listing_snapshots` (one price per listing per day). */
module Store {
  import opened Js

  /** A `listings_raw` row; dates are whole days. */
  datatype ListingRow = ListingRow(
    mlsId: string,
    propertyType: Option<string>,
    status: string,
    listPrice: Option<real>,
    town: Option<string>,
    sqft: Option<real>,
    dom: Option<int>,
    address: Option<string>,
    createdAt: int,
    updatedAt: int)

  /** `town != '' AND town IS NOT NULL` */
  predicate HasTown(l: ListingRow) {
    l.town.Some? && l.town.value != ""
  }

  type Price = p: real | p >= 0.0

  /** A `listing_snapshots` row: the list price of a listing on one day,
      null when the listing had none. */
  datatype Snapshot = Snapshot(mlsId: string, date: int, listPrice: Option<Price>)

  /** `Number(list_price)`: a null price reads as 0. */
  function PriceNumber(s: Snapshot): Price {
    if s.listPrice.Some? then s.listPrice.value else 0.0
  }

  /** SQL `a = b` on a nullable text column: NULL equals nothing. */
  predicate SqlEq(a: Option<string>, b: Option<string>) {
    a.Some? && b.Some? && a.value == b.value
  }
}
