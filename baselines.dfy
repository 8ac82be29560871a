/** The statistics of `SignalComputer.computeBaselines`
    (packages/ingest/src/signals.ts): listings are grouped by town, property
    type and price band, and every cell with enough recent listings gets a
    median days-on-market, a median list price and a price-cut rate. */
module Baselines {
  import opened Js
  import opened Seqs
  import opened Medians
  import opened Store

  /** The four bands, in the order the computation visits them. */
  const PriceBands: seq<string> := ["0-500k", "500k-1m", "1m-2m", "2m+"]

  /** Upper end of the top band; prices at or above it fall in no cell. */
  const BandCeiling: real := 999999999.0

  /** Fewest recent listings a cell needs to get a baseline. */
  const MinSample: nat := 5

  /** getPriceBand: lower-inclusive thresholds at 500k, 1m and 2m. */
  function GetPriceBand(price: real): (band: string)
    ensures band in PriceBands
    ensures band == "0-500k" <==> price < 500000.0
    ensures band == "2m+" <==> price >= 2000000.0
  {
    if price < 500000.0 then "0-500k"
    else if price < 1000000.0 then "500k-1m"
    else if price < 2000000.0 then "1m-2m"
    else "2m+"
  }

  /** A half-open price range `[min, max)`. */
  datatype Range = Range(min: real, max: real) {
    predicate Holds(p: real) {
      min <= p < max
    }
  }

  /** parsePriceBand: the range of a band; an unknown name gets the range of
      every price. */
  function ParsePriceBand(band: string): (r: Range)
    ensures r.min < r.max && r.min >= 0.0 && r.max <= BandCeiling
    ensures band !in PriceBands ==> r == Range(0.0, BandCeiling)
  {
    if band == "0-500k" then Range(0.0, 500000.0)
    else if band == "500k-1m" then Range(500000.0, 1000000.0)
    else if band == "1m-2m" then Range(1000000.0, 2000000.0)
    else if band == "2m+" then Range(2000000.0, BandCeiling)
    else Range(0.0, BandCeiling)
  }

  /** The two band functions agree: below the ceiling a non-negative price
      lies in the range of its band and in the range of no other band. */
  lemma BandsPartitionPrices(p: real, band: string)
    requires 0.0 <= p < BandCeiling && band in PriceBands
    ensures ParsePriceBand(band).Holds(p) <==> GetPriceBand(p) == band
  {
  }

  /** A listing of the cell (town, property type, band), by the price
      condition of both queries in the cell. */
  predicate InCell(l: ListingRow, town: string, propertyType: Option<string>, band: string) {
    && l.town == Some(town)
    && SqlEq(l.propertyType, propertyType)
    && l.listPrice.Some?
    && ParsePriceBand(band).Holds(l.listPrice.value)
  }

  /** The listings a baseline is computed from: the cell's rows updated on
      or after the cutoff day. */
  function CellListings(rows: seq<ListingRow>, town: string, propertyType: Option<string>,
                        band: string, cutoff: int): (r: seq<ListingRow>)
    ensures forall i :: 0 <= i < |r| ==> InCell(r[i], town, propertyType, band) && r[i].updatedAt >= cutoff
  {
    Filter(rows, (l: ListingRow) => InCell(l, town, propertyType, band) && l.updatedAt >= cutoff)
  }

  /** The listings the price-cut count looks at: the whole cell, with no
      cutoff on `updated_at`. */
  function CellIds(rows: seq<ListingRow>, town: string, propertyType: Option<string>, band: string): set<string> {
    set l | l in rows && InCell(l, town, propertyType, band) :: l.mlsId
  }

  /** A price cut in the self-join of `listing_snapshots`: a later snapshot
      of the same listing with a strictly lower price. A null price compares
      with nothing, so it takes part in no cut. */
  predicate IsCut(s1: Snapshot, s2: Snapshot) {
    && s1.mlsId == s2.mlsId && s1.date < s2.date
    && s1.listPrice.Some? && s2.listPrice.Some? && s2.listPrice.value < s1.listPrice.value
  }

  /** `COUNT(*)` of the self-join: pairs (s1, s2) of `all` with s1 drawn from
      `outer`, s1 a snapshot of a listing in `ids` and `IsCut(s1, s2)`. No
      pair counts when no snapshot of `outer` belongs to the cell. */
  function CutPairs(outer: seq<Snapshot>, all: seq<Snapshot>, ids: set<string>): (n: nat)
    ensures (forall i :: 0 <= i < |outer| ==> outer[i].mlsId !in ids) ==> n == 0
  {
    if outer == [] then 0
    else
      (if outer[0].mlsId in ids then CountWhere(all, (s2: Snapshot) => IsCut(outer[0], s2)) else 0)
      + CutPairs(outer[1..], all, ids)
  }

  /** A snapshot with a null price is neither side of a cut. */
  lemma NullPriceNoCut(s1: Snapshot, s2: Snapshot)
    requires s1.listPrice.None? || s2.listPrice.None?
    ensures !IsCut(s1, s2) && !IsCut(s2, s1)
  {
  }

  /** The number of price cuts counted for a cell: none for a cell none of
      whose listings has a snapshot, and none from a single snapshot. */
  function CutCount(snaps: seq<Snapshot>, ids: set<string>): (n: nat)
    ensures (forall i :: 0 <= i < |snaps| ==> snaps[i].mlsId !in ids) ==> n == 0
    ensures |snaps| <= 1 ==> n == 0
  {
    CutPairs(snaps, snaps, ids)
  }

  /** Every pair of dates counts, not only consecutive ones: three falling
      prices of one listing make three cuts. */
  lemma CutsArePairsNotSteps()
    ensures CutCount([Snapshot("A", 1, Some(300.0)), Snapshot("A", 2, Some(200.0)), Snapshot("A", 3, Some(100.0))], {"A"}) == 3
    ensures CutCount([Snapshot("A", 1, Some(300.0)), Snapshot("A", 2, Some(200.0)), Snapshot("A", 3, Some(100.0))], {"B"}) == 0
  {
  }

  /** A `town_type_band_baselines` row without its key. */
  datatype Baseline = Baseline(
    medianDom: Option<real>,
    medianListPrice: Option<real>,
    priceCutRate: real,
    sampleSize: nat)

  /** The non-null days on market of the sample. */
  function Doms(cell: seq<ListingRow>): seq<real> {
    MapSeq(Filter(cell, (l: ListingRow) => l.dom.Some?), (l: ListingRow) => l.dom.GetOr(0) as real)
  }

  /** The positive list prices of the sample. */
  function Prices(cell: seq<ListingRow>): seq<real> {
    Filter(MapSeq(cell, (l: ListingRow) => l.listPrice.GetOr(0.0)), (p: real) => p > 0.0)
  }

  /** The baseline one cell gets, or None when it has fewer than five recent
      listings (the cell is skipped and nothing is written). */
  function CellBaseline(rows: seq<ListingRow>, snaps: seq<Snapshot>, town: string,
                        propertyType: Option<string>, band: string, cutoff: int): (r: Option<Baseline>)
    ensures r.Some? <==> |CellListings(rows, town, propertyType, band, cutoff)| >= MinSample
    ensures r.Some? ==> r.value.sampleSize == |CellListings(rows, town, propertyType, band, cutoff)|
    ensures r.Some? ==> r.value.medianDom == UpperMedian(Doms(CellListings(rows, town, propertyType, band, cutoff)))
    ensures r.Some? ==> r.value.medianListPrice == UpperMedian(Prices(CellListings(rows, town, propertyType, band, cutoff)))
    ensures r.Some? ==> r.value.priceCutRate
                        == CutCount(snaps, CellIds(rows, town, propertyType, band)) as real / r.value.sampleSize as real
    ensures r.Some? ==> r.value.priceCutRate >= 0.0
  {
    var cell := CellListings(rows, town, propertyType, band, cutoff);
    if |cell| < MinSample then None
    else
      var md := UpperMedian(Doms(cell));
      var mp := UpperMedian(Prices(cell));
      var cuts := CutCount(snaps, CellIds(rows, town, propertyType, band));
      RateNonNegative(cuts, |cell|);
      Some(Baseline(md, mp, cuts as real / |cell| as real, |cell|))
  }

  lemma RateNonNegative(cuts: nat, size: nat)
    requires size > 0
    ensures cuts as real / size as real >= 0.0
  {
  }

  /** A baseline's medians are values of its sample: the median price is a
      positive price inside the band and the median days on market is the
      days on market of a sampled listing. */
  lemma BaselineMediansFromSample(rows: seq<ListingRow>, snaps: seq<Snapshot>, town: string,
                                  propertyType: Option<string>, band: string, cutoff: int)
    requires CellBaseline(rows, snaps, town, propertyType, band, cutoff).Some?
    ensures var b := CellBaseline(rows, snaps, town, propertyType, band, cutoff).value;
            b.medianListPrice.Some? ==>
              b.medianListPrice.value > 0.0 && ParsePriceBand(band).Holds(b.medianListPrice.value)
    ensures var b := CellBaseline(rows, snaps, town, propertyType, band, cutoff).value;
            b.medianDom.Some? ==>
              exists l :: l in CellListings(rows, town, propertyType, band, cutoff)
                          && l.dom.Some? && l.dom.value as real == b.medianDom.value
  {
    var cell := CellListings(rows, town, propertyType, band, cutoff);
    PricesInBand(cell, town, propertyType, band, cutoff);
    DomsFromCell(cell);
  }

  /** A baseline's medians are medians of its sample: at most half of the
      sample's non-null days on market lie below the median days on market
      and at most half above it, and likewise for the positive prices. */
  lemma BaselineMediansRank(rows: seq<ListingRow>, snaps: seq<Snapshot>, town: string,
                            propertyType: Option<string>, band: string, cutoff: int)
    requires CellBaseline(rows, snaps, town, propertyType, band, cutoff).Some?
    ensures var b := CellBaseline(rows, snaps, town, propertyType, band, cutoff).value;
            var ds := Doms(CellListings(rows, town, propertyType, band, cutoff));
            (b.medianDom.Some? <==> ds != [])
            && (b.medianDom.Some? ==>
                  CountWhere(ds, Below(b.medianDom.value)) <= |ds| / 2
                  && CountWhere(ds, Above(b.medianDom.value)) <= |ds| - 1 - |ds| / 2)
    ensures var b := CellBaseline(rows, snaps, town, propertyType, band, cutoff).value;
            var ps := Prices(CellListings(rows, town, propertyType, band, cutoff));
            (b.medianListPrice.Some? <==> ps != [])
            && (b.medianListPrice.Some? ==>
                  CountWhere(ps, Below(b.medianListPrice.value)) <= |ps| / 2
                  && CountWhere(ps, Above(b.medianListPrice.value)) <= |ps| - 1 - |ps| / 2)
  {
    var cell := CellListings(rows, town, propertyType, band, cutoff);
    if Doms(cell) != [] {
      MedianRank(Doms(cell));
    }
    if Prices(cell) != [] {
      MedianRank(Prices(cell));
    }
  }

  lemma PricesInBand(cell: seq<ListingRow>, town: string, propertyType: Option<string>, band: string, cutoff: int)
    requires forall i :: 0 <= i < |cell| ==> InCell(cell[i], town, propertyType, band)
    ensures forall p :: p in Prices(cell) ==> p > 0.0 && ParsePriceBand(band).Holds(p)
  {
    var ps := MapSeq(cell, (l: ListingRow) => l.listPrice.GetOr(0.0));
    forall p | p in Prices(cell) ensures p > 0.0 && ParsePriceBand(band).Holds(p) {
      var i :| 0 <= i < |Prices(cell)| && Prices(cell)[i] == p;
      assert p in ps;
      var j :| 0 <= j < |ps| && ps[j] == p;
      assert InCell(cell[j], town, propertyType, band);
    }
  }

  lemma DomsFromCell(cell: seq<ListingRow>)
    ensures forall d :: d in Doms(cell) ==> exists l :: l in cell && l.dom.Some? && l.dom.value as real == d
  {
    var withDom := Filter(cell, (l: ListingRow) => l.dom.Some?);
    forall d | d in Doms(cell) ensures exists l :: l in cell && l.dom.Some? && l.dom.value as real == d {
      var i :| 0 <= i < |Doms(cell)| && Doms(cell)[i] == d;
      assert withDom[i] in cell;
    }
  }

  /** The price-cut rate is not a proportion: one listing of a five-listing
      cell whose price fell three times on different days already makes it
      6/5 (six ordered pairs of dates). */
  lemma CutRateCanExceedOne()
    ensures CutCount([Snapshot("A", 1, Some(400.0)), Snapshot("A", 2, Some(300.0)),
                      Snapshot("A", 3, Some(200.0)), Snapshot("A", 4, Some(100.0))], {"A", "B", "C", "D", "E"}) as real / 5.0 > 1.0
  {
  }
}
