/** computeAndPersistScore (apps/web/src/lib/scoring.ts): a listing's score
    out of 100 from four one-sided components (price per square foot below
    the cohort median, price below the cohort median, days on market, and
    signals), with the cohort medians taken from `listings_raw` and the
    result upserted into `listing_scores` keyed by MLS id. */
module Scoring {
  import opened Js
  import opened Seqs
  import opened Strings
  import opened Medians
  import opened Store
  import opened Validation

  /** `sqft BETWEEN min AND max` */
  datatype Window = Window(min: int, max: int)

  /** Upper end of the window when the listing has no usable area. */
  const NoWindowMax: int := 9999999

  /** The size window of the narrow cohort: a quarter below and above a
      positive area, widened to whole square feet; every area otherwise. */
  function SizeWindow(sqft: real): (w: Window)
    ensures sqft > 0.0 ==> w.min as real <= 0.75 * sqft < w.min as real + 1.0
    ensures sqft > 0.0 ==> w.max as real - 1.0 < 1.25 * sqft <= w.max as real
    ensures sqft > 0.0 ==> w.min as real <= sqft <= w.max as real
    ensures sqft <= 0.0 ==> w == Window(0, NoWindowMax)
  {
    var lo := if sqft > 0.0 then Floor(sqft * 0.75) else 0;
    var hi := if sqft > 0.0 then Ceil(sqft * 1.25) else NoWindowMax;
    Window(lo, hi)
  }

  /** `list_price::numeric / NULLIF(sqft, 0)`: null when either is null or
      the area is 0. */
  function RowPps(l: ListingRow): (r: Option<real>)
    ensures r.Some? <==> l.listPrice.Some? && l.sqft.Some? && l.sqft.value != 0.0
  {
    if l.listPrice.Some? && l.sqft.Some? && l.sqft.value != 0.0 then Some(l.listPrice.value / l.sqft.value) else None
  }

  /** A row of the town-level cohort: same town ignoring case, a price in
      [20000, 50000000] and a price per square foot in [5, 5000]. In
      `LOWER(lr.town) = LOWER(town)` a null on either side matches nothing. */
  predicate InTownCohort(l: ListingRow, town: Option<string>) {
    && l.town.Some? && town.Some? && ToLower(l.town.value) == ToLower(town.value)
    && l.listPrice.Some? && l.sqft.Some?
    && MinPrice as real <= l.listPrice.value <= MaxPrice as real
    && RowPps(l).Some? && MinPps <= RowPps(l).value <= MaxPps
  }

  /** A row of the narrow cohort: also the same property type and an area
      within the window. */
  predicate InNarrowCohort(l: ListingRow, town: Option<string>, propType: string, w: Window) {
    && InTownCohort(l, town)
    && SqlEq(l.propertyType, Some(propType))
    && w.min as real <= l.sqft.value <= w.max as real
  }

  function TownCohort(rows: seq<ListingRow>, town: Option<string>): (r: seq<ListingRow>)
    ensures forall i :: 0 <= i < |r| ==> r[i] in rows && InTownCohort(r[i], town)
    ensures forall i :: 0 <= i < |rows| && InTownCohort(rows[i], town) ==> rows[i] in r
  {
    Filter(rows, (l: ListingRow) => InTownCohort(l, town))
  }

  function NarrowCohort(rows: seq<ListingRow>, town: Option<string>, propType: string, w: Window): (r: seq<ListingRow>)
    ensures forall i :: 0 <= i < |r| ==> r[i] in rows && InNarrowCohort(r[i], town, propType, w)
    ensures forall i :: 0 <= i < |rows| && InNarrowCohort(rows[i], town, propType, w) ==> rows[i] in r
  {
    Filter(rows, (l: ListingRow) => InNarrowCohort(l, town, propType, w))
  }

  /** The row of the median query: `med_price`, `med_sqft`, `med_pps`. */
  datatype MedianRow = MedianRow(medPrice: Option<real>, medSqft: Option<real>, medPps: Option<real>)

  function CohortPrices(cohort: seq<ListingRow>): seq<real> {
    MapSeq(cohort, (l: ListingRow) => l.listPrice.GetOr(0.0))
  }

  function CohortSqfts(cohort: seq<ListingRow>): seq<real> {
    MapSeq(cohort, (l: ListingRow) => l.sqft.GetOr(0.0))
  }

  function CohortPps(cohort: seq<ListingRow>): seq<real> {
    MapSeq(cohort, (l: ListingRow) => RowPps(l).GetOr(0.0))
  }

  /** The three `percentile_cont(0.5)` aggregates of a cohort. An aggregate
      without GROUP BY always returns one row, of nulls for no rows. */
  function MediansOf(cohort: seq<ListingRow>): MedianRow {
    MedianRow(InterpolatedMedian(CohortPrices(cohort)), InterpolatedMedian(CohortSqfts(cohort)),
              InterpolatedMedian(CohortPps(cohort)))
  }

  /** The medians of a cohort lie in the ranges its query filters on, so
      they are present, and non-zero, exactly when the cohort has a row. */
  lemma CohortMediansInRange(cohort: seq<ListingRow>, town: Option<string>)
    requires forall i :: 0 <= i < |cohort| ==> InTownCohort(cohort[i], town)
    ensures var m := MediansOf(cohort);
            && (Truthy(m.medPrice) <==> cohort != [])
            && (Truthy(m.medPps) <==> cohort != [])
            && (m.medPrice.Some? ==> MinPrice as real <= m.medPrice.value <= MaxPrice as real)
            && (m.medPps.Some? ==> MinPps <= m.medPps.value <= MaxPps)
  {
    InterpolatedMedianWithin(CohortPrices(cohort), MinPrice as real, MaxPrice as real);
    InterpolatedMedianWithin(CohortPps(cohort), MinPps, MaxPps);
  }

  /** `listing.property_type || null` */
  function PropTypeOf(l: ListingRow): (r: Option<string>)
    ensures r.Some? <==> l.propertyType.Some? && l.propertyType.value != ""
    ensures r.Some? ==> r == l.propertyType
  {
    if l.propertyType.Some? && l.propertyType.value != "" then l.propertyType else None
  }

  /** The medians the two queries settle on: the narrow cohort's when the
      listing has a property type and one of its price medians is truthy,
      the town's otherwise. */
  function ChosenMedians(rows: seq<ListingRow>, town: Option<string>, propType: Option<string>, w: Window): MedianRow {
    var narrow := if propType.Some? then Some(MediansOf(NarrowCohort(rows, town, propType.value, w))) else None;
    if narrow.None? || (!Truthy(narrow.value.medPps) && !Truthy(narrow.value.medPrice)) then MediansOf(TownCohort(rows, town))
    else narrow.value
  }

  /** The narrow cohort is used exactly when the listing has a property type
      and that cohort has a row; otherwise the town cohort is. */
  lemma CohortChoice(rows: seq<ListingRow>, town: Option<string>, propType: Option<string>, w: Window)
    ensures ChosenMedians(rows, town, propType, w)
            == if propType.Some? && NarrowCohort(rows, town, propType.value, w) != []
               then MediansOf(NarrowCohort(rows, town, propType.value, w))
               else MediansOf(TownCohort(rows, town))
  {
    if propType.Some? {
      var narrow := NarrowCohort(rows, town, propType.value, w);
      CohortMediansInRange(narrow, town);
    }
  }

  /** A validated integer as a nullable number. */
  function AsReal(v: Option<int>): (r: Option<real>)
    ensures r.Some? <==> v.Some?
    ensures r.Some? ==> r.value == v.value as real
  {
    if v.Some? then Some(v.value as real) else None
  }

  /** `validatePps(priceValidated && sqftValidated ? price / sqft : null)` */
  function ListingPps(priceV: Option<int>, sqftV: Option<int>): (r: Option<real>)
    ensures r.Some? ==> priceV.Some? && sqftV.Some? && sqftV.value != 0
    ensures r.Some? ==> MinPps <= r.value <= MaxPps && r.value == priceV.value as real / sqftV.value as real
    ensures priceV.Some? && priceV.value != 0 && sqftV.Some? && sqftV.value != 0 ==>
              r == ValidatePps(Finite(priceV.value as real / sqftV.value as real))
  {
    ValidatePps(if Truthy(AsReal(priceV)) && Truthy(AsReal(sqftV))
                then Finite(priceV.value as real / sqftV.value as real) else Absent)
  }

  /** How far, in percent of the median, the listing's price per square foot
      lies below the median's; 0 unless both are truthy. */
  function PpsDiffPct(pps: Option<real>, medPps: Option<real>): (d: real)
    ensures !(Truthy(pps) && Truthy(medPps)) ==> d == 0.0
    ensures Truthy(pps) && Truthy(medPps) ==> d * medPps.value == (medPps.value - pps.value) * 100.0
  {
    if Truthy(pps) && Truthy(medPps) then (medPps.value - pps.value) / medPps.value * 100.0 else 0.0
  }

  /** How far, in percent of the median, the validated price lies below the
      median price; 0 unless both are truthy. */
  function PriceDiffPct(medPrice: Option<real>, priceV: Option<int>): (d: real)
    ensures !(Truthy(medPrice) && Truthy(AsReal(priceV))) ==> d == 0.0
    ensures Truthy(medPrice) && Truthy(AsReal(priceV)) ==>
              d * medPrice.value == (medPrice.value - priceV.value as real) * 100.0
  {
    if Truthy(medPrice) && Truthy(AsReal(priceV)) then (medPrice.value - priceV.value as real) / medPrice.value * 100.0
    else 0.0
  }

  /** The deviation is positive exactly when the listing is below a positive
      median, and it never reaches 100 percent for a positive listing value. */
  lemma DeviationMeaning(value: real, median: real)
    requires value > 0.0 && median > 0.0
    ensures PpsDiffPct(Some(value), Some(median)) > 0.0 <==> value < median
    ensures PpsDiffPct(Some(value), Some(median)) < 100.0
  {
    var d := PpsDiffPct(Some(value), Some(median));
    var q := value / median;
    assert q > 0.0;
    assert d == (median - value) / median * 100.0;
    assert (median - value) / median == median / median - value / median;
    assert median / median == 1.0;
    assert q < 1.0 <==> value < median by {
      assert q * median == value;
    }
  }

  /** The days-on-market component: 10 from 90 days, 5 from 45 days, 0
      below that and for a null or zero count. */
  function DomComponent(dom: Option<int>): (r: int)
    ensures r == 10 <==> dom.Some? && dom.value >= 90
    ensures r == 5 <==> dom.Some? && 45 <= dom.value < 90
    ensures r == 0 <==> dom.None? || dom.value < 45
  {
    if dom.Some? && dom.value != 0 && dom.value >= 90 then 10
    else if dom.Some? && dom.value != 0 && dom.value >= 45 then 5
    else 0
  }

  /** `t.includes('price_reduction') || t.includes('price-reduction')` */
  predicate MentionsPriceReduction(t: string) {
    Contains(t, "price_reduction") || Contains(t, "price-reduction")
  }

  /** The signal component: 15 with a primary signal whatever the types, 10
      without one when some type mentions a price reduction, 0 otherwise. */
  function SignalComponent(hasPrimary: bool, types: seq<string>): (r: int)
    ensures r == 15 <==> hasPrimary
    ensures r == 10 <==> !hasPrimary && exists t :: t in types && MentionsPriceReduction(t)
    ensures r == 0 <==> !hasPrimary && forall t :: t in types ==> !MentionsPriceReduction(t)
  {
    if hasPrimary then 15
    else if exists t :: t in types && MentionsPriceReduction(t) then 10
    else 0
  }

  /** The object computeAndPersistScore returns and stores. */
  datatype Components = Components(
    ppsComponent: int,
    priceComponent: int,
    domComponent: int,
    signalComponent: int,
    rawScore: int,
    finalScore: int,
    medians: MedianRow)

  /** `Math.max(Math.min(x, hi), 0)` */
  function ClampPct(x: real, hi: real): (r: real)
    requires hi >= 0.0
    ensures 0.0 <= r <= hi
    ensures 0.0 <= x <= hi ==> r == x
  {
    Max(Min(x, hi), 0.0)
  }

  function IntMin(a: int, b: int): int {
    if a <= b then a else b
  }

  function IntMax(a: int, b: int): int {
    if a >= b then a else b
  }

  /** The weighting and rounding of computeAndPersistScore: the pps
      component is capped at 50 and the price component at 25; the raw score
      rounds the sum of the unrounded components, and the reported pps and
      price components are rounded one by one. With the dom and signal
      tiers the raw score is within [0, 100], so the final clamp keeps it. */
  function Assemble(ppsDiffPct: real, priceDiffPct: real, domC: int, sigC: int, medians: MedianRow): (c: Components)
    ensures 0 <= c.ppsComponent <= 50 && 0 <= c.priceComponent <= 25
    ensures c.domComponent == domC && c.signalComponent == sigC && c.medians == medians
    ensures c.rawScore == Round(ClampPct(ppsDiffPct, 50.0) + ClampPct(priceDiffPct, 25.0) + domC as real + sigC as real)
    ensures 0 <= c.finalScore <= 100
    ensures 0 <= domC <= 10 && 0 <= sigC <= 15 ==> 0 <= c.rawScore <= 100 && c.finalScore == c.rawScore
  {
    var ppsC := ClampPct(ppsDiffPct, 50.0);
    var priceC := ClampPct(priceDiffPct, 25.0);
    RoundWithin(ppsC, 0, 50);
    RoundWithin(priceC, 0, 25);
    var raw := Round(ppsC + priceC + domC as real + sigC as real);
    Components(Round(ppsC), Round(priceC), domC, sigC, raw, IntMin(IntMax(raw, 0), 100), medians)
  }

  /** The medians as reported: `med.x ? Number(med.x) : null`. */
  function ReportedMedians(m: MedianRow): (r: MedianRow)
    ensures r.medPrice.Some? <==> Truthy(m.medPrice)
    ensures r.medPps.Some? <==> Truthy(m.medPps)
  {
    MedianRow(OrNull(m.medPrice), OrNull(m.medSqft), OrNull(m.medPps))
  }

  /** The inputs computeAndPersistScore derives from the listing. */
  function SqftValidated(l: ListingRow): Option<int> {
    ValidateSqft(FromNullable(OrNull(l.sqft)))
  }

  function PriceValidated(l: ListingRow): Option<int> {
    ValidatePrice(FromNullable(OrNull(l.listPrice)))
  }

  /** The window computeAndPersistScore queries with: around the validated
      area, or every area when the area does not validate. */
  function ScoreWindow(l: ListingRow): Window {
    SizeWindow(OrElse(AsReal(SqftValidated(l)), 0.0))
  }

  /** `listing.town || ''`: the town computeAndPersistScore queries with. */
  function TownOrEmpty(l: ListingRow): string {
    l.town.GetOr("")
  }

  /** The score of a listing against the rows of `listings_raw`: every
      component in its range, and the final clamp changes nothing, since the
      maxima 50 + 25 + 10 + 15 sum to exactly 100. */
  function ScoreOf(rows: seq<ListingRow>, l: ListingRow, hasPrimary: bool, types: seq<string>): (c: Components)
    ensures 0 <= c.ppsComponent <= 50 && 0 <= c.priceComponent <= 25
    ensures c.domComponent in {0, 5, 10} && c.signalComponent in {0, 10, 15}
    ensures 0 <= c.rawScore <= 100 && c.finalScore == c.rawScore
  {
    var priceV := PriceValidated(l);
    var med := ChosenMedians(rows, Some(TownOrEmpty(l)), PropTypeOf(l), ScoreWindow(l));
    var pps := ListingPps(priceV, SqftValidated(l));
    Assemble(PpsDiffPct(pps, OrNull(med.medPps)), PriceDiffPct(OrNull(med.medPrice), priceV),
             DomComponent(l.dom), SignalComponent(hasPrimary, types), ReportedMedians(med))
  }

  /** A listing whose price or area does not validate gets no pps component,
      and one whose price does not validate gets no price component either. */
  lemma InvalidInputsScoreNothing(rows: seq<ListingRow>, l: ListingRow, hasPrimary: bool, types: seq<string>)
    requires PriceValidated(l).None?
    ensures var c := ScoreOf(rows, l, hasPrimary, types);
            && c.ppsComponent == 0 && c.priceComponent == 0
            && c.rawScore == DomComponent(l.dom) + SignalComponent(hasPrimary, types)
  {
    var c := ScoreOf(rows, l, hasPrimary, types);
    RoundOfInteger(DomComponent(l.dom) + SignalComponent(hasPrimary, types));
    RoundOfInteger(0);
  }

  /** The reported components are rounded one by one, so they need not add
      up to the raw score: two halves round up to 1 each but sum to 1. */
  lemma RoundedComponentsNeedNotAddUp()
    ensures var c := Assemble(1.0, 2.0, 0, 0, MedianRow(None, None, None));
            c.ppsComponent + c.priceComponent == 3 && c.rawScore == 3
    ensures var c := Assemble(0.5, 0.5, 0, 0, MedianRow(None, None, None));
            c.ppsComponent + c.priceComponent == 2 && c.rawScore == 1
  {
  }

  /** A row of `listing_scores`: the final score and the components. */
  datatype StoredScore = StoredScore(score: int, components: Components)

  /** The narrow cohort query, and the town query when it gives no truthy
      median or the listing has no property type. */
  method QueryMedians(rows: seq<ListingRow>, town: Option<string>, propType: Option<string>, w: Window) returns (med: MedianRow)
    ensures med == ChosenMedians(rows, town, propType, w)
  {
    var medRow: Option<MedianRow> := None;
    if propType.Some? {
      medRow := Some(MediansOf(NarrowCohort(rows, town, propType.value, w)));
    }
    if medRow.None? || (!Truthy(medRow.value.medPps) && !Truthy(medRow.value.medPrice)) {
      medRow := Some(MediansOf(TownCohort(rows, town)));
    }
    med := medRow.value;
  }

  /** The days-on-market points: 10 from 90 days, 5 from 45. */
  method DomPoints(dom: Option<int>) returns (points: int)
    ensures points == DomComponent(dom)
  {
    points := 0;
    if dom.Some? && dom.value != 0 && dom.value >= 90 {
      points := 10;
    } else if dom.Some? && dom.value != 0 && dom.value >= 45 {
      points := 5;
    }
  }

  /** The signal points: 15 for a primary signal, else 10 when a type
      mentions a price reduction. */
  method SignalPoints(hasPrimary: bool, types: seq<string>) returns (points: int)
    ensures points == SignalComponent(hasPrimary, types)
  {
    points := 0;
    if hasPrimary {
      points := 15;
    } else if exists t :: t in types && MentionsPriceReduction(t) {
      points := 10;
    }
  }

  class ScoreStore {
    /** `listings_raw`, the rows the cohort medians come from */
    var listings: seq<ListingRow>
    /** `listing_scores`, keyed by MLS id */
    var scores: map<string, StoredScore>

    constructor(listings: seq<ListingRow>, scores: map<string, StoredScore>)
      ensures this.listings == listings && this.scores == scores
    {
      this.listings := listings;
      this.scores := scores;
    }

    /** computeAndPersistScore: the score of the listing, upserted under its
        MLS id; every other stored score is left as it was. */
    method ComputeAndPersistScore(l: ListingRow, hasPrimarySignal: bool, signalTypes: seq<string>)
      returns (c: Components)
      modifies this`scores
      ensures c == ScoreOf(listings, l, hasPrimarySignal, signalTypes)
      ensures scores == old(scores)[l.mlsId := StoredScore(c.finalScore, c)]
    {
      var sqftValidated := ValidateSqft(FromNullable(OrNull(l.sqft)));
      var priceValidated := ValidatePrice(FromNullable(OrNull(l.listPrice)));
      var sqft := OrElse(AsReal(sqftValidated), 0.0);
      var med := QueryMedians(listings, Some(TownOrEmpty(l)), PropTypeOf(l), SizeWindow(sqft));
      var medPrice, medPps := OrNull(med.medPrice), OrNull(med.medPps);

      var listingPps := ListingPps(priceValidated, sqftValidated);
      var ppsDiffPct := PpsDiffPct(listingPps, medPps);
      var priceDiffPct := PriceDiffPct(medPrice, priceValidated);

      var domComponent := DomPoints(l.dom);
      var signalComponent := SignalPoints(hasPrimarySignal, signalTypes);
      c := Assemble(ppsDiffPct, priceDiffPct, domComponent, signalComponent, ReportedMedians(med));
      scores := scores[l.mlsId := StoredScore(c.finalScore, c)];
    }
  }

  /** Persisting the same score twice leaves the table as persisting it once. */
  lemma PersistIdempotent(scores: map<string, StoredScore>, rows: seq<ListingRow>, l: ListingRow,
                          hasPrimary: bool, types: seq<string>)
    ensures var c := ScoreOf(rows, l, hasPrimary, types);
            var once := scores[l.mlsId := StoredScore(c.finalScore, c)];
            once[l.mlsId := StoredScore(c.finalScore, c)] == once
  {
  }
}
