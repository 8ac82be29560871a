/** The backfill script (scripts/backfill-scores.js): every MLS id that has
    a row in `listing_signals` gets a score in `listing_scores`, computed by
    the script's own copy of the scoring rules. The copy reads the raw
    price and area without the range checks of the web application and
    counts a missing list price as a price of 0. */
module Backfill {
  import opened Js
  import opened Seqs
  import opened Strings
  import opened Store
  import opened Validation
  import opened Scoring
  import SignalRules

  /** A `listing_signals` row as the script reads it. */
  datatype SignalEntry = SignalEntry(mlsId: string, signalType: string, isPrimary: bool)

  /** What computeForMls returns for a scored listing. */
  datatype Outcome = Outcome(mlsId: string, finalScore: int)

  /** `SELECT ... FROM listings_raw WHERE mls_id = $1` followed by
      `listing[0]`: the first row with that id, if any. */
  function FirstListing(rows: seq<ListingRow>, mlsId: string): (r: Option<ListingRow>)
    ensures r.None? <==> forall i :: 0 <= i < |rows| ==> rows[i].mlsId != mlsId
    ensures r.Some? ==> exists i :: 0 <= i < |rows| && rows[i] == r.value
                                   && (forall j :: 0 <= j < i ==> rows[j].mlsId != mlsId)
    ensures r.Some? ==> r.value.mlsId == mlsId
  {
    if rows == [] then None
    else if rows[0].mlsId == mlsId then Some(rows[0])
    else
      var rest := FirstListing(rows[1..], mlsId);
      if rest.Some? then
        var i :| 0 <= i < |rows[1..]| && rows[1..][i] == rest.value
                 && (forall j :: 0 <= j < i ==> rows[1..][j].mlsId != mlsId);
        assert rows[i + 1] == rest.value;
        rest
      else rest
  }

  /** `L.sqft && L.list_price ? Number(L.list_price) / Number(L.sqft) : null`:
      the raw price per square foot, with no range check on either. */
  function RawPps(l: ListingRow): (r: Option<real>)
    ensures r.Some? <==> Truthy(l.listPrice) && Truthy(l.sqft)
    ensures r.Some? ==> r.value * l.sqft.value == l.listPrice.value
  {
    if Truthy(l.sqft) && Truthy(l.listPrice) then Some(l.listPrice.value / l.sqft.value) else None
  }

  /** `medPrice ? ((medPrice - (L.list_price || 0)) / medPrice) * 100 : 0`:
      a missing or zero list price counts as a price of 0. */
  function RawPriceDiffPct(medPrice: Option<real>, listPrice: Option<real>): (d: real)
    ensures !Truthy(medPrice) ==> d == 0.0
    ensures Truthy(medPrice) ==> d * medPrice.value == (medPrice.value - OrElse(listPrice, 0.0)) * 100.0
  {
    if Truthy(medPrice) then (medPrice.value - OrElse(listPrice, 0.0)) / medPrice.value * 100.0 else 0.0
  }

  /** `signals.some((s) => s.is_primary)` over the rows of one listing. */
  predicate HasPrimary(entries: seq<SignalEntry>, mlsId: string) {
    exists i :: 0 <= i < |entries| && entries[i].mlsId == mlsId && entries[i].isPrimary
  }

  /** `signals.map((s) => s.signal_type)` over the rows of one listing. */
  function TypesOf(entries: seq<SignalEntry>, mlsId: string): (r: seq<string>)
    ensures forall t :: t in r <==> exists i :: 0 <= i < |entries| && entries[i].mlsId == mlsId
                                               && entries[i].signalType == t
  {
    var mine := Filter(entries, (e: SignalEntry) => e.mlsId == mlsId);
    var r := MapSeq(mine, (e: SignalEntry) => e.signalType);
    assert forall t :: t in r ==> exists i :: 0 <= i < |entries| && entries[i].mlsId == mlsId
                                             && entries[i].signalType == t by {
      forall t | t in r
        ensures exists i :: 0 <= i < |entries| && entries[i].mlsId == mlsId && entries[i].signalType == t
      {
        var k :| 0 <= k < |r| && r[k] == t;
        var e := mine[k];
        assert e in entries;
        var i :| 0 <= i < |entries| && entries[i] == e;
      }
    }
    assert forall i :: 0 <= i < |entries| && entries[i].mlsId == mlsId ==> entries[i].signalType in r by {
      forall i | 0 <= i < |entries| && entries[i].mlsId == mlsId ensures entries[i].signalType in r {
        var e := entries[i];
        assert e in mine;
        var k :| 0 <= k < |mine| && mine[k] == e;
        assert r[k] == e.signalType;
      }
    }
    r
  }

  /** The size window of the script: around the raw area when it is truthy. */
  function BackfillWindow(l: ListingRow): Window {
    SizeWindow(OrElse(l.sqft, 0.0))
  }

  /** The components computeForMls stores for a listing row: every
      component in its range, and the final clamp changes nothing. */
  function BackfillScoreOf(rows: seq<ListingRow>, l: ListingRow, entries: seq<SignalEntry>): (c: Components)
    ensures 0 <= c.ppsComponent <= 50 && 0 <= c.priceComponent <= 25
    ensures c.domComponent in {0, 5, 10} && c.signalComponent in {0, 10, 15}
    ensures 0 <= c.rawScore <= 100 && c.finalScore == c.rawScore
  {
    var med := ChosenMedians(rows, l.town, PropTypeOf(l), BackfillWindow(l));
    Assemble(PpsDiffPct(RawPps(l), OrNull(med.medPps)), RawPriceDiffPct(OrNull(med.medPrice), l.listPrice),
             DomComponent(l.dom), SignalComponent(HasPrimary(entries, l.mlsId), TypesOf(entries, l.mlsId)),
             ReportedMedians(med))
  }

  /** What computeForMls returns: null for an id with no listing row. */
  function BackfillOutcome(rows: seq<ListingRow>, entries: seq<SignalEntry>, mlsId: string): (r: Option<Outcome>)
    ensures r.None? <==> FirstListing(rows, mlsId).None?
    ensures r.Some? ==> r.value.mlsId == mlsId && 0 <= r.value.finalScore <= 100
  {
    var listing := FirstListing(rows, mlsId);
    if listing.None? then None
    else Some(Outcome(mlsId, BackfillScoreOf(rows, listing.value, entries).finalScore))
  }

  /** The row computeForMls upserts under an id: none exactly when the id
      has no listing row, otherwise a score in [0, 100] stored with the
      components it is the final score of. */
  function StoredFor(rows: seq<ListingRow>, entries: seq<SignalEntry>): (f: string -> Option<StoredScore>)
    ensures forall mlsId :: f(mlsId).None? <==> FirstListing(rows, mlsId).None?
    ensures forall mlsId :: f(mlsId).Some? ==>
              f(mlsId).value.score == f(mlsId).value.components.finalScore && 0 <= f(mlsId).value.score <= 100
  {
    (mlsId: string) =>
      var listing := FirstListing(rows, mlsId);
      if listing.None? then None
      else
        var c := BackfillScoreOf(rows, listing.value, entries);
        Some(StoredScore(c.finalScore, c))
  }

  /** A map after upserting `f(id)` under each id in turn, skipping the ids
      `f` has nothing for: no key is removed, and every new key is such an
      id. */
  function UpsertEach<V>(m: map<string, V>, ids: seq<string>, f: string -> Option<V>): (r: map<string, V>)
    ensures forall k :: k in m ==> k in r
    ensures forall k :: k in r ==> k in m || (k in ids && f(k).Some?)
  {
    if ids == [] then m
    else UpsertOne(UpsertEach(m, ids[..|ids| - 1], f), ids[|ids| - 1], f)
  }

  /** `f(id)` upserted under `id`; the map unchanged when there is none. */
  function UpsertOne<V>(m: map<string, V>, id: string, f: string -> Option<V>): map<string, V> {
    var v := f(id);
    if v.None? then m else m[id := v.value]
  }

  /** One more id processed. */
  lemma UpsertEachSnoc<V>(m: map<string, V>, ids: seq<string>, f: string -> Option<V>, i: nat)
    requires i < |ids|
    ensures UpsertEach(m, ids[..i + 1], f) == UpsertOne(UpsertEach(m, ids[..i], f), ids[i], f)
  {
    assert ids[..i + 1][..i] == ids[..i];
  }

  /** Upserting in turn: a key ends up present exactly when it was present or
      one of the ids with a value, it holds its value when it is such an id,
      and it keeps its old value otherwise. */
  lemma {:induction false} UpsertEachMeaning<V>(m: map<string, V>, ids: seq<string>, f: string -> Option<V>, k: string)
    ensures k in UpsertEach(m, ids, f) <==> k in m || (k in ids && f(k).Some?)
    ensures k in ids && f(k).Some? ==> UpsertEach(m, ids, f)[k] == f(k).value
    ensures (k !in ids || f(k).None?) && k in m ==> UpsertEach(m, ids, f)[k] == m[k]
  {
    if ids != [] {
      var front := ids[..|ids| - 1];
      UpsertEachMeaning(m, front, f, k);
      assert ids == front + [ids[|ids| - 1]];
      assert k in ids <==> k in front || k == ids[|ids| - 1];
    }
  }

  /** `listing_scores` after computeForMls: upserted under the id when the
      listing exists, unchanged otherwise. */
  function Persisted(scores: map<string, StoredScore>, rows: seq<ListingRow>, entries: seq<SignalEntry>,
                     mlsId: string): (r: map<string, StoredScore>)
    ensures mlsId in r <==> mlsId in scores || FirstListing(rows, mlsId).Some?
    ensures FirstListing(rows, mlsId).Some? ==> r[mlsId] == StoredFor(rows, entries)(mlsId).value
    ensures forall k :: k != mlsId ==> (k in r <==> k in scores)
    ensures forall k :: k != mlsId && k in scores ==> r[k] == scores[k]
  {
    UpsertOne(scores, mlsId, StoredFor(rows, entries))
  }

  /** `listing_scores` after computeForMls on each id in turn: no score is
      removed, and a new one appears only for an id with a listing row. */
  function BackfillAll(scores: map<string, StoredScore>, rows: seq<ListingRow>, entries: seq<SignalEntry>,
                       ids: seq<string>): (r: map<string, StoredScore>)
    ensures forall k :: k in scores ==> k in r
    ensures forall k :: k in r ==> k in scores || (k in ids && FirstListing(rows, k).Some?)
  {
    UpsertEach(scores, ids, StoredFor(rows, entries))
  }

  predicate Distinct(ids: seq<string>) {
    forall i, j :: 0 <= i < j < |ids| ==> ids[i] != ids[j]
  }

  /** `SELECT DISTINCT mls_id FROM listing_signals`, in order of first
      appearance (SQL leaves the order open). */
  function DistinctIds(entries: seq<SignalEntry>): (ids: seq<string>)
    ensures Distinct(ids)
    ensures forall id :: id in ids <==> exists i :: 0 <= i < |entries| && entries[i].mlsId == id
  {
    if entries == [] then []
    else
      var front := entries[..|entries| - 1];
      var prev := DistinctIds(front);
      var id := entries[|entries| - 1].mlsId;
      assert forall i :: 0 <= i < |front| ==> front[i] == entries[i];
      if id in prev then prev else prev + [id]
  }

  /** The scoring steps of computeForMls for the listing row it found. */
  method ScoreListing(rows: seq<ListingRow>, l: ListingRow, entries: seq<SignalEntry>) returns (c: Components)
    ensures c == BackfillScoreOf(rows, l, entries)
  {
    var med := QueryMedians(rows, l.town, PropTypeOf(l), BackfillWindow(l));
    var medPrice, medPps := OrNull(med.medPrice), OrNull(med.medPps);

    var listingPps := RawPps(l);
    var ppsDiffPct := PpsDiffPct(listingPps, medPps);
    var priceDiffPct := RawPriceDiffPct(medPrice, l.listPrice);

    var domComponent := DomPoints(l.dom);
    var signalComponent := SignalPoints(HasPrimary(entries, l.mlsId), TypesOf(entries, l.mlsId));
    c := Assemble(ppsDiffPct, priceDiffPct, domComponent, signalComponent, ReportedMedians(med));
  }

  class Backfiller {
    /** `listings_raw` */
    var listings: seq<ListingRow>
    /** `listing_signals` */
    var signals: seq<SignalEntry>
    /** `listing_scores`, keyed by MLS id */
    var scores: map<string, StoredScore>

    constructor(listings: seq<ListingRow>, signals: seq<SignalEntry>, scores: map<string, StoredScore>)
      ensures this.listings == listings && this.signals == signals && this.scores == scores
    {
      this.listings := listings;
      this.signals := signals;
      this.scores := scores;
    }

    /** computeForMls: null and no write for an id without a listing row;
        otherwise the listing's score, upserted under the id. */
    method ComputeForMls(mlsId: string) returns (r: Option<Outcome>)
      modifies this`scores
      ensures r == BackfillOutcome(listings, signals, mlsId)
      ensures scores == Persisted(old(scores), listings, signals, mlsId)
    {
      var listing := FirstListing(listings, mlsId);
      if listing.None? {
        return None;
      }
      var c := ScoreListing(listings, listing.value, signals);
      scores := scores[mlsId := StoredScore(c.finalScore, c)];
      r := Some(Outcome(mlsId, c.finalScore));
    }

    /** main: computeForMls on every distinct id of `listing_signals`. */
    method RunBackfill() returns (ids: seq<string>)
      modifies this`scores
      ensures ids == DistinctIds(signals)
      ensures scores == BackfillAll(old(scores), listings, signals, ids)
    {
      ids := DistinctIds(signals);
      var i := 0;
      while i < |ids|
        invariant 0 <= i <= |ids|
        invariant scores == BackfillAll(old(scores), listings, signals, ids[..i])
      {
        var _ := ComputeForMls(ids[i]);
        UpsertEachSnoc(old(scores), ids, StoredFor(listings, signals), i);
        i := i + 1;
      }
      assert ids[..i] == ids;
    }
  }

  /** After the backfill, an id is stored exactly when it was stored before
      or it is one of the processed ids with a listing row; a processed id
      with a listing holds that listing's backfill score, and every other row
      of `listing_scores` is as it was. */
  lemma BackfillAllMeaning(scores: map<string, StoredScore>, rows: seq<ListingRow>,
                              entries: seq<SignalEntry>, ids: seq<string>, k: string)
    ensures k in BackfillAll(scores, rows, entries, ids) <==>
              k in scores || (k in ids && FirstListing(rows, k).Some?)
    ensures k in ids && FirstListing(rows, k).Some? ==>
              var c := BackfillScoreOf(rows, FirstListing(rows, k).value, entries);
              BackfillAll(scores, rows, entries, ids)[k] == StoredScore(c.finalScore, c)
    ensures (k !in ids || FirstListing(rows, k).None?) && k in scores ==>
              BackfillAll(scores, rows, entries, ids)[k] == scores[k]
  {
    UpsertEachMeaning(scores, ids, StoredFor(rows, entries), k);
  }

  /** The whole run: every listing with a signal row and a listing row gets
      its backfill score, and no other row of `listing_scores` changes. */
  lemma BackfillScoresEveryListingWithSignals(scores: map<string, StoredScore>, rows: seq<ListingRow>,
                                              entries: seq<SignalEntry>, k: string)
    ensures var after := BackfillAll(scores, rows, entries, DistinctIds(entries));
            (exists i :: 0 <= i < |entries| && entries[i].mlsId == k) && FirstListing(rows, k).Some? ==>
              var c := BackfillScoreOf(rows, FirstListing(rows, k).value, entries);
              k in after && after[k] == StoredScore(c.finalScore, c)
    ensures var after := BackfillAll(scores, rows, entries, DistinctIds(entries));
            (forall i :: 0 <= i < |entries| ==> entries[i].mlsId != k) ==>
              (k in after <==> k in scores) && (k in scores ==> after[k] == scores[k])
  {
    BackfillAllMeaning(scores, rows, entries, DistinctIds(entries), k);
  }

  /** When the listing's price and area are whole numbers inside the
      validated ranges and its price per square foot is too, the script
      computes the same components as computeAndPersistScore. */
  lemma AgreesWithScoringOnValidInputs(rows: seq<ListingRow>, l: ListingRow, entries: seq<SignalEntry>)
    requires l.listPrice.Some? && l.listPrice.value == l.listPrice.value.Floor as real
    requires MinPrice as real <= l.listPrice.value <= MaxPrice as real
    requires l.sqft.Some? && l.sqft.value == l.sqft.value.Floor as real
    requires MinSqft as real <= l.sqft.value <= MaxSqft as real
    requires MinPps <= l.listPrice.value / l.sqft.value <= MaxPps
    requires l.town.Some?
    ensures BackfillScoreOf(rows, l, entries)
            == ScoreOf(rows, l, HasPrimary(entries, l.mlsId), TypesOf(entries, l.mlsId))
  {
    var p, s := l.listPrice.value, l.sqft.value;
    RoundOfInteger(p.Floor);
    RoundOfInteger(s.Floor);
    assert PriceValidated(l) == Some(p.Floor);
    assert SqftValidated(l) == Some(s.Floor);
    assert ListingPps(PriceValidated(l), SqftValidated(l)) == RawPps(l);
    assert ScoreWindow(l) == BackfillWindow(l);
    assert Some(TownOrEmpty(l)) == l.town;
    var med := ChosenMedians(rows, l.town, PropTypeOf(l), BackfillWindow(l));
    PriceDiffAgrees(OrNull(med.medPrice), PriceValidated(l), l.listPrice);
  }

  /** A listing whose town is null: the script queries with NULL, which
      matches no row, so all its medians are null; computeAndPersistScore
      queries with '' instead and takes the medians of the rows whose town
      is ''. */
  lemma NullTownCohorts(rows: seq<ListingRow>, l: ListingRow)
    requires l.town.None?
    ensures ChosenMedians(rows, l.town, PropTypeOf(l), BackfillWindow(l)) == MedianRow(None, None, None)
    ensures ChosenMedians(rows, Some(TownOrEmpty(l)), PropTypeOf(l), ScoreWindow(l))
            == ChosenMedians(rows, Some(""), PropTypeOf(l), ScoreWindow(l))
  {
    var w := BackfillWindow(l);
    var tc := TownCohort(rows, l.town);
    assert tc != [] ==> InTownCohort(tc[0], l.town);
    if PropTypeOf(l).Some? {
      var nc := NarrowCohort(rows, l.town, PropTypeOf(l).value, w);
      assert nc != [] ==> InNarrowCohort(nc[0], l.town, PropTypeOf(l).value, w);
    }
  }

  lemma PriceDiffAgrees(medPrice: Option<real>, priceV: Option<int>, listPrice: Option<real>)
    requires priceV.Some? && priceV.value > 0 && listPrice == Some(priceV.value as real)
    ensures PriceDiffPct(medPrice, priceV) == RawPriceDiffPct(medPrice, listPrice)
  {
  }

  /** With no list price the price lies 100 percent below any positive median. */
  lemma MissingPriceDiff(medPrice: real)
    requires medPrice > 0.0
    ensures RawPriceDiffPct(Some(medPrice), None) == 100.0
  {
    assert (medPrice - 0.0) / medPrice == 1.0;
  }

  /** A listing without a list price in a town with cohort rows: the script
      counts it as 100 percent below the median and gives it the whole price
      component, while computeAndPersistScore gives it none. */
  lemma MissingPriceGetsFullPriceComponent(rows: seq<ListingRow>, l: ListingRow, entries: seq<SignalEntry>,
                                           hasPrimary: bool, types: seq<string>)
    requires l.listPrice.None? && TownCohort(rows, l.town) != []
    ensures BackfillScoreOf(rows, l, entries).priceComponent == 25
    ensures ScoreOf(rows, l, hasPrimary, types).priceComponent == 0
  {
    var w := BackfillWindow(l);
    var propType := PropTypeOf(l);
    CohortChoice(rows, l.town, propType, w);
    if propType.Some? && NarrowCohort(rows, l.town, propType.value, w) != [] {
      CohortMediansInRange(NarrowCohort(rows, l.town, propType.value, w), l.town);
    } else {
      CohortMediansInRange(TownCohort(rows, l.town), l.town);
    }
    var med := ChosenMedians(rows, l.town, propType, w);
    MissingPriceDiff(med.medPrice.value);
    RoundOfInteger(25);
    RoundOfInteger(0);
  }

  /** The script's price per square foot skips the range checks: a listing
      of 10000 over 100 square feet has a price per square foot of 100 in
      the script and none in computeAndPersistScore. */
  lemma RawPpsIsUnvalidated(l: ListingRow)
    requires l.listPrice == Some(10000.0) && l.sqft == Some(100.0)
    ensures RawPps(l) == Some(100.0)
    ensures ListingPps(PriceValidated(l), SqftValidated(l)) == None
  {
  }

  /** The signal component of a listing read off its `listing_signals` rows:
      15 when one of its rows is primary, 10 when none is but one of its
      types mentions a price reduction, 0 otherwise. */
  lemma SignalComponentFromRows(entries: seq<SignalEntry>, mlsId: string)
    ensures var r := SignalComponent(HasPrimary(entries, mlsId), TypesOf(entries, mlsId));
            && (r == 15 <==> exists i :: 0 <= i < |entries| && entries[i].mlsId == mlsId && entries[i].isPrimary)
            && (r == 10 <==>
                  (forall i :: 0 <= i < |entries| && entries[i].mlsId == mlsId ==> !entries[i].isPrimary)
                  && (exists i :: 0 <= i < |entries| && entries[i].mlsId == mlsId
                                  && MentionsPriceReduction(entries[i].signalType)))
  {
    var types := TypesOf(entries, mlsId);
    if exists t :: t in types && MentionsPriceReduction(t) {
      var t :| t in types && MentionsPriceReduction(t);
      var i :| 0 <= i < |entries| && entries[i].mlsId == mlsId && entries[i].signalType == t;
    }
  }

  /** The signal computation writes only its five type names, none of which
      is long enough to contain "price_reduction" or "price-reduction", so
      over the rows it writes the signal component is 15 or 0, never 10. */
  lemma EngineRowsNeverScoreTen(entries: seq<SignalEntry>, mlsId: string)
    requires forall i :: 0 <= i < |entries| ==>
               exists t: SignalRules.SignalType :: entries[i].signalType == SignalRules.TypeName(t)
    ensures SignalComponent(HasPrimary(entries, mlsId), TypesOf(entries, mlsId)) in {0, 15}
  {
    forall t | t in TypesOf(entries, mlsId) ensures !MentionsPriceReduction(t) {
      var i :| 0 <= i < |entries| && entries[i].mlsId == mlsId && entries[i].signalType == t;
      var st: SignalRules.SignalType :| t == SignalRules.TypeName(st);
      if Contains(t, "price_reduction") {
        ContainsLength(t, "price_reduction");
      }
      if Contains(t, "price-reduction") {
        ContainsLength(t, "price-reduction");
      }
    }
  }
}
