/** The per-listing rules of `SignalComputer.computeListingSignals` and
    `checkRecentPriceDrop` (packages/ingest/src/signals.ts): five
    independent rules compare a listing with the baseline of its cell, each
    firing rule yields a scored signal, and the best-scored signal is marked
    primary. */
module SignalRules {
  import opened Js
  import opened Seqs
  import opened Sorting
  import opened Store
  import opened Baselines

  datatype SignalType = Stale | RecentDrop | LikelyCut | Underpriced | Hot

  /** The `signal_type` column value of each type. */
  function TypeName(t: SignalType): (name: string)
    ensures 3 <= |name| <= 11
  {
    match t
    case Stale => "stale"
    case RecentDrop => "recent_drop"
    case LikelyCut => "likely_cut"
    case Underpriced => "underpriced"
    case Hot => "hot"
  }

  /** Distinct types are stored under distinct names, so the
      (mls_id, signal_type) key tells the types of one listing apart. */
  lemma TypeNamesDistinct(t: SignalType, u: SignalType)
    ensures TypeName(t) == TypeName(u) <==> t == u
  {
  }

  /** The object checkRecentPriceDrop returns. */
  datatype Drop = Drop(dropAmount: real, dropPercentage: real, previousPrice: real, currentPrice: real)

  /** The `metadata` each rule attaches to its signal. */
  datatype Metadata =
    | StaleInfo(dom: Option<int>, medianDom: real)
    | DropInfo(drop: Drop)
    | LikelyCutInfo(dom: Option<int>, medianDom: real, priceVsMedian: real)
    | UnderpricedInfo(listPrice: real, medianPrice: real)
    | HotInfo(dom: Option<int>, medianDom: real, status: string)

  datatype Signal = Signal(mlsId: string, signalType: SignalType, score: int, isPrimary: bool, metadata: Metadata)

  /** The rows computeSignals processes: a positive list price and a town. */
  predicate Active(l: ListingRow) {
    l.listPrice.Some? && l.listPrice.value > 0.0 && HasTown(l)
  }

  /** `Math.min(100, x)` */
  function Cap(x: int): (r: int)
    ensures r <= 100 && r <= x
    ensures x <= 100 ==> r == x
  {
    if x < 100 then x else 100
  }

  /** `listing.dom!` in arithmetic and comparisons: null counts as 0. */
  function DomOf(l: ListingRow): real {
    if l.dom.Some? then l.dom.value as real else 0.0
  }

  /** `b.median_dom || 21` */
  function MedianDomOf(b: Baseline): (md: real)
    ensures md != 0.0
  {
    OrElse(b.medianDom, 21.0)
  }

  /** `b.median_list_price || listing.list_price` */
  function MedianPriceOf(b: Baseline, price: real): (mp: real)
    ensures price != 0.0 ==> mp != 0.0
  {
    OrElse(b.medianListPrice, price)
  }

  // ---- the five rules -------------------------------------------------

  predicate StaleFires(d: real, md: real) {
    d >= Max(21.0, 1.5 * md)
  }

  function StaleScore(d: real, md: real): int
    requires md != 0.0
  {
    Cap(Round((d - md) / md * 50.0 + 50.0))
  }

  function DropScore(dropPercentage: real): int {
    Cap(Round(dropPercentage * 5.0))
  }

  predicate LikelyCutFires(status: string, d: real, md: real, p: real, mp: real) {
    status == "Active" && d >= 1.25 * md && p >= 1.03 * mp
  }

  function LikelyCutScore(d: real, md: real, p: real, mp: real): int
    requires md != 0.0 && mp != 0.0
  {
    Cap(Round(((p - mp) / mp + (d - md) / md) * 30.0))
  }

  predicate UnderpricedFires(d: real, md: real, p: real, mp: real) {
    p <= 0.97 * mp && d <= md
  }

  function UnderpricedScore(p: real, mp: real): int
    requires mp != 0.0
  {
    Cap(Round((mp - p) / mp * 200.0))
  }

  predicate HotFires(status: string, d: real, md: real) {
    (status == "Pending" || status == "Under Agreement") && d <= Min(7.0, 0.5 * md)
  }

  function HotScore(d: real, md: real): int {
    Cap(Round(md / Max(d, 1.0) * 30.0))
  }

  // ---- the signals of one listing --------------------------------------

  /** What one rule pushes: at most one signal, of the rule's type, about
      the listing, not primary, scored at most 100. */
  predicate PartOf(part: seq<Signal>, t: SignalType, id: string) {
    && |part| <= 1
    && forall s :: s in part ==> s.signalType == t && s.mlsId == id && !s.isPrimary && s.score <= 100
  }

  function StalePart(l: ListingRow, b: Baseline): (r: seq<Signal>)
    ensures PartOf(r, Stale, l.mlsId)
  {
    var d, md := DomOf(l), MedianDomOf(b);
    if StaleFires(d, md) then [Signal(l.mlsId, Stale, StaleScore(d, md), false, StaleInfo(l.dom, md))] else []
  }

  function DropPart(l: ListingRow, drop: Option<Drop>): (r: seq<Signal>)
    ensures PartOf(r, RecentDrop, l.mlsId)
  {
    if drop.Some? then [Signal(l.mlsId, RecentDrop, DropScore(drop.value.dropPercentage), false, DropInfo(drop.value))]
    else []
  }

  function LikelyCutPart(l: ListingRow, b: Baseline): (r: seq<Signal>)
    requires Active(l)
    ensures PartOf(r, LikelyCut, l.mlsId)
  {
    var d, md, p := DomOf(l), MedianDomOf(b), l.listPrice.value;
    var mp := MedianPriceOf(b, p);
    if LikelyCutFires(l.status, d, md, p, mp)
    then [Signal(l.mlsId, LikelyCut, LikelyCutScore(d, md, p, mp), false, LikelyCutInfo(l.dom, md, (p - mp) / mp))]
    else []
  }

  function UnderpricedPart(l: ListingRow, b: Baseline): (r: seq<Signal>)
    requires Active(l)
    ensures PartOf(r, Underpriced, l.mlsId)
  {
    var d, md, p := DomOf(l), MedianDomOf(b), l.listPrice.value;
    var mp := MedianPriceOf(b, p);
    if UnderpricedFires(d, md, p, mp)
    then [Signal(l.mlsId, Underpriced, UnderpricedScore(p, mp), false, UnderpricedInfo(p, mp))]
    else []
  }

  function HotPart(l: ListingRow, b: Baseline): (r: seq<Signal>)
    ensures PartOf(r, Hot, l.mlsId)
  {
    var d, md := DomOf(l), MedianDomOf(b);
    if HotFires(l.status, d, md) then [Signal(l.mlsId, Hot, HotScore(d, md), false, HotInfo(l.dom, md, l.status))] else []
  }

  /** The signals the rules push, in rule order: at most five, at most one
      of each type, all about the listing, none primary yet, none scored
      above 100. */
  function RuleSignals(l: ListingRow, b: Baseline, drop: Option<Drop>): (r: seq<Signal>)
    requires Active(l)
    ensures |r| <= 5
    ensures forall t :: CountWhere(r, OfType(t)) <= 1
    ensures forall s :: s in r ==> s.mlsId == l.mlsId && !s.isPrimary && s.score <= 100
  {
    var a, d, c, u, h := StalePart(l, b), DropPart(l, drop), LikelyCutPart(l, b), UnderpricedPart(l, b), HotPart(l, b);
    PartsFacts(a, d, c, u, h, l.mlsId);
    a + d + c + u + h
  }

  /** `(a, b) => b.signal_score - a.signal_score` */
  const ByScoreDesc: (Signal, Signal) -> real := (a: Signal, b: Signal) => (b.score - a.score) as real

  /** `signals[0].is_primary = true` */
  function MarkPrimary(s: seq<Signal>): (r: seq<Signal>)
    ensures |r| == |s|
  {
    if s == [] then [] else [s[0].(isPrimary := true)] + s[1..]
  }

  /** computeListingSignals given the baseline the lookup found and the
      recent drop of the listing: no signals without a baseline, otherwise
      one per firing rule, at most one of each type, all about the listing,
      and exactly one primary, the first, whenever there is any. The primary
      signal has the highest score, and among equal scores it is the one
      whose rule comes first (the sort is stable). */
  function ListingSignals(l: ListingRow, found: Option<Baseline>, drop: Option<Drop>): (r: seq<Signal>)
    requires Active(l)
    ensures found.None? ==> r == []
    ensures found.Some? ==> |r| == |RuleSignals(l, found.value, drop)|
    ensures |r| <= 5
    ensures forall t :: CountWhere(r, OfType(t)) <= 1
    ensures forall i :: 0 <= i < |r| ==> r[i].mlsId == l.mlsId
    ensures forall i :: 0 <= i < |r| ==> (r[i].isPrimary <==> i == 0)
    ensures r != [] ==> found.Some? && StartsWithBest(r, RuleSignals(l, found.value, drop))
  {
    if found.None? then []
    else
      var rules := RuleSignals(l, found.value, drop);
      MarkedShape(rules, l.mlsId);
      MarkPrimary(SortBy(rules, ByScoreDesc))
  }

  function OfType(t: SignalType): Signal -> bool {
    (s: Signal) => s.signalType == t
  }

  lemma CountOfPart(part: seq<Signal>, t: SignalType, id: string, u: SignalType)
    requires PartOf(part, t, id)
    ensures CountWhere(part, OfType(u)) <= (if t == u then 1 else 0)
  {
    if part != [] {
      assert part[0] in part;
      assert part[1..] == [];
    }
  }

  /** Five parts, one per rule, put together: at most five signals, at
      most one of each type, all about one listing, none primary, none
      scored above 100. */
  lemma PartsFacts(a: seq<Signal>, d: seq<Signal>, c: seq<Signal>, u: seq<Signal>, h: seq<Signal>, id: string)
    requires PartOf(a, Stale, id) && PartOf(d, RecentDrop, id) && PartOf(c, LikelyCut, id)
    requires PartOf(u, Underpriced, id) && PartOf(h, Hot, id)
    ensures var r := a + d + c + u + h;
            && |r| <= 5
            && (forall t :: CountWhere(r, OfType(t)) <= 1)
            && forall s :: s in r ==> s.mlsId == id && !s.isPrimary && s.score <= 100
  {
    forall t ensures CountWhere(a + d + c + u + h, OfType(t)) <= 1 {
      CountOfPart(a, Stale, id, t);
      CountOfPart(d, RecentDrop, id, t);
      CountOfPart(c, LikelyCut, id, t);
      CountOfPart(u, Underpriced, id, t);
      CountOfPart(h, Hot, id, t);
      CountAppend(a, d, OfType(t));
      CountAppend(a + d, c, OfType(t));
      CountAppend(a + d + c, u, OfType(t));
      CountAppend(a + d + c + u, h, OfType(t));
    }
  }

  /** The score comparator subtracts negated scores. */
  const NegScore: Signal -> real := (s: Signal) => -(s.score as real)

  /** Sorting by score and marking the first keeps the signals, makes
      exactly the first one primary, and puts a best-scored signal first. */
  lemma MarkedShape(rules: seq<Signal>, id: string)
    requires forall t :: CountWhere(rules, OfType(t)) <= 1
    requires forall s :: s in rules ==> s.mlsId == id && !s.isPrimary
    ensures var r := MarkPrimary(SortBy(rules, ByScoreDesc));
            && |r| == |rules|
            && (forall t :: CountWhere(r, OfType(t)) <= 1)
            && (forall i :: 0 <= i < |r| ==> r[i].mlsId == id)
            && (forall i :: 0 <= i < |r| ==> (r[i].isPrimary <==> i == 0))
            && (r != [] ==> StartsWithBest(r, rules))
  {
    var sorted := SortBy(rules, ByScoreDesc);
    SortedFromRules(rules, id);
    MarkPrimaryPointwise(sorted);
    forall t ensures CountWhere(MarkPrimary(sorted), OfType(t)) <= 1 {
      CountPermutation(rules, sorted, OfType(t));
      CountPointwise(MarkPrimary(sorted), sorted, OfType(t));
    }
    if rules != [] {
      HeadIsBest(rules);
    }
  }

  lemma SortedFromRules(rules: seq<Signal>, id: string)
    requires forall s :: s in rules ==> s.mlsId == id && !s.isPrimary
    ensures var sorted := SortBy(rules, ByScoreDesc);
            forall i :: 0 <= i < |sorted| ==> sorted[i].mlsId == id && !sorted[i].isPrimary
  {
    var sorted := SortBy(rules, ByScoreDesc);
    forall i | 0 <= i < |sorted| ensures sorted[i] in rules {
      assert sorted[i] in multiset(rules);
    }
  }

  /** Marking the first signal changes only its primary flag. */
  lemma MarkPrimaryPointwise(s: seq<Signal>)
    ensures var r := MarkPrimary(s);
            && (forall i :: 0 <= i < |r| ==> r[i].mlsId == s[i].mlsId && r[i].signalType == s[i].signalType)
            && (forall i :: 0 <= i < |r| ==> r[i].isPrimary == (i == 0 || s[i].isPrimary))
  {
  }

  /** `r` starts with a signal of the highest score, and that signal has
      the type of the earliest of `rules` with that score. */
  ghost predicate StartsWithBest(r: seq<Signal>, rules: seq<Signal>) {
    && r != []
    && (forall i :: 0 <= i < |r| ==> r[i].score <= r[0].score)
    && exists i :: 0 <= i < |rules| && rules[i].signalType == r[0].signalType
                   && rules[i].score == r[0].score
                   && (forall j :: 0 <= j < |rules| ==> rules[j].score <= rules[i].score)
                   && (forall j :: 0 <= j < i ==> rules[j].score < rules[i].score)
  }

  lemma SortedHeadTop(rules: seq<Signal>)
    requires rules != []
    ensures var r := MarkPrimary(SortBy(rules, ByScoreDesc));
            forall k :: 0 <= k < |r| ==> r[k].score <= r[0].score
  {
    var sorted := SortBy(rules, ByScoreDesc);
    var r := MarkPrimary(sorted);
    assert KeyedBy(rules, ByScoreDesc, NegScore);
    SortByKeySorted(rules, ByScoreDesc, NegScore);
    forall k | 0 <= k < |r| ensures r[k].score <= r[0].score {
      if k > 0 {
        assert NegScore(sorted[0]) <= NegScore(sorted[k]);
      }
    }
  }

  lemma SortedHeadEarliest(rules: seq<Signal>) returns (i: nat)
    requires rules != []
    ensures i < |rules| && rules[i] == SortBy(rules, ByScoreDesc)[0]
    ensures forall j :: 0 <= j < |rules| ==> rules[j].score <= rules[i].score
    ensures forall j :: 0 <= j < i ==> rules[j].score < rules[i].score
  {
    assert KeyedBy(rules, ByScoreDesc, NegScore);
    i := SortByKeyHead(rules, ByScoreDesc, NegScore);
    forall j | 0 <= j < |rules| ensures rules[j].score <= rules[i].score {
      assert NegScore(rules[i]) <= NegScore(rules[j]);
    }
    forall j | 0 <= j < i ensures rules[j].score < rules[i].score {
      assert NegScore(rules[i]) < NegScore(rules[j]);
    }
  }

  /** After sorting by score the first signal has the highest score, and it
      is the earliest of the signals with that score. */
  lemma HeadIsBest(rules: seq<Signal>)
    requires rules != []
    ensures StartsWithBest(MarkPrimary(SortBy(rules, ByScoreDesc)), rules)
  {
    SortedHeadTop(rules);
    var i := SortedHeadEarliest(rules);
    var r := MarkPrimary(SortBy(rules, ByScoreDesc));
    assert rules[i].signalType == r[0].signalType && rules[i].score == r[0].score;
  }

  // ---- scores ------------------------------------------------------------

  /** A stale listing has been on the market at least half as long again as
      the median, so it scores at least 75. */
  lemma StaleScoreAtLeast75(d: real, md: real)
    requires md > 0.0 && StaleFires(d, md)
    ensures 75 <= StaleScore(d, md) <= 100
  {
    assert (d - md) / md >= 0.5 by {
      assert d - md >= 0.5 * md;
    }
    RoundMonotone(75.0, (d - md) / md * 50.0 + 50.0);
    RoundOfInteger(75);
  }

  /** A drop of at least 2% scores at least 10. */
  lemma DropScoreAtLeast10(pct: real)
    requires pct >= 2.0
    ensures 10 <= DropScore(pct) <= 100
  {
    RoundMonotone(10.0, pct * 5.0);
    RoundOfInteger(10);
  }

  /** A likely cut is at least 3% over the median price and 25% over the
      median days on market, so it scores at least 8. */
  lemma LikelyCutScoreAtLeast8(status: string, d: real, md: real, p: real, mp: real)
    requires md > 0.0 && mp > 0.0 && LikelyCutFires(status, d, md, p, mp)
    ensures 8 <= LikelyCutScore(d, md, p, mp) <= 100
  {
    assert (p - mp) / mp >= 0.03 by {
      assert p - mp >= 0.03 * mp;
    }
    assert (d - md) / md >= 0.25 by {
      assert d - md >= 0.25 * md;
    }
    RoundMonotone(8.0, ((p - mp) / mp + (d - md) / md) * 30.0);
    RoundOfInteger(8);
  }

  /** An underpriced listing is at least 3% under the median price, so it
      scores at least 6. */
  lemma UnderpricedScoreAtLeast6(d: real, md: real, p: real, mp: real)
    requires mp > 0.0 && UnderpricedFires(d, md, p, mp)
    ensures 6 <= UnderpricedScore(p, mp) <= 100
  {
    assert (mp - p) / mp >= 0.03 by {
      assert mp - p >= 0.03 * mp;
    }
    RoundMonotone(6.0, (mp - p) / mp * 200.0);
    RoundOfInteger(6);
  }

  /** A hot listing on the market for at least a day sold at least twice as
      fast as the median, so it scores at least 60. */
  lemma HotScoreAtLeast60(status: string, d: real, md: real)
    requires HotFires(status, d, md) && d >= 1.0
    ensures 60 <= HotScore(d, md) <= 100
  {
    assert md / d >= 2.0 by {
      assert md >= 2.0 * d;
    }
    RoundMonotone(60.0, md / Max(d, 1.0) * 30.0);
    RoundOfInteger(60);
  }

  /** The hot score of any listing the rule fires for: at most 100, at
      least 30 once the median is a day, at least 60 once it is two days.
      Below one day the score is 30 times the median, whatever the listing's
      days on market. */
  lemma HotScoreBounds(status: string, d: real, md: real)
    requires HotFires(status, d, md)
    ensures HotScore(d, md) <= 100
    ensures md >= 1.0 ==> 30 <= HotScore(d, md)
    ensures md >= 2.0 ==> 60 <= HotScore(d, md)
    ensures d < 1.0 ==> HotScore(d, md) == Cap(Round(md * 30.0))
  {
    if d >= 1.0 {
      HotScoreAtLeast60(status, d, md);
    } else {
      assert md / Max(d, 1.0) * 30.0 == md * 30.0;
      if md >= 1.0 {
        RoundMonotone(30.0, md * 30.0);
        RoundOfInteger(30);
      }
      if md >= 2.0 {
        RoundMonotone(60.0, md * 30.0);
        RoundOfInteger(60);
      }
    }
  }

  /** A pending listing with a null days on market counts as 0 days, so
      against a median of one day it is hot with score 30, not 60. */
  lemma HotAtNullDom()
    ensures HotFires("Pending", 0.0, 1.0) && HotScore(0.0, 1.0) == 30
  {
    RoundOfInteger(30);
  }

  // ---- rules that exclude each other ------------------------------------

  /** Stale needs at least 1.5 times the median days on market, underpriced
      at most the median. */
  lemma StaleExcludesUnderpriced(d: real, md: real, p: real, mp: real)
    requires md > 0.0
    ensures !(StaleFires(d, md) && UnderpricedFires(d, md, p, mp))
  {
  }

  /** Stale needs at least 21 days on market, hot at most 7. */
  lemma StaleExcludesHot(status: string, d: real, md: real)
    ensures !(StaleFires(d, md) && HotFires(status, d, md))
  {
  }

  /** A likely cut is at least 3% above the median price, an underpriced
      listing at least 3% below. */
  lemma LikelyCutExcludesUnderpriced(status: string, d: real, md: real, p: real, mp: real)
    requires mp > 0.0
    ensures !(LikelyCutFires(status, d, md, p, mp) && UnderpricedFires(d, md, p, mp))
  {
  }

  /** Without a median price the listing is compared with itself, and
      neither price rule can fire. */
  lemma NoMedianPriceNoPriceSignals(l: ListingRow, b: Baseline)
    requires Active(l) && !Truthy(b.medianListPrice)
    ensures LikelyCutPart(l, b) == [] && UnderpricedPart(l, b) == []
  {
  }

  // ---- the recent price drop -----------------------------------------

  /** The listing's snapshots of the last fourteen days (`since` is the cutoff day). */
  function Window(snaps: seq<Snapshot>, mlsId: string, since: int): seq<Snapshot> {
    Filter(snaps, (s: Snapshot) => s.mlsId == mlsId && s.date >= since)
  }

  /** `ORDER BY snapshot_date DESC` */
  const ByDateDesc: (Snapshot, Snapshot) -> real := (a: Snapshot, b: Snapshot) => (b.date - a.date) as real

  /** The drop from the earlier to the latest price, reported only when it
      is at least 2% of the earlier price. */
  function DropBetween(earlier: real, latest: real): (r: Option<Drop>)
    requires latest >= 0.0
    ensures r.Some? <==> latest < earlier && (earlier - latest) / earlier * 100.0 >= 2.0
    ensures r.Some? ==> r.value == Drop(earlier - latest, (earlier - latest) / earlier * 100.0, earlier, latest)
  {
    if latest < earlier then
      var dropAmount := earlier - latest;
      var dropPct := dropAmount / earlier * 100.0;
      if dropPct >= 2.0 then Some(Drop(dropAmount, dropPct, earlier, latest)) else None
    else None
  }

  /** `ORDER BY snapshot_date DESC LIMIT 2` on a window, then the drop
      from the second row to the first; no drop with fewer than two rows. */
  function LatestTwoDrop(win: seq<Snapshot>): (r: Option<Drop>)
    ensures |win| < 2 ==> r.None?
    ensures r.Some? ==> r.value.dropAmount > 0.0 && r.value.dropPercentage >= 2.0
                        && r.value.currentPrice == r.value.previousPrice - r.value.dropAmount
  {
    var w := SortBy(win, ByDateDesc);
    if |w| < 2 then None else DropBetween(PriceNumber(w[1]), PriceNumber(w[0]))
  }

  /** checkRecentPriceDrop: no drop with fewer than two snapshots in the
      last fourteen days; otherwise the latest snapshot of the window is
      compared with the latest of the others, and a reported drop is
      positive and at least 2%. */
  function RecentDropOf(snaps: seq<Snapshot>, mlsId: string, since: int): (r: Option<Drop>)
    ensures |Window(snaps, mlsId, since)| < 2 ==> r.None?
    ensures |Window(snaps, mlsId, since)| >= 2 ==>
              exists latest, earlier :: ComparesLatestTwo(Window(snaps, mlsId, since), r, latest, earlier)
    ensures r.Some? ==> r.value.dropAmount > 0.0 && r.value.dropPercentage >= 2.0
                        && r.value.currentPrice == r.value.previousPrice - r.value.dropAmount
  {
    var win := Window(snaps, mlsId, since);
    if |win| < 2 then LatestTwoDrop(win)
    else
      LatestTwoDropComparesLatest(win);
      LatestTwoDrop(win)
  }

  /** The negated date is the key of the date comparator. */
  const NegDate: Snapshot -> real := (s: Snapshot) => -(s.date as real)

  /** The first row of the descending order has the latest date, and the
      second the latest date among the other rows. */
  lemma DescendingHead(win: seq<Snapshot>)
    requires |win| >= 2
    ensures var w := SortBy(win, ByDateDesc);
            && (forall x :: x in win ==> x.date <= w[0].date)
            && (forall x :: x in w[1..] ==> x.date <= w[1].date)
  {
    var w := SortBy(win, ByDateDesc);
    assert KeyedBy(win, ByDateDesc, NegDate);
    SortByKeySorted(win, ByDateDesc, NegDate);
    forall x | x in w[1..] ensures x.date <= w[1].date {
      var k :| 1 <= k < |w| && w[k] == x;
      if k > 1 {
        assert NegDate(w[1]) <= NegDate(w[k]);
      }
    }
  }

  lemma SplitTwo(w: seq<Snapshot>)
    requires |w| >= 2
    ensures multiset{w[0], w[1]} <= multiset(w)
    ensures multiset(w) - multiset{w[0]} == multiset(w[1..])
  {
    assert w == [w[0]] + [w[1]] + w[2..];
    assert w == [w[0]] + w[1..];
  }

  /** `latest` is a latest snapshot of the window and `earlier` a latest of
      the others, and the drop is the one between their prices. */
  ghost predicate ComparesLatestTwo(win: seq<Snapshot>, drop: Option<Drop>, latest: Snapshot, earlier: Snapshot) {
    && multiset{latest, earlier} <= multiset(win)
    && (forall x :: x in win ==> x.date <= latest.date)
    && (forall x :: x in multiset(win) - multiset{latest} ==> x.date <= earlier.date)
    && drop == DropBetween(PriceNumber(earlier), PriceNumber(latest))
  }

  /** The drop compares exactly two snapshots of the window: the latest one,
      and the latest of the others. */
  lemma LatestTwoDropComparesLatest(win: seq<Snapshot>)
    requires |win| >= 2
    ensures exists latest, earlier :: ComparesLatestTwo(win, LatestTwoDrop(win), latest, earlier)
  {
    var w := SortBy(win, ByDateDesc);
    DescendingHead(win);
    SplitTwo(w);
    assert forall x :: x in multiset(win) - multiset{w[0]} ==> x in w[1..];
    assert ComparesLatestTwo(win, LatestTwoDrop(win), w[0], w[1]);
  }

  /** A null latest price reads as 0 (`Number(null)`), so against an earlier
      positive price the listing is reported as dropping by its whole price,
      100 percent, which scores 100. */
  lemma NullLatestPriceIsFullDrop(win: seq<Snapshot>)
    requires |win| >= 2
    requires SortBy(win, ByDateDesc)[0].listPrice.None? && PriceNumber(SortBy(win, ByDateDesc)[1]) > 0.0
    ensures LatestTwoDrop(win).Some?
    ensures LatestTwoDrop(win).value.dropPercentage == 100.0 && LatestTwoDrop(win).value.currentPrice == 0.0
    ensures DropScore(LatestTwoDrop(win).value.dropPercentage) == 100
  {
    var w := SortBy(win, ByDateDesc);
    assert LatestTwoDrop(win) == DropBetween(PriceNumber(w[1]), PriceNumber(w[0]));
    FullDrop(PriceNumber(w[1]));
  }

  lemma FullDrop(earlier: real)
    requires earlier > 0.0
    ensures DropBetween(earlier, 0.0) == Some(Drop(earlier, 100.0, earlier, 0.0))
    ensures DropScore(100.0) == 100
  {
    assert (earlier - 0.0) / earlier * 100.0 == 100.0;
    RoundOfInteger(500);
  }

  /** Only the last change counts: a 10% cut followed by a 0.5% cut within
      the window reports no drop. */
  lemma OnlyTheLastChangeCounts()
    ensures LatestTwoDrop([Snapshot("A", 10, Some(100.0)), Snapshot("A", 11, Some(90.0)), Snapshot("A", 12, Some(89.55))]) == None
  {
    var s10, s11, s12 := Snapshot("A", 10, Some(100.0)), Snapshot("A", 11, Some(90.0)), Snapshot("A", 12, Some(89.55));
    var snaps := [s10, s11, s12];
    assert snaps[1..] == [s11, s12];
    assert snaps[1..][1..] == [s12];
    assert SortBy([s12], ByDateDesc) == [s12];
    assert Insert(s11, [], ByDateDesc) == [s11];
    assert Insert(s11, [s12], ByDateDesc) == [s12, s11];
    assert SortBy([s11, s12], ByDateDesc) == [s12, s11];
    assert Insert(s10, [s11], ByDateDesc) == [s11, s10];
    assert Insert(s10, [s12, s11], ByDateDesc) == [s12, s11, s10];
    assert SortBy(snaps, ByDateDesc) == [s12, s11, s10];
  }
}
