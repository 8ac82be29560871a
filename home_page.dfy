/** The server-side logic of the home page (apps/web/src/app/page.tsx): the
    price buckets of the filter bar, the badge of a primary signal, and the
    parameterised query that fetches the top opportunities. */
module HomePage {
  import opened Js
  import opened Strings
  import SignalRules

  // ---------------------------------------------------------------------
  // Price buckets.

  /** A price range `{ min, max }` of the filter bar, in dollars. */
  datatype Bucket = Bucket(min: int, max: int)

  const PriceBuckets: map<string, Bucket> := map[
    "0-150k" := Bucket(0, 150000),
    "150k-500k" := Bucket(150000, 500000),
    "500k-1m" := Bucket(500000, 1000000),
    "1m-2m" := Bucket(1000000, 2000000),
    "2m-4m" := Bucket(2000000, 4000000),
    "4m+" := Bucket(4000000, 999999999)]

  /** The six bucket names, cheapest first. */
  const BucketNames: seq<string> := ["0-150k", "150k-500k", "500k-1m", "1m-2m", "2m-4m", "4m+"]

  /** parsePriceBucket: the range of a known bucket name, else null. */
  function ParsePriceBucket(bucket: string): (range: Option<Bucket>)
    ensures range.Some? <==> bucket in PriceBuckets
    ensures range.Some? ==> range.value == PriceBuckets[bucket]
  {
    if bucket in PriceBuckets then Some(PriceBuckets[bucket]) else None
  }

  /** The named buckets are exactly the six of the filter bar, and each of
      them parses. */
  lemma BucketsNamed()
    ensures forall b :: b in PriceBuckets <==> b in BucketNames
    ensures forall i :: 0 <= i < |BucketNames| ==> ParsePriceBucket(BucketNames[i]).Some?
  {
  }

  /** Each named bucket is a non-empty range, and each starts where the one
      before it ends, from 0 up to 999999999. */
  lemma BucketsTile()
    ensures forall i :: 0 <= i < |BucketNames| ==>
              PriceBuckets[BucketNames[i]].min < PriceBuckets[BucketNames[i]].max
    ensures forall i :: 0 < i < |BucketNames| ==>
              PriceBuckets[BucketNames[i]].min == PriceBuckets[BucketNames[i - 1]].max
    ensures PriceBuckets[BucketNames[0]].min == 0
    ensures PriceBuckets[BucketNames[|BucketNames| - 1]].max == 999999999
  {
  }

  /** Every price from 0 up to the top of the last bucket lies in some
      bucket's range, its upper end included as the query includes it. */
  lemma PriceInSomeBucket(price: int)
    requires 0 <= price <= 999999999
    ensures exists i :: 0 <= i < |BucketNames| &&
              PriceBuckets[BucketNames[i]].min <= price <= PriceBuckets[BucketNames[i]].max
  {
    BucketsTile();
    var i := if price <= 150000 then 0 else if price <= 500000 then 1 else if price <= 1000000 then 2
             else if price <= 2000000 then 3 else if price <= 4000000 then 4 else 5;
    assert PriceBuckets[BucketNames[i]].min <= price <= PriceBuckets[BucketNames[i]].max;
  }

  /** The examples of the bucket tests. */
  lemma ParsePriceBucketExamples()
    ensures ParsePriceBucket("0-150k") == Some(Bucket(0, 150000))
    ensures ParsePriceBucket("500k-1m") == Some(Bucket(500000, 1000000))
    ensures ParsePriceBucket("4m+") == Some(Bucket(4000000, 999999999))
    ensures ParsePriceBucket("invalid") == None
  {
    assert "invalid"[0] == 'i';
  }

  // ---------------------------------------------------------------------
  // Signal badges.

  /** The `{ label, icon, color }` (the label is `caption`) of a badge. */
  datatype SignalInfo = SignalInfo(caption: string, icon: string, color: string)

  /** The badges getSignalInfo knows, under both spellings of a type. */
  const SignalInfos: map<string, SignalInfo> := map[
    "price_reduction" := SignalInfo("Price Reduction", "\U{1F4B0}", "bg-green-100 text-green-800"),
    "price-reduction" := SignalInfo("Price Reduction", "\U{1F4B0}", "bg-green-100 text-green-800"),
    "underpriced" := SignalInfo("Below Market", "\U{1F3AF}", "bg-teal-100 text-teal-800"),
    "new_listing" := SignalInfo("New Listing", "\U{2728}", "bg-blue-100 text-blue-800"),
    "new-listing" := SignalInfo("New Listing", "\U{2728}", "bg-blue-100 text-blue-800"),
    "back_on_market" := SignalInfo("Back on Market", "\U{1F504}", "bg-yellow-100 text-yellow-800"),
    "back-on-market" := SignalInfo("Back on Market", "\U{1F504}", "bg-yellow-100 text-yellow-800"),
    "high_dom" := SignalInfo("Long on Market", "\U{23F0}", "bg-orange-100 text-orange-800"),
    "high-dom" := SignalInfo("Long on Market", "\U{23F0}", "bg-orange-100 text-orange-800"),
    "low_dom" := SignalInfo("Moving Fast", "\U{26A1}", "bg-purple-100 text-purple-800"),
    "low-dom" := SignalInfo("Moving Fast", "\U{26A1}", "bg-purple-100 text-purple-800"),
    "price_increase" := SignalInfo("Price Increase", "\U{1F4C8}", "bg-red-100 text-red-800"),
    "price-increase" := SignalInfo("Price Increase", "\U{1F4C8}", "bg-red-100 text-red-800"),
    "overpriced" := SignalInfo("Above Market", "\U{1F3F7}\U{FE0F}", "bg-pink-100 text-pink-800")]

  /** The badge of a type getSignalInfo does not know. */
  function FallbackInfo(signalType: string): SignalInfo {
    SignalInfo(signalType, "\U{1F4CA}", "bg-gray-100 text-gray-800")
  }

  /** getSignalInfo: the known badge, else the type itself with a chart
      icon in grey (every known badge is an object, which `||` keeps). */
  function GetSignalInfo(signalType: string): (info: SignalInfo)
    ensures signalType in SignalInfos ==> info == SignalInfos[signalType]
    ensures signalType !in SignalInfos ==> info == FallbackInfo(signalType)
  {
    if signalType in SignalInfos then SignalInfos[signalType] else FallbackInfo(signalType)
  }

  /** A known badge is labelled with a capitalised phrase and so never with
      the type's own name: the label is the type exactly when the type is
      unknown. */
  lemma LabelShowsUnknownType(signalType: string)
    ensures GetSignalInfo(signalType).caption == signalType <==> signalType !in SignalInfos
    ensures signalType !in SignalInfos ==> GetSignalInfo(signalType).color == "bg-gray-100 text-gray-800"
  {
    if signalType in SignalInfos {
      assert IsLowerLetter(signalType[0]);
      assert IsUpperLetter(SignalInfos[signalType].caption[0]);
    }
  }

  /** Of the five types the signal engine stores, only `underpriced` has a
      badge of its own; the other four are shown under their raw names. */
  lemma EngineTypesOnPage(t: SignalRules.SignalType)
    ensures SignalRules.TypeName(t) in SignalInfos <==> t == SignalRules.Underpriced
    ensures t != SignalRules.Underpriced ==> GetSignalInfo(SignalRules.TypeName(t)).caption == SignalRules.TypeName(t)
  {
  }

  // ---------------------------------------------------------------------
  // The top-opportunities query.

  /** The FilterOptions getTopOpportunities receives. A text filter that
      is undefined is "", and a number filter that is undefined or NaN is
      None: both are falsy, the only thing the code asks of them. */
  datatype Filters = Filters(
    propertyType: string,
    priceBucket: string,
    minBeds: Option<real>,
    maxBeds: Option<real>,
    minBaths: Option<real>,
    town: string,
    signalType: string,
    sort: string)

  /** A value bound to a placeholder. */
  datatype Param = Text(text: string) | Number(number: real)

  /** A condition before numbering: the SQL up to its placeholder, and the
      value to bind. */
  datatype Clause = Clause(lhs: string, value: Param)

  /** `${lhs} $${n}` */
  function Placeholder(lhs: string, n: nat): (cond: string)
    ensures StartsWith(cond, lhs + " $")
    ensures cond[|lhs| + 2..] == NatToString(n)
  {
    assert (lhs + " $" + NatToString(n))[..|lhs| + 2] == lhs + " $";
    lhs + " $" + NatToString(n)
  }

  /** A text filter that is set and is not 'all'. */
  predicate Chosen(s: string) {
    s != "" && s != "all"
  }

  function PropertyTypeClauses(f: Filters): (cs: seq<Clause>)
    ensures cs == [] <==> !Chosen(f.propertyType)
    ensures cs != [] ==> cs == [Clause("lr.property_type =", Text(f.propertyType))]
  {
    if Chosen(f.propertyType) then [Clause("lr.property_type =", Text(f.propertyType))] else []
  }

  /** A known bucket bounds the price on both sides, its maximum included;
      an unknown or missing one adds nothing. */
  function PriceClauses(f: Filters): (cs: seq<Clause>)
    ensures cs == [] <==> ParsePriceBucket(f.priceBucket).None?
    ensures cs != [] ==> (|cs| == 2
              && cs[0] == Clause("lr.list_price >=", Number(PriceBuckets[f.priceBucket].min as real))
              && cs[1] == Clause("lr.list_price <=", Number(PriceBuckets[f.priceBucket].max as real)))
  {
    match ParsePriceBucket(f.priceBucket)
    case None => []
    case Some(range) =>
      [Clause("lr.list_price >=", Number(range.min as real)), Clause("lr.list_price <=", Number(range.max as real))]
  }

  /** A number filter, present when truthy. */
  function NumberClause(lhs: string, n: Option<real>): (cs: seq<Clause>)
    ensures cs == [] <==> !Truthy(n)
    ensures cs != [] ==> cs == [Clause(lhs, Number(n.value))]
  {
    if Truthy(n) then [Clause(lhs, Number(n.value))] else []
  }

  /** The town matches anywhere in lr.town, case-insensitively. */
  function TownClauses(f: Filters): (cs: seq<Clause>)
    ensures cs == [] <==> f.town == ""
    ensures cs != [] ==> cs == [Clause("lr.town ILIKE", Text("%" + f.town + "%"))]
  {
    if f.town != "" then [Clause("lr.town ILIKE", Text("%" + f.town + "%"))] else []
  }

  function SignalTypeClauses(f: Filters): (cs: seq<Clause>)
    ensures cs == [] <==> !Chosen(f.signalType)
    ensures cs != [] ==> cs == [Clause("ls.signal_type =", Text(f.signalType))]
  {
    if Chosen(f.signalType) then [Clause("ls.signal_type =", Text(f.signalType))] else []
  }

  /** Every condition the filters ask for, in the order they are pushed. */
  function Clauses(f: Filters): (cs: seq<Clause>)
    ensures |cs| <= 8
  {
    PropertyTypeClauses(f) + PriceClauses(f)
    + NumberClause("lr.beds >=", f.minBeds) + NumberClause("lr.beds <=", f.maxBeds)
    + NumberClause("lr.baths >=", f.minBaths)
    + TownClauses(f) + SignalTypeClauses(f)
  }

  /** No filter at all, 'all' for the two type filters and an unknown
      bucket: the query binds nothing. */
  lemma NoFilterNoClause(f: Filters)
    ensures Clauses(f) == [] <==>
              !Chosen(f.propertyType) && ParsePriceBucket(f.priceBucket).None?
              && !Truthy(f.minBeds) && !Truthy(f.maxBeds) && !Truthy(f.minBaths)
              && f.town == "" && !Chosen(f.signalType)
  {
  }

  /** The ORDER BY of the query. */
  datatype Order =
    | SignalFirst   // reduction and underpriced signals first, then signal_score DESC
    | PriceAsc
    | PriceDesc
    | NewestFirst

  /** The sort option: three names replace the default order. */
  function OrderOf(sort: string): (order: Order)
    ensures order == PriceAsc <==> sort == "price-low"
    ensures order == PriceDesc <==> sort == "price-high"
    ensures order == NewestFirst <==> sort == "newest"
  {
    if sort == "price-low" then PriceAsc
    else if sort == "price-high" then PriceDesc
    else if sort == "newest" then NewestFirst
    else SignalFirst
  }

  /** The first key of the default order: 0 for the types it lists first. */
  function SignalRank(signalType: string): (rank: nat)
    ensures rank == 0 <==> signalType in {"price_reduction", "price-reduction", "underpriced"}
    ensures rank <= 1
  {
    if signalType in {"price_reduction", "price-reduction", "underpriced"} then 0 else 1
  }

  /** The query getTopOpportunities runs. */
  datatype Query = Query(conditions: seq<string>, params: seq<Param>, order: Order)

  /** The query builder of getTopOpportunities: each condition is
      appended with the placeholder `params.length + 1` just before its
      value is pushed, so the placeholders are $1 to $n in the order of the
      bound values. With nothing bound the static query runs, whose order
      is always the default one. */
  method BuildTopOpportunitiesQuery(f: Filters) returns (q: Query)
    ensures Numbered(q.conditions, q.params, Clauses(f))
    ensures q.params == [] ==> q.order == SignalFirst
    ensures q.params != [] ==> q.order == OrderOf(f.sort)
  {
    var conditions, params := BuildConditions(f);
    var order := SignalFirst;
    if f.sort == "price-low" {
      order := PriceAsc;
    } else if f.sort == "price-high" {
      order := PriceDesc;
    } else if f.sort == "newest" {
      order := NewestFirst;
    }
    if |params| == 0 {
      order := SignalFirst;
    }
    q := Query(conditions, params, order);
  }

  /** `conditions` and `params` are `clauses` numbered from $1. */
  ghost predicate Numbered(conditions: seq<string>, params: seq<Param>, clauses: seq<Clause>) {
    && |conditions| == |params| == |clauses|
    && (forall i :: 0 <= i < |clauses| ==> conditions[i] == Placeholder(clauses[i].lhs, i + 1))
    && (forall i :: 0 <= i < |clauses| ==> params[i] == clauses[i].value)
  }

  /** Appending a numbered clause keeps the numbering. */
  lemma NumberedPush(conditions: seq<string>, params: seq<Param>, clauses: seq<Clause>, c: Clause)
    requires Numbered(conditions, params, clauses)
    ensures Numbered(conditions + [Placeholder(c.lhs, |params| + 1)], params + [c.value], clauses + [c])
  {
  }

  /** The conditions and their parameters, pushed filter by filter in the
      order of page.tsx lines 105-151. */
  method BuildConditions(f: Filters) returns (conditions: seq<string>, params: seq<Param>)
    ensures Numbered(conditions, params, Clauses(f))
  {
    conditions, params := [], [];
    conditions, params := PushPropertyType(conditions, params, [], f);
    conditions, params := PushPrice(conditions, params, PropertyTypeClauses(f), f);
    ghost var clauses := PropertyTypeClauses(f) + PriceClauses(f);
    conditions, params := PushNumber(conditions, params, clauses, "lr.beds >=", f.minBeds);
    clauses := clauses + NumberClause("lr.beds >=", f.minBeds);
    conditions, params := PushNumber(conditions, params, clauses, "lr.beds <=", f.maxBeds);
    clauses := clauses + NumberClause("lr.beds <=", f.maxBeds);
    conditions, params := PushNumber(conditions, params, clauses, "lr.baths >=", f.minBaths);
    clauses := clauses + NumberClause("lr.baths >=", f.minBaths);
    conditions, params := PushTown(conditions, params, clauses, f);
    clauses := clauses + TownClauses(f);
    conditions, params := PushSignalType(conditions, params, clauses, f);
  }

  /** The property type condition, unless the filter is unset or 'all'. */
  method PushPropertyType(conditions: seq<string>, params: seq<Param>, ghost clauses: seq<Clause>, f: Filters)
      returns (conditions': seq<string>, params': seq<Param>)
    requires Numbered(conditions, params, clauses)
    ensures Numbered(conditions', params', clauses + PropertyTypeClauses(f))
  {
    conditions', params' := conditions, params;
    if f.propertyType != "" && f.propertyType != "all" {
      NumberedPush(conditions', params', clauses, Clause("lr.property_type =", Text(f.propertyType)));
      conditions' := conditions' + [Placeholder("lr.property_type =", |params'| + 1)];
      params' := params' + [Text(f.propertyType)];
    } else {
      assert clauses + [] == clauses;
    }
  }

  /** The two price conditions of a known bucket; nothing for an unset or
      unknown bucket. */
  method PushPrice(conditions: seq<string>, params: seq<Param>, ghost clauses: seq<Clause>, f: Filters)
      returns (conditions': seq<string>, params': seq<Param>)
    requires Numbered(conditions, params, clauses)
    ensures Numbered(conditions', params', clauses + PriceClauses(f))
  {
    conditions', params' := conditions, params;
    assert "" !in PriceBuckets;
    if f.priceBucket != "" {
      var priceRange := ParsePriceBucket(f.priceBucket);
      if priceRange.Some? {
        var low := Clause("lr.list_price >=", Number(priceRange.value.min as real));
        var high := Clause("lr.list_price <=", Number(priceRange.value.max as real));
        NumberedPush(conditions', params', clauses, low);
        conditions' := conditions' + [Placeholder("lr.list_price >=", |params'| + 1)];
        params' := params' + [Number(priceRange.value.min as real)];
        NumberedPush(conditions', params', clauses + [low], high);
        conditions' := conditions' + [Placeholder("lr.list_price <=", |params'| + 1)];
        params' := params' + [Number(priceRange.value.max as real)];
        assert clauses + [low] + [high] == clauses + PriceClauses(f);
        return;
      }
    }
    assert clauses + [] == clauses;
  }

  /** One of the bed and bath conditions, when its number is truthy. */
  method PushNumber(conditions: seq<string>, params: seq<Param>, ghost clauses: seq<Clause>,
                    lhs: string, n: Option<real>)
      returns (conditions': seq<string>, params': seq<Param>)
    requires Numbered(conditions, params, clauses)
    ensures Numbered(conditions', params', clauses + NumberClause(lhs, n))
  {
    conditions', params' := conditions, params;
    if Truthy(n) {
      NumberedPush(conditions', params', clauses, Clause(lhs, Number(n.value)));
      conditions' := conditions' + [Placeholder(lhs, |params'| + 1)];
      params' := params' + [Number(n.value)];
    } else {
      assert clauses + [] == clauses;
    }
  }

  /** The town condition, when a town is given. */
  method PushTown(conditions: seq<string>, params: seq<Param>, ghost clauses: seq<Clause>, f: Filters)
      returns (conditions': seq<string>, params': seq<Param>)
    requires Numbered(conditions, params, clauses)
    ensures Numbered(conditions', params', clauses + TownClauses(f))
  {
    conditions', params' := conditions, params;
    if f.town != "" {
      NumberedPush(conditions', params', clauses, Clause("lr.town ILIKE", Text("%" + f.town + "%")));
      conditions' := conditions' + [Placeholder("lr.town ILIKE", |params'| + 1)];
      params' := params' + [Text("%" + f.town + "%")];
    } else {
      assert clauses + [] == clauses;
    }
  }

  /** The signal type condition, unless the filter is unset or 'all'. */
  method PushSignalType(conditions: seq<string>, params: seq<Param>, ghost clauses: seq<Clause>, f: Filters)
      returns (conditions': seq<string>, params': seq<Param>)
    requires Numbered(conditions, params, clauses)
    ensures Numbered(conditions', params', clauses + SignalTypeClauses(f))
  {
    conditions', params' := conditions, params;
    if f.signalType != "" && f.signalType != "all" {
      NumberedPush(conditions', params', clauses, Clause("ls.signal_type =", Text(f.signalType)));
      conditions' := conditions' + [Placeholder("ls.signal_type =", |params'| + 1)];
      params' := params' + [Text(f.signalType)];
    } else {
      assert clauses + [] == clauses;
    }
  }
}
