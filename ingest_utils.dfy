/** Helpers of the ingest package (packages/ingest/src/utils.ts): the town
    and field fallbacks of normalizeMLSListing and the price band that
    tolerates a missing price. */
module IngestUtils {
  import opened Js
  import opened Strings
  import opened Records
  import Baselines

  /** `/^[0-9]+[A-Z]?$/.test(s)`: a town code rather than a town name. */
  predicate IsTownCode(s: string) {
    || AllDigits(s)
    || (|s| >= 2 && AllDigits(s[..|s| - 1]) && IsUpperLetter(s[|s| - 1]))
  }

  /** A field with every double quote removed, then trimmed. */
  function Unquoted(rec: Record, key: string): (r: string)
    ensures '"' !in r && IsTrimmed(r)
  {
    var r := Trim(RemoveChar(Get(rec, key), '"'));
    assert forall c :: c in r ==> c in RemoveChar(Get(rec, key), '"') by {
      TrimKeepsCharacters(RemoveChar(Get(rec, key), '"'));
    }
    r
  }

  /** extractTownName of utils.ts, with the mapping module's `lookupTown` as
      a parameter (its "no mapping" is ""): the TOWN field when it is a
      name, else the looked-up TOWN_NUM code, else whichever of the two is
      non-empty, else "". */
  function ExtractTownName(rec: Record, lookupTown: string -> string): (town: string)
    ensures var direct := Unquoted(rec, "TOWN");
            direct != "" && !IsTownCode(direct) ==> town == direct
    ensures var direct, code := Unquoted(rec, "TOWN"), Unquoted(rec, "TOWN_NUM");
            (direct == "" || IsTownCode(direct)) && code != "" && lookupTown(code) != "" ==> town == lookupTown(code)
    ensures var direct, code := Unquoted(rec, "TOWN"), Unquoted(rec, "TOWN_NUM");
            (direct == "" || IsTownCode(direct)) && (code == "" || lookupTown(code) == "") ==>
              town == (if direct != "" then direct else code)
  {
    var direct := Unquoted(rec, "TOWN");
    if direct != "" && !IsTownCode(direct) then direct
    else
      var code := Unquoted(rec, "TOWN_NUM");
      if code != "" && lookupTown(code) != "" then lookupTown(code)
      else if direct != "" then direct
      else code
  }

  /** The town is "" exactly when both fields are empty once unquoted, and
      it is always one of the two cleaned fields or the lookup's answer. */
  lemma TownEmptyOnlyWithoutFields(rec: Record, lookupTown: string -> string)
    ensures ExtractTownName(rec, lookupTown) == "" <==> Unquoted(rec, "TOWN") == "" && Unquoted(rec, "TOWN_NUM") == ""
    ensures var t := ExtractTownName(rec, lookupTown);
            t == Unquoted(rec, "TOWN") || t == Unquoted(rec, "TOWN_NUM")
            || t == lookupTown(Unquoted(rec, "TOWN_NUM"))
  {
    var direct, code := Unquoted(rec, "TOWN"), Unquoted(rec, "TOWN_NUM");
    var t := ExtractTownName(rec, lookupTown);
    if direct != "" && !IsTownCode(direct) {
      assert t == direct;
    } else if code != "" && lookupTown(code) != "" {
      assert t == lookupTown(code);
    } else {
      assert t == (if direct != "" then direct else code);
    }
  }

  /** A code such as "12" or "12A" in TOWN is passed over for TOWN_NUM, but
      kept when the lookup knows neither it nor TOWN_NUM. */
  lemma CodeInTownFieldFallsBack(rec: Record, lookupTown: string -> string)
    requires Get(rec, "TOWN") == "12A" && Get(rec, "TOWN_NUM") == ""
    ensures ExtractTownName(rec, lookupTown) == "12A"
  {
    CodeTextKept();
    CodeIsTownCode();
    assert Unquoted(rec, "TOWN_NUM") == "" by {
      assert RemoveChar("", '"') == "";
      assert Trim("") == "";
    }
  }

  lemma CodeTextKept()
    ensures RemoveChar("12A", '"') == "12A" && Trim("12A") == "12A"
  {
    assert RemoveChar("", '"') == "";
    assert RemoveChar("A", '"') == "A";
    assert RemoveChar("2A", '"') == "2A";
    TrimOfTrimmed("12A");
  }

  lemma CodeIsTownCode()
    ensures IsTownCode("12A")
  {
    assert "12A"[..2] == "12";
    assert AllDigits("12");
  }

  /** The property type of the feed a listing came from. */
  datatype FeedType = SF | CC | MF {
    function Code(): string {
      match this
      case SF => "SF"
      case CC => "CC"
      case MF => "MF"
    }
  }

  /** A JavaScript number after `parseFloat(...) || null`. */
  function NumOrNull(n: Num): (r: Num)
    ensures r.Absent? <==> n.Absent? || n.NaN? || n == Finite(0.0)
    ensures !r.Absent? ==> r == n
  {
    if n.Absent? || n.NaN? || n == Finite(0.0) then Absent else n
  }

  /** `parse(rec[k1] || ... || '0') || null`, with `parse` standing for
      parseFloat or parseInt; an empty chain parses '0', which is 0 and so
      null. */
  function NumericField(rec: Record, keys: seq<string>, parse: string -> Num): (r: Num)
    ensures FirstOf(rec, keys) == "" ==> r.Absent?
    ensures r.Absent? || (r.Finite? && r.value != 0.0) || r.Infinity?
  {
    var raw := FirstOf(rec, keys);
    if raw == "" then Absent else NumOrNull(parse(raw))
  }

  /** The street address from the feed's two spellings of number and name. */
  function StreetAddress(rec: Record): (address: string)
    ensures address == "" <==>
              (Get(rec, "StreetNumber") == "" || Get(rec, "StreetName") == "")
              && (Get(rec, "STREET_NUMBER") == "" || Get(rec, "STREET_NAME") == "")
  {
    if Get(rec, "StreetNumber") != "" && Get(rec, "StreetName") != "" then
      Get(rec, "StreetNumber") + " " + Get(rec, "StreetName")
    else if Get(rec, "STREET_NUMBER") != "" && Get(rec, "STREET_NAME") != "" then
      Get(rec, "STREET_NUMBER") + " " + Get(rec, "STREET_NAME")
    else ""
  }

  /** The address of normalizeMLSListing, before trimming: UnparsedAddress
      or ADDRESS, else number and name. */
  function RawAddress(rec: Record): (address: string)
    ensures FirstOf(rec, ["UnparsedAddress", "ADDRESS"]) != "" ==> address == FirstOf(rec, ["UnparsedAddress", "ADDRESS"])
    ensures FirstOf(rec, ["UnparsedAddress", "ADDRESS"]) == "" ==> address == StreetAddress(rec)
  {
    var address := FirstOf(rec, ["UnparsedAddress", "ADDRESS"]);
    if address == "" then StreetAddress(rec) else address
  }

  /** The id fields, in the order normalizeMLSListing tries them. */
  const IdFields: seq<string> := ["ListingId", "LIST_NO", "MLS_NUMBER", "LISTING_ID", "MLS_NUM"]

  /** A listing as normalizeMLSListing returns it. Days on market come from
      extractDOM, which reads the clock, and are a parameter here. */
  datatype NormalizedListing = NormalizedListing(
    mlsId: string,
    propertyType: string,
    status: string,
    listPrice: Num,
    town: string,
    address: string,
    beds: Num,
    baths: Num,
    sqft: Num,
    dom: Option<int>,
    listDate: Option<string>,
    pendingDate: Option<string>,
    soldDate: Option<string>,
    soldPrice: Num,
    rawData: Record)

  /** `a || b || c || null` for text fields. */
  function FirstOrNull(rec: Record, keys: seq<string>): (r: Option<string>)
    ensures r.None? <==> FirstOf(rec, keys) == ""
    ensures r.Some? ==> r.value == FirstOf(rec, keys)
  {
    if FirstOf(rec, keys) == "" then None else Some(FirstOf(rec, keys))
  }

  /** normalizeMLSListing with `lookupTown`, `parseFloat`, `parseInt` and
      the day count as parameters. */
  function NormalizeMLSListing(rec: Record, feed: FeedType, lookupTown: string -> string,
                               parseFloat: string -> Num, parseInt: string -> Num,
                               dom: Option<int>): (n: NormalizedListing)
    ensures n.mlsId == MlsIdOf(rec)
    ensures n.address == Trim(RawAddress(rec))
    ensures n.propertyType == feed.Code()
    ensures n.status == (if FirstOf(rec, ["StandardStatus", "STATUS"]) == "" then "Unknown"
                         else FirstOf(rec, ["StandardStatus", "STATUS"]))
    ensures n.town == ExtractTownName(rec, lookupTown)
    ensures n.listPrice == NumericField(rec, ["ListPrice", "LIST_PRICE"], parseFloat)
    ensures n.sqft == NumericField(rec, ["LivingArea", "SQFT", "SQUARE_FEET"], parseInt)
    ensures n.rawData == rec
  {
    var status := FirstOf(rec, ["StandardStatus", "STATUS"]);
    NormalizedListing(
      MlsIdOf(rec),
      feed.Code(),
      if status == "" then "Unknown" else status,
      NumericField(rec, ["ListPrice", "LIST_PRICE"], parseFloat),
      ExtractTownName(rec, lookupTown),
      Trim(RawAddress(rec)),
      NumericField(rec, ["BedroomsTotal", "NO_BEDROOMS", "BEDS", "BEDROOMS"], parseInt),
      NumericField(rec, ["BathroomsTotalInteger", "NO_BATHS", "BATHS", "BATHROOMS"], parseFloat),
      NumericField(rec, ["LivingArea", "SQFT", "SQUARE_FEET"], parseInt),
      dom,
      FirstOrNull(rec, ["ListingContractDate", "LIST_DATE", "LISTING_DATE"]),
      FirstOrNull(rec, ["PendingTimestamp", "PENDING_DATE"]),
      FirstOrNull(rec, ["CloseDate", "CLOSE_DATE", "SOLD_DATE"]),
      NumericField(rec, ["ClosePrice", "CLOSE_PRICE", "SOLD_PRICE"], parseFloat),
      rec)
  }

  /** The `mls_id` of normalizeMLSListing. */
  function MlsIdOf(rec: Record): (id: string)
    ensures IsTrimmed(id)
  {
    Trim(FirstOf(rec, IdFields))
  }

  /** The id is "" exactly when no id field is truthy or the first truthy
      one is white space only: `||` stops at a blank id before trimming, so
      a blank ListingId hides a good LIST_NO. */
  lemma MlsIdEmpty(rec: Record)
    ensures MlsIdOf(rec) == "" <==> FirstOf(rec, IdFields) == "" || IsWsOnly(FirstOf(rec, IdFields))
    ensures Get(rec, "ListingId") == " " ==> MlsIdOf(rec) == ""
  {
    TrimEmptyIffWs(FirstOf(rec, IdFields));
    if Get(rec, "ListingId") == " " {
      assert FirstOf(rec, IdFields) == " ";
      assert IsWs(" "[0]);
    }
  }

  /** A string made of white space only. */
  predicate IsWsOnly(s: string) {
    |s| > 0 && forall i :: 0 <= i < |s| ==> IsWs(s[i])
  }

  lemma TrimEmptyIffWs(s: string)
    ensures Trim(s) == "" <==> s == "" || IsWsOnly(s)
  {
    var a := TrimStart(s);
    if a == "" {
      assert forall i :: 0 <= i < |s| ==> IsWs(s[i]);
    } else {
      assert !IsWs(a[0]);
      assert s[|s| - |a|] == a[0];
    }
  }

  /** getPriceBand of utils.ts: "unknown" for a null or zero price (a NaN
      price arrives here as None, since NumOrNull maps it to null),
      otherwise the band of signals.ts. */
  function GetPriceBand(price: Option<real>): (band: string)
    ensures band == "unknown" <==> !Truthy(price)
    ensures Truthy(price) ==> band == Baselines.GetPriceBand(price.value)
  {
    if !Truthy(price) then "unknown" else Baselines.GetPriceBand(price.value)
  }
}
