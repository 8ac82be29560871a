/** Town names and days on market from feed records
    (packages/ingest/src/town-mapping.ts). */
module TownMapping {
  import opened Js
  import opened Strings
  import opened Records

  /** TOWN_NUM_MAP: the MLS town codes of the Boston area, matched as exact
      strings, so "11" and "011" are two keys. The table is written as the
      union of blocks of at most twenty entries, in the order of the source;
      no code occurs in two blocks. */
  const TownNumMap: map<string, string> :=
    TownCodes1 + TownCodes2 + TownCodes3 + TownCodes4 + TownCodes5 + TownCodes6 + TownCodes7
    + TownCodes8 + TownCodes9 + TownCodes10 + TownCodes11 + TownCodes12 + PaddedTownCodes

  const TownCodes1: map<string, string> := map[
    "1" := "Boston", "2" := "Belmont", "3" := "Beverly", "4" := "Braintree", "5" := "Burlington",
    "6" := "Canton", "7" := "Chelsea", "8" := "Cohasset", "9" := "Danvers", "10" := "Dedham",
    "11" := "Dorchester", "12" := "Cambridge", "13" := "Brookline", "14" := "Everett", "15" := "Framingham",
    "16" := "Lexington", "17" := "Lincoln", "18" := "Lynn", "19" := "Malden", "20" := "Medford"
  ]

  const TownCodes2: map<string, string> := map[
    "21" := "Melrose", "22" := "Milton", "23" := "Natick", "25" := "Needham", "26" := "Newton",
    "28" := "Peabody", "29" := "Quincy", "31" := "Revere", "33" := "Salem", "34" := "Saugus",
    "35" := "Stoneham", "36" := "Swampscott", "37" := "Wakefield", "39" := "Somerville", "40" := "Waltham",
    "41" := "Watertown", "42" := "Wellesley", "43" := "Weston", "45" := "Weymouth", "46" := "Winchester"
  ]

  const TownCodes3: map<string, string> := map[
    "48" := "Winthrop", "49" := "Woburn", "50" := "Abington", "51" := "Acton", "52" := "Arlington",
    "54" := "Bedford", "56" := "Billerica", "58" := "Boxborough", "60" := "Brockton", "62" := "Carlisle",
    "65" := "Chelmsford", "67" := "Concord", "68" := "Dover", "70" := "Duxbury", "101" := "Back Bay",
    "102" := "Beacon Hill", "103" := "Downtown Boston", "104" := "Fenway", "105" := "Fort Point",
    "106" := "Leather District"
  ]

  const TownCodes4: map<string, string> := map[
    "107" := "North End", "108" := "Seaport", "109" := "South End", "110" := "Chinatown",
    "111" := "Bay Village", "112" := "West End", "113" := "Financial District", "114" := "Charlestown",
    "117" := "West Roxbury", "119" := "Roxbury", "152" := "Hyde Park", "156" := "Jamaica Plain",
    "157" := "Mission Hill", "161" := "Allston", "163" := "Brighton", "164" := "Chestnut Hill",
    "173" := "Roslindale", "175" := "Dorchester Lower Mills", "180" := "Dorchester Ashmont",
    "181" := "Dorchester Fields Corner"
  ]

  const TownCodes5: map<string, string> := map[
    "182" := "Dorchester Uphams Corner", "183" := "Dorchester Savin Hill", "185" := "Brighton",
    "186" := "Allston Village", "187" := "Brighton Oak Square", "188" := "Dorchester Adams Village",
    "189" := "Dorchester Codman Square", "190" := "Dorchester Neponset", "192" := "Dorchester Four Corners",
    "193" := "Dorchester Meeting House Hill", "194" := "Dorchester Jones Hill", "195" := "South Boston",
    "196" := "South Boston Waterfront", "200" := "South Boston City Point",
    "202" := "South Boston Telegraph Hill", "205" := "Charlestown Navy Yard",
    "206" := "Charlestown Monument Square", "207" := "Roxbury Dudley", "209" := "Roxbury Fort Hill",
    "213" := "East Boston"
  ]

  const TownCodes6: map<string, string> := map[
    "301" := "Marblehead", "302" := "Marshfield", "303" := "Medfield", "304" := "Medway", "305" := "Milford",
    "306" := "Millis", "307" := "Nahant", "311" := "Needham", "312" := "Newbury", "313" := "Newburyport",
    "315" := "Norfolk", "316" := "North Andover", "317" := "North Reading", "318" := "Norwood",
    "319" := "Pembroke", "320" := "Plymouth", "322" := "Randolph", "326" := "Rockland", "327" := "Rockport",
    "328" := "Rowley"
  ]

  const TownCodes7: map<string, string> := map[
    "329" := "Salisbury", "342" := "Sharon", "343" := "Sherborn", "344" := "Southborough",
    "345" := "Stoughton", "346" := "Sudbury", "352" := "Walpole", "353" := "Wayland", "362" := "Westwood",
    "363" := "Whitman", "364" := "Wilmington", "365" := "Wrentham", "371" := "Norwood", "372" := "Mattapan",
    "373" := "Mattapan Cummins Highway", "376" := "West Roxbury Centre", "379" := "Hyde Park Cleary Square",
    "380" := "Hyde Park Fairmount", "401" := "Arlington", "402" := "Arlington Heights"
  ]

  const TownCodes8: map<string, string> := map[
    "404" := "Belmont Center", "405" := "Belmont Hill", "406" := "Belmont Waverley", "408" := "Watertown",
    "409" := "Watertown Arsenal", "414" := "Waltham", "418" := "Waltham Prospect Hill",
    "420" := "Newton Centre", "421" := "Newton Chestnut Hill", "422" := "Newton Highlands",
    "423" := "Newton Lower Falls", "424" := "Newton Newton Corner", "426" := "Newton Newtonville",
    "427" := "Newton Nonantum", "428" := "Newton Oak Hill", "429" := "Newton Thompsonville",
    "430" := "Newton Upper Falls", "431" := "Newton Waban", "432" := "Newton West Newton", "433" := "Needham"
  ]

  const TownCodes9: map<string, string> := map[
    "434" := "Needham Heights", "435" := "Needham Highlandville", "436" := "Wellesley",
    "437" := "Wellesley Farms", "438" := "Wellesley Hills", "441" := "Weston", "442" := "Lincoln",
    "443" := "Lexington", "444" := "Lexington East", "451" := "Concord", "453" := "Carlisle",
    "454" := "Bedford", "455" := "Winchester", "457" := "Woburn", "459" := "Reading", "460" := "Stoneham",
    "464" := "Wakefield", "465" := "Melrose", "466" := "Saugus", "468" := "Malden"
  ]

  const TownCodes10: map<string, string> := map[
    "472" := "Medford", "473" := "Medford West", "505" := "Everett", "506" := "Chelsea", "507" := "Revere",
    "511" := "Winthrop", "517" := "Lynn", "523" := "Swampscott", "526" := "Marblehead", "527" := "Salem",
    "529" := "Beverly", "530" := "Peabody", "539" := "Danvers", "554" := "Topsfield", "555" := "Ipswich",
    "565" := "Andover", "570" := "North Andover", "832" := "Cambridge Central",
    "833" := "Cambridge Cambridgeport", "839" := "Watertown"
  ]

  const TownCodes11: map<string, string> := map[
    "840" := "Cambridge East", "841" := "Cambridge Harvard Square", "842" := "Cambridge Inman Square",
    "843" := "Cambridge Mid Cambridge", "844" := "Cambridge North Cambridge", "845" := "Cambridge Riverside",
    "846" := "Cambridge West Cambridge", "849" := "Cambridge Porter Square",
    "850" := "Somerville Davis Square", "851" := "Somerville East", "855" := "Somerville Union Square",
    "856" := "Somerville West", "857" := "Somerville Winter Hill", "858" := "Somerville Spring Hill",
    "860" := "Medford Hillside", "862" := "Medford South", "865" := "Malden Faulkner",
    "866" := "Malden Linden", "868" := "Everett", "872" := "Brookline Coolidge Corner"
  ]

  const TownCodes12: map<string, string> := map[
    "874" := "Brookline Reservoir"
  ]

  /** The codes written with leading zeros. */
  const PaddedTownCodes: map<string, string> := map[
    "002" := "Belmont", "003" := "Beverly", "004" := "Braintree", "005" := "Burlington", "006" := "Canton",
    "007" := "Chelsea", "008" := "Cohasset", "009" := "Danvers", "010" := "Dedham", "011" := "Dorchester",
    "018" := "Lynn", "019" := "Malden", "056" := "Billerica", "060" := "Brockton"
  ]

  /** The characters `.` of a regular expression does not match. */
  predicate IsLineTerminator(c: char) {
    c == '\n' || c == '\r' || c == '\U{2028}' || c == '\U{2029}'
  }

  /** `s.replace(/^"(.*)"$/, '$1')`: one enclosing pair of double quotes
      removed, provided nothing between them ends a line. */
  function StripQuotes(s: string): (r: string)
    ensures r == s || (|s| >= 2 && s[0] == '"' && s[|s| - 1] == '"' && r == s[1..|s| - 1])
    ensures (&& |s| >= 2 && s[0] == '"' && s[|s| - 1] == '"'
             && forall i :: 1 <= i < |s| - 1 ==> !IsLineTerminator(s[i]))
            ==> r == s[1..|s| - 1]
  {
    if |s| >= 2 && s[0] == '"' && s[|s| - 1] == '"'
       && forall i :: 1 <= i < |s| - 1 ==> !IsLineTerminator(s[i])
    then s[1..|s| - 1]
    else s
  }

  /** A candidate field pair, trimmed and unquoted. */
  function Candidate(rec: Record, key: string, altKey: string): string {
    StripQuotes(Trim(FirstOf(rec, [key, altKey])))
  }

  /** `town && !town.match(/^\d+$/)` */
  predicate Acceptable(town: string) {
    town != "" && !AllDigits(town)
  }

  /** The cleaned TOWN_NUM code. */
  function TownCode(rec: Record): string {
    Candidate(rec, "TOWN_NUM", "TownNum")
  }

  /** `codes[code]` when it is truthy. */
  function MappedTown(codes: map<string, string>, code: string): (r: Option<string>)
    ensures r.Some? <==> code != "" && code in codes && codes[code] != ""
    ensures r.Some? ==> r.value == codes[code]
  {
    if code != "" && code in codes && codes[code] != "" then Some(codes[code]) else None
  }

  /** extractTownName over a code table: the first acceptable candidate
      among Town/TOWN, Neighborhood/NEIGHBORHOOD and Area/AREA, then the
      mapped TOWN_NUM code, then the raw code, then "Unknown". */
  function ExtractTownNameIn(rec: Record, codes: map<string, string>): (town: string)
    ensures town != ""
    ensures Acceptable(Candidate(rec, "Town", "TOWN")) ==> town == Candidate(rec, "Town", "TOWN")
    ensures AllDigits(town) ==> town == TownCode(rec) || (TownCode(rec) in codes && town == codes[TownCode(rec)])
  {
    var town := Candidate(rec, "Town", "TOWN");
    if Acceptable(town) then town
    else
      var hood := Candidate(rec, "Neighborhood", "NEIGHBORHOOD");
      if Acceptable(hood) then hood
      else
        var area := Candidate(rec, "Area", "AREA");
        if Acceptable(area) then area
        else
          var code := TownCode(rec);
          if MappedTown(codes, code).Some? then MappedTown(codes, code).value
          else if code != "" then code
          else
            assert !IsDigit("Unknown"[0]);
            "Unknown"
  }

  /** extractTownName, over TOWN_NUM_MAP. */
  function ExtractTownName(rec: Record): (town: string)
    ensures town != ""
  {
    ExtractTownNameIn(rec, TownNumMap)
  }

  /** The fallbacks in order: a candidate is returned only when every
      earlier one was unacceptable, and the code only when no candidate was
      acceptable. */
  lemma TownPriority(rec: Record, codes: map<string, string>)
    ensures var t, h, a := Candidate(rec, "Town", "TOWN"), Candidate(rec, "Neighborhood", "NEIGHBORHOOD"),
                           Candidate(rec, "Area", "AREA");
            && (!Acceptable(t) && Acceptable(h) ==> ExtractTownNameIn(rec, codes) == h)
            && (!Acceptable(t) && !Acceptable(h) && Acceptable(a) ==> ExtractTownNameIn(rec, codes) == a)
            && (!Acceptable(t) && !Acceptable(h) && !Acceptable(a) ==>
                  ExtractTownNameIn(rec, codes)
                  == (if MappedTown(codes, TownCode(rec)).Some? then MappedTown(codes, TownCode(rec)).value
                      else if TownCode(rec) != "" then TownCode(rec) else "Unknown"))
  {
  }

  /** A pair of null fields gives an empty candidate. */
  lemma NullCandidate(rec: Record, key: string, altKey: string)
    requires Get(rec, key) == "" && Get(rec, altKey) == ""
    ensures Candidate(rec, key, altKey) == ""
  {
    assert FirstOf(rec, [key, altKey]) == "";
    assert Trim("") == "";
  }

  /** Quoted digits lose their quotes. */
  lemma UnquoteDigits(s: string)
    requires |s| >= 2 && s[0] == '"' && s[|s| - 1] == '"'
    requires forall i :: 1 <= i < |s| - 1 ==> IsDigit(s[i])
    ensures StripQuotes(s) == s[1..|s| - 1]
  {
  }

  /** A record whose fields are all null gives "Unknown". */
  lemma EmptyRecordIsUnknown(rec: Record, codes: map<string, string>)
    requires forall k :: k in rec ==> rec[k].None?
    ensures ExtractTownNameIn(rec, codes) == "Unknown"
  {
    NullCandidate(rec, "Town", "TOWN");
    NullCandidate(rec, "Neighborhood", "NEIGHBORHOOD");
    NullCandidate(rec, "Area", "AREA");
    NullCandidate(rec, "TOWN_NUM", "TownNum");
  }

  /** Milliseconds in a day. */
  const MsPerDay: int := 1000 * 60 * 60 * 24

  /** extractDOM with its parsers and the clock as parameters: `parseInt`
      (None for NaN), `Date` parsing to epoch milliseconds (None for an
      invalid date) and `today` in epoch milliseconds. A positive day count
      field wins; otherwise the whole days since the list date, when not
      negative. */
  function ExtractDom(rec: Record, parseInt: string -> Option<int>, parseDate: string -> Option<int>,
                      today: int): (r: Option<int>)
    ensures r.None? || r.value >= 0
    ensures var raw := FirstOf(rec, ["DaysOnMarket", "DOM", "DAYS_ON_MARKET"]);
            raw != "" && parseInt(raw).Some? && parseInt(raw).value > 0 ==> r == parseInt(raw)
  {
    var raw := FirstOf(rec, ["DaysOnMarket", "DOM", "DAYS_ON_MARKET"]);
    var dom := if raw == "" then None else parseInt(raw);
    if dom.Some? && dom.value > 0 then dom
    else
      var listDate := FirstOf(rec, ["ListingContractDate", "LIST_DATE", "LISTING_DATE", "LIST_OPEN_DATE"]);
      var date := if listDate != "" then parseDate(listDate) else None;
      if date.None? then None
      else
        var diffDays := Floor((today - date.value) as real / MsPerDay as real);
        if diffDays >= 0 then Some(diffDays) else None
  }

  /** Without a positive day count, a list date `d` whole days and a part
      of a day before `today` gives `d`, and a list date after `today`
      gives null. */
  lemma DomFromListDate(rec: Record, parseInt: string -> Option<int>, parseDate: string -> Option<int>,
                        today: int, d: int, rest: int)
    requires var raw := FirstOf(rec, ["DaysOnMarket", "DOM", "DAYS_ON_MARKET"]);
             raw == "" || parseInt(raw).None? || parseInt(raw).value <= 0
    requires var listDate := FirstOf(rec, ["ListingContractDate", "LIST_DATE", "LISTING_DATE", "LIST_OPEN_DATE"]);
             listDate != "" && parseDate(listDate).Some?
             && today - parseDate(listDate).value == d * MsPerDay + rest
    requires 0 <= rest < MsPerDay
    ensures d >= 0 ==> ExtractDom(rec, parseInt, parseDate, today) == Some(d)
    ensures d < 0 ==> ExtractDom(rec, parseInt, parseDate, today) == None
  {
    var x := (d * MsPerDay + rest) as real / MsPerDay as real;
    assert d as real <= x < d as real + 1.0 by {
      assert x == d as real + rest as real / MsPerDay as real;
    }
  }
}
