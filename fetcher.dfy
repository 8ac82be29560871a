/** The parsing half of MLSFetcher (packages/ingest/src/fetcher.ts): the
    pipe-delimited feed format, the header normalisation it uses, and the
    choice between that format and JSON with the unwrapping of the JSON
    payload. */
module Fetcher {
  import opened Js
  import opened Strings
  import opened Records
  import opened Seqs

  /** The header table of normalizeFieldName. */
  const FieldMap: map<string, string> := map[
    "PROP_TYPE" := "PropertyType", "LIST_NO" := "ListingId", "MLS_NUMBER" := "ListingId",
    "STATUS" := "StandardStatus", "LIST_PRICE" := "ListPrice", "TOWN" := "Town", "TOWN_NUM" := "TOWN_NUM",
    "CITY" := "City", "ADDRESS" := "UnparsedAddress", "STREET_NO" := "StreetNumber",
    "STREET_NUMBER" := "StreetNumber", "STREET_NAME" := "StreetName", "UNIT_NO" := "UnitNumber",
    "NEIGHBORHOOD" := "Neighborhood", "AREA" := "Area", "NO_BEDROOMS" := "BedroomsTotal",
    "BEDS" := "BedroomsTotal", "BEDROOMS" := "BedroomsTotal", "NO_BATHS" := "BathroomsTotalInteger",
    "BATHS" := "BathroomsTotalInteger", "BATHROOMS" := "BathroomsTotalInteger", "SQFT" := "LivingArea",
    "SQUARE_FEET" := "LivingArea", "DOM" := "DaysOnMarket", "DAYS_ON_MARKET" := "DaysOnMarket",
    "LIST_DATE" := "ListingContractDate", "LISTING_DATE" := "ListingContractDate",
    "PENDING_DATE" := "PendingTimestamp", "CLOSE_DATE" := "CloseDate", "SOLD_DATE" := "CloseDate",
    "CLOSE_PRICE" := "ClosePrice", "SOLD_PRICE" := "ClosePrice"
  ]

  /** A character `[A-Z0-9_]` matches. */
  predicate IsKeyChar(c: char) {
    IsUpperLetter(c) || IsDigit(c) || c == '_'
  }

  function KeyChar(c: char): char {
    if IsKeyChar(c) then c else '_'
  }

  /** `s.replace(/[^A-Z0-9_]/g, '_')` */
  function KeyChars(s: string): (r: string)
    ensures |r| == |s|
    ensures forall i :: 0 <= i < |s| ==> r[i] == KeyChar(s[i])
  {
    if s == [] then [] else [KeyChar(s[0])] + KeyChars(s[1..])
  }

  /** The table key a header is looked up under. */
  function HeaderKey(header: string): (k: string)
    ensures |k| == |header|
    ensures forall i :: 0 <= i < |k| ==> IsKeyChar(k[i])
    ensures forall i :: 0 <= i < |k| ==> k[i] == KeyChar(UpperChar(header[i]))
  {
    KeyChars(ToUpper(header))
  }

  /** normalizeFieldName: the table's name for the upper-cased, sanitised
      header, or the header itself, in its own case, when the table has no
      entry. */
  function NormalizeFieldName(header: string): (name: string)
    ensures HeaderKey(header) in FieldMap ==> name == FieldMap[HeaderKey(header)]
    ensures HeaderKey(header) !in FieldMap ==> name == header
  {
    var key := HeaderKey(header);
    if key in FieldMap && FieldMap[key] != "" then FieldMap[key] else header
  }

  predicate IsLetter(c: char) {
    IsLowerLetter(c) || IsUpperLetter(c)
  }

  /** The length and a few characters of a key that rule out every entry
      of the table. */
  lemma KeyAbsentByShape(k: string)
    ensures || (|k| == 9 && (k[0] == 'L' || k[0] == 'C') && k[4] != '_')
            || (|k| == 10 && k[3] != '_' && k[4] != '_' && k[5] != '_')
            || (|k| == 12 && k[0] != 'N' && k[7] != '_')
            ==> k !in FieldMap
    ensures || (|k| == 13 && k[0] != 'S')
            || (|k| == 14 && k[0] != 'D')
            || |k| > 14
            ==> k !in FieldMap
  {
  }

  /** The length and first character of a key that pick out one entry of
      the table. */
  lemma TableByShape(k: string)
    ensures k in FieldMap && |k| == 4 && k[0] == 'T' ==> FieldMap[k] == "Town"
    ensures k in FieldMap && |k| == 4 && k[0] == 'C' ==> FieldMap[k] == "City"
    ensures k in FieldMap && |k| == 4 && k[0] == 'A' ==> FieldMap[k] == "Area"
    ensures k in FieldMap && |k| == 8 && k[0] == 'T' ==> FieldMap[k] == "TOWN_NUM"
    ensures k in FieldMap && |k| == 12 && k[0] == 'N' ==> FieldMap[k] == "Neighborhood"
  {
  }

  lemma UpperKeyChar(c: char)
    ensures IsUpperLetter(c) ==> KeyChar(UpperChar(c)) == c
    ensures IsLetter(c) ==> KeyChar(UpperChar(c)) != '_'
  {
  }

  /** A name whose length and letters rule out every table key, or that is
      one of the five names the table maps to themselves, normalises to
      itself. */
  lemma NameByShape(t: string)
    requires || (|t| == 9 && (t[0] == 'L' || t[0] == 'C') && IsLetter(t[4]))
             || (|t| == 10 && IsLetter(t[3]) && IsLetter(t[4]) && IsLetter(t[5]))
             || (|t| == 12 && IsUpperLetter(t[0]) && t[0] != 'N' && IsLetter(t[7]))
             || (|t| == 13 && IsUpperLetter(t[0]) && t[0] != 'S')
             || (|t| == 14 && IsUpperLetter(t[0]) && t[0] != 'D')
             || |t| > 14
             || t in {"Town", "City", "Area", "TOWN_NUM", "Neighborhood"}
    ensures NormalizeFieldName(t) == t
  {
    if t in {"Town", "City", "Area", "TOWN_NUM", "Neighborhood"} {
      FixedNameKept(t);
    } else {
      NameOutsideTable(t);
    }
  }

  /** The key of a name of one of these shapes is not in the table. */
  lemma NameOutsideTable(t: string)
    requires || (|t| == 9 && (t[0] == 'L' || t[0] == 'C') && IsLetter(t[4]))
             || (|t| == 10 && IsLetter(t[3]) && IsLetter(t[4]) && IsLetter(t[5]))
             || (|t| == 12 && IsUpperLetter(t[0]) && t[0] != 'N' && IsLetter(t[7]))
             || (|t| == 13 && IsUpperLetter(t[0]) && t[0] != 'S')
             || (|t| == 14 && IsUpperLetter(t[0]) && t[0] != 'D')
             || |t| > 14
    ensures HeaderKey(t) !in FieldMap
  {
    var k := HeaderKey(t);
    UpperKeyChar(t[0]);
    if |t| > 7 {
      UpperKeyChar(t[3]); UpperKeyChar(t[4]); UpperKeyChar(t[5]); UpperKeyChar(t[7]);
    }
    KeyAbsentByShape(k);
  }

  /** The five names the table maps to themselves. */
  lemma FixedNameKept(t: string)
    requires t in {"Town", "City", "Area", "TOWN_NUM", "Neighborhood"}
    ensures NormalizeFieldName(t) == t
  {
    var k := HeaderKey(t);
    UpperKeyChar(t[0]);
    assert k[0] == KeyChar(UpperChar(t[0]));
    TableByShape(k);
  }

  /** Every name the table produces normalises to itself. */
  lemma TableNameFixed(key: string)
    requires key in FieldMap
    ensures NormalizeFieldName(FieldMap[key]) == FieldMap[key]
  {
    var t := FieldMap[key];
    assert || t in {"Town", "TOWN_NUM", "City", "Area", "Neighborhood"}
           || t in {"UnparsedAddress", "PendingTimestamp", "ListingContractDate", "BathroomsTotalInteger"}
           || t in {"ListingId", "ListPrice", "CloseDate"}
           || t in {"StreetName", "UnitNumber", "LivingArea", "ClosePrice"}
           || t in {"PropertyType", "StreetNumber", "DaysOnMarket"}
           || t == "BedroomsTotal" || t == "StandardStatus";
    NameByShape(t);
  }

  /** normalizeFieldName is idempotent. */
  lemma NormalizeIdempotent(header: string)
    ensures NormalizeFieldName(NormalizeFieldName(header)) == NormalizeFieldName(header)
  {
    if HeaderKey(header) in FieldMap {
      TableNameFixed(HeaderKey(header));
    }
  }

  /** `values[index]?.trim() || null`: the trimmed field at the same index,
      null when the row is shorter or the field blank. */
  function CellValue(values: seq<string>, index: nat): (v: Option<string>)
    ensures v.None? <==> index >= |values| || Trim(values[index]) == ""
    ensures v.Some? ==> v.value == Trim(values[index]) && IsTrimmed(v.value)
  {
    if index < |values| && Trim(values[index]) != "" then Some(Trim(values[index])) else None
  }

  /** The record built by assigning, from the left, each cell under the
      name at the same position; a later name overwrites an earlier one. */
  function Assign(names: seq<string>, values: seq<string>): Record
  {
    if names == [] then map[]
    else
      var last := |names| - 1;
      Assign(names[..last], values)[names[last] := CellValue(values, last)]
  }

  /** The normalised name of every header. */
  function FieldNames(headers: seq<string>): (names: seq<string>)
    ensures |names| == |headers|
    ensures forall j :: 0 <= j < |headers| ==> names[j] == NormalizeFieldName(headers[j])
  {
    seq(|headers|, j requires 0 <= j < |headers| => NormalizeFieldName(headers[j]))
  }

  /** One data line as a record: each cell under its header's normalised
      name. */
  function RowRecord(headers: seq<string>, values: seq<string>): Record
  {
    Assign(FieldNames(headers), values)
  }

  /** The fields assigned are exactly the names. */
  lemma {:induction false} AssignKeys(names: seq<string>, values: seq<string>, key: string)
    ensures key in Assign(names, values) <==> key in names
  {
    if names != [] {
      var last := |names| - 1;
      AssignKeys(names[..last], values, key);
      assert names == names[..last] + [names[last]];
    }
  }

  /** The value under a name is the cell of its last occurrence. */
  lemma {:induction false} AssignLastWins(names: seq<string>, values: seq<string>, j: nat)
    requires j < |names|
    requires forall l :: j < l < |names| ==> names[l] != names[j]
    ensures names[j] in Assign(names, values)
    ensures Assign(names, values)[names[j]] == CellValue(values, j)
  {
    var last := |names| - 1;
    if j < last {
      var init := names[..last];
      assert init[j] == names[j];
      AssignLastWins(init, values, j);
    }
  }

  /** A row has exactly the normalised header names as fields. */
  lemma RowRecordKeys(headers: seq<string>, values: seq<string>, key: string)
    ensures key in RowRecord(headers, values) <==>
              exists j :: 0 <= j < |headers| && NormalizeFieldName(headers[j]) == key
  {
    var names := FieldNames(headers);
    AssignKeys(names, values, key);
    if key in names {
      var j :| 0 <= j < |names| && names[j] == key;
      assert NormalizeFieldName(headers[j]) == key;
    }
  }

  /** The value under a name is the cell of the last column that normalises
      to it: LIST_NO and MLS_NUMBER both become ListingId, and the later
      column wins. */
  lemma RowRecordLastWins(headers: seq<string>, values: seq<string>, j: nat)
    requires j < |headers|
    requires forall l :: j < l < |headers| ==> NormalizeFieldName(headers[l]) != NormalizeFieldName(headers[j])
    ensures NormalizeFieldName(headers[j]) in RowRecord(headers, values)
    ensures RowRecord(headers, values)[NormalizeFieldName(headers[j])] == CellValue(values, j)
  {
    AssignLastWins(FieldNames(headers), values, j);
  }

  /** The text's lines, after trimming the whole text. */
  function Lines(text: string): (lines: seq<string>)
    ensures |lines| == Occurrences(Trim(text), '\n') + 1
  {
    SplitCount(Trim(text), '\n');
    Split(Trim(text), '\n')
  }

  /** The header line split on '|', each header trimmed. */
  function Headers(line: string): (headers: seq<string>)
    ensures |headers| == |Split(line, '|')|
    ensures forall k :: 0 <= k < |headers| ==> headers[k] == Trim(Split(line, '|')[k])
  {
    var raw := Split(line, '|');
    seq(|raw|, k requires 0 <= k < |raw| => Trim(raw[k]))
  }

  /** A data line split on '|' and read against the headers. */
  function LineRecord(headers: seq<string>): string -> Record {
    line => RowRecord(headers, Split(line, '|'))
  }

  /** The records of the data lines: record i is line i split on '|' and
      read against the headers. */
  function Rows(headers: seq<string>, lines: seq<string>): (rows: seq<Record>)
    ensures |rows| == |lines|
    ensures forall i :: 0 <= i < |lines| ==> rows[i] == RowRecord(headers, Split(lines[i], '|'))
  {
    MapSeq(lines, LineRecord(headers))
  }

  /** The records parsePipeDelimited returns: none when the trimmed text is
      a single line, otherwise one per line after the header line. */
  function PipeRecords(text: string): (rows: seq<Record>)
    ensures |rows| == Occurrences(Trim(text), '\n')
  {
    var lines := Lines(text);
    if |lines| < 2 then [] else Rows(Headers(lines[0]), lines[1..])
  }

  /** Record i is line i + 1 split on '|' and read against the trimmed
      headers of the first line. */
  lemma PipeRecordsMeaning(text: string, i: nat)
    requires i < |PipeRecords(text)|
    ensures PipeRecords(text)[i] == RowRecord(Headers(Lines(text)[0]), Split(Lines(text)[i + 1], '|'))
  {
    var lines := Lines(text);
    assert lines[1..][i] == lines[i + 1];
  }

  /** One more data line read adds its record at the end. */
  lemma RowsStep(headers: seq<string>, lines: seq<string>, i: nat)
    requires 1 <= i < |lines|
    ensures Rows(headers, lines[1..i + 1]) == Rows(headers, lines[1..i]) + [RowRecord(headers, Split(lines[i], '|'))]
  {
    MapSeqSnoc(lines, 1, i, LineRecord(headers));
  }

  /** The `headers.forEach` of parsePipeDelimited: one field per header,
      assigned left to right into a fresh record. */
  method BuildRow(headers: seq<string>, values: seq<string>) returns (listing: Record)
    ensures listing == RowRecord(headers, values)
  {
    listing := map[];
    ghost var names := FieldNames(headers);
    var index := 0;
    while index < |headers|
      invariant 0 <= index <= |headers|
      invariant listing == Assign(names[..index], values)
    {
      assert names[..index + 1][..index] == names[..index];
      listing := listing[NormalizeFieldName(headers[index]) := CellValue(values, index)];
      index := index + 1;
    }
    assert names[..index] == names;
  }

  /** The `for` loop of parsePipeDelimited: one record per line after the
      first, appended in order. */
  method ReadDataLines(headers: seq<string>, lines: seq<string>) returns (listings: seq<Record>)
    requires |lines| >= 1
    ensures listings == Rows(headers, lines[1..])
  {
    listings := [];
    var i := 1;
    while i < |lines|
      invariant 1 <= i <= |lines|
      invariant listings == Rows(headers, lines[1..i])
    {
      var values := Split(lines[i], '|');
      var listing := BuildRow(headers, values);
      RowsStep(headers, lines, i);
      listings := listings + [listing];
      i := i + 1;
    }
    assert lines[1..i] == lines[1..];
  }

  /** parsePipeDelimited: no records when the trimmed text is a single
      line, otherwise the headers of the first line read against every
      later one. */
  method ParsePipeDelimited(text: string) returns (listings: seq<Record>)
    ensures listings == PipeRecords(text)
    ensures |listings| == Occurrences(Trim(text), '\n')
  {
    var lines := Lines(text);
    if |lines| < 2 {
      return [];
    }
    var headers := Headers(lines[0]);
    listings := ReadDataLines(headers, lines);
  }

  /** A parsed JSON value. */
  datatype Json =
    | JNull
    | JBool(b: bool)
    | JNumber(n: real)
    | JString(s: string)
    | JArray(items: seq<Json>)
    | JObject(fields: map<string, Json>)

  /** What a feed decodes to: the records of the pipe format, the array a
      JSON payload carries, or a failed attempt (JSON.parse threw, or the
      payload was null and reading `.value` of it threw). */
  datatype Decoded = PipeRows(rows: seq<Record>) | JsonItems(items: seq<Json>) | Failed

  /** The condition under which the feed is read as pipe-delimited. */
  predicate IsPipeText(text: string) {
    StartsWith(text, "PROP_TYPE|") || '|' in text
  }

  /** Starting with "PROP_TYPE|" already puts a '|' in the text, so the
      test is whether the text holds a '|' at all. */
  lemma PipeTextIffBar(text: string)
    ensures IsPipeText(text) <==> '|' in text
  {
    if StartsWith(text, "PROP_TYPE|") {
      assert text[9] == "PROP_TYPE|"[9];
    }
  }

  /** A field of an object when it is an array. */
  function ArrayField(fields: map<string, Json>, name: string): (r: Option<seq<Json>>)
    ensures r.Some? <==> name in fields && fields[name].JArray?
    ensures r.Some? ==> r.value == fields[name].items
  {
    if name in fields && fields[name].JArray? then Some(fields[name].items) else None
  }

  /** The response structures fetchFeed accepts: an array as it is, else
      the first of `.value`, `.listings`, `.results` that is an array, else
      no listings; null makes the attempt fail. */
  function Unwrap(data: Json): (r: Decoded)
    ensures r.Failed? <==> data.JNull?
    ensures data.JArray? ==> r == JsonItems(data.items)
    ensures !data.JArray? && !data.JObject? && !data.JNull? ==> r == JsonItems([])
    ensures r.PipeRows? == false
  {
    match data
    case JNull => Failed
    case JArray(items) => JsonItems(items)
    case JObject(fields) =>
      if ArrayField(fields, "value").Some? then JsonItems(ArrayField(fields, "value").value)
      else if ArrayField(fields, "listings").Some? then JsonItems(ArrayField(fields, "listings").value)
      else if ArrayField(fields, "results").Some? then JsonItems(ArrayField(fields, "results").value)
      else JsonItems([])
    case _ => JsonItems([])
  }

  /** An object's wrappers are tried in a fixed order: `.value` before
      `.listings` before `.results`. */
  lemma UnwrapOrder(fields: map<string, Json>)
    ensures ArrayField(fields, "value").Some? ==>
              Unwrap(JObject(fields)) == JsonItems(fields["value"].items)
    ensures ArrayField(fields, "value").None? && ArrayField(fields, "listings").Some? ==>
              Unwrap(JObject(fields)) == JsonItems(fields["listings"].items)
    ensures ArrayField(fields, "value").None? && ArrayField(fields, "listings").None?
            && ArrayField(fields, "results").Some? ==>
              Unwrap(JObject(fields)) == JsonItems(fields["results"].items)
    ensures ArrayField(fields, "value").None? && ArrayField(fields, "listings").None?
            && ArrayField(fields, "results").None? ==>
              Unwrap(JObject(fields)) == JsonItems([])
  {
  }

  /** The decoding step of one fetchFeed attempt, with JSON.parse as a
      parameter (None when it throws). The pipe-delimited records are an
      array, so the unwrapping passes them through. */
  function DecodeFeed(text: string, contentType: string, jsonParse: string -> Option<Json>): (r: Decoded)
    ensures IsPipeText(text) ==> r.PipeRows? && |r.rows| == Occurrences(Trim(text), '\n')
    ensures !IsPipeText(text) && jsonParse(text).None? ==> r.Failed?
    ensures !IsPipeText(text) && jsonParse(text).Some? ==> r == Unwrap(jsonParse(text).value)
  {
    if IsPipeText(text) then PipeRows(PipeRecords(text))
    else if contentType != "" && Contains(contentType, "application/json") then
      (if jsonParse(text).None? then Failed else Unwrap(jsonParse(text).value))
    else if StartsWith(Trim(text), "{") || StartsWith(Trim(text), "[") then
      (if jsonParse(text).None? then Failed else Unwrap(jsonParse(text).value))
    else
      (if jsonParse(text).None? then Failed else Unwrap(jsonParse(text).value))
  }

  /** The content type never changes the outcome: every non-pipe branch
      calls JSON.parse on the same text. */
  lemma ContentTypeIrrelevant(text: string, ct1: string, ct2: string, jsonParse: string -> Option<Json>)
    ensures DecodeFeed(text, ct1, jsonParse) == DecodeFeed(text, ct2, jsonParse)
  {
  }
}
