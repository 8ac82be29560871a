/** Display helpers of the web app (apps/web/src/lib/utils.ts): the address
    cleaning every listing goes through, the word and separator steps of
    address normalisation, and the labels and colours of the signal
    badges. */
module WebUtils {
  import opened Js
  import opened Strings
  import SignalRules

  /** `s.slice(1, -1)`: the string without its first and last character,
      empty when there are fewer than two. */
  function DropEnds(s: string): (r: string)
    ensures |s| >= 2 ==> r == s[1..|s| - 1]
    ensures |s| < 2 ==> r == ""
  {
    if |s| >= 2 then s[1..|s| - 1] else ""
  }

  /** `s.replace(/"\s*"/g, ' ')`: scanning from the left, a quote, any white
      space and a second quote become one space. A quote with no partner is
      kept. */
  function JoinQuotedFragments(s: string): (r: string)
    decreases |s|
  {
    if s == [] then []
    else if s[0] == '"' && 1 + WsPrefix(s[1..]) < |s| && s[1 + WsPrefix(s[1..])] == '"' then
      " " + JoinQuotedFragments(s[2 + WsPrefix(s[1..])..])
    else [s[0]] + JoinQuotedFragments(s[1..])
  }

  /** With no quote to rewrite, the scan changes nothing. */
  lemma {:induction false} JoinQuotedFragmentsNoQuote(s: string)
    requires '"' !in s
    ensures JoinQuotedFragments(s) == s
    decreases |s|
  {
    if s != [] {
      assert '"' !in s[1..];
      JoinQuotedFragmentsNoQuote(s[1..]);
    }
  }

  /** Removing a character that does not occur changes nothing. */
  lemma {:induction false} RemoveAbsentChar(s: string, c: char)
    requires c !in s
    ensures RemoveChar(s, c) == s
    decreases |s|
  {
    if s != [] {
      assert c !in s[1..];
      RemoveAbsentChar(s[1..], c);
    }
  }

  /** A string wrapped in double quotes loses them, and is trimmed again. */
  function Unwrap(s: string): string {
    if StartsWith(s, "\"") && EndsWith(s, "\"") then Trim(DropEnds(s)) else s
  }

  /** The quote and white-space rewrites of cleanAddress. */
  function Tidy(s: string): (r: string)
    ensures '"' !in r
    ensures IsTrimmed(r)
    ensures SingleSpaced(r)
  {
    var noQuotes := RemoveChar(JoinQuotedFragments(s), '"');
    var collapsed := CollapseWs(noQuotes);
    CollapseKeepsCharacters(noQuotes);
    TrimKeepsCharacters(collapsed);
    TrimKeepsSingleSpaced(collapsed);
    Trim(collapsed)
  }

  /** The steps of cleanAddress after the first trim. */
  function CleanSteps(s: string): (r: string)
    ensures '"' !in r
    ensures IsTrimmed(r)
    ensures SingleSpaced(r)
  {
    Tidy(Unwrap(s))
  }

  /** cleanAddress: "" for null and "", otherwise the trimmed address with
      wrapping quotes, quote pairs between fragments and stray quotes removed
      and white space collapsed. */
  function CleanAddress(addr: Option<string>): (r: string)
    ensures addr.None? || addr.value == "" ==> r == ""
    ensures '"' !in r
    ensures IsTrimmed(r)
    ensures SingleSpaced(r)
  {
    if addr.None? || addr.value == "" then "" else CleanSteps(Trim(addr.value))
  }

  /** The cleaning steps leave a trimmed, single-spaced, quote-free string
      alone. */
  lemma CleanStepsFixed(r: string)
    requires '"' !in r && IsTrimmed(r) && SingleSpaced(r)
    ensures CleanSteps(r) == r
  {
    if r != [] {
      assert !StartsWith(r, "\"") by {
        assert r[0] in r;
      }
    }
    assert Unwrap(r) == r;
    JoinQuotedFragmentsNoQuote(r);
    RemoveAbsentChar(r, '"');
    CollapseOfSingleSpaced(r);
    TrimOfTrimmed(r);
  }

  /** cleanAddress is idempotent. */
  lemma CleanAddressIdempotent(addr: Option<string>)
    ensures CleanAddress(Some(CleanAddress(addr))) == CleanAddress(addr)
  {
    var r := CleanAddress(addr);
    if r != "" {
      TrimOfTrimmed(r);
      CleanStepsFixed(r);
    }
  }

  /** A quote-free prefix passes through the scan unchanged. */
  lemma {:induction false} JoinQuotedFragmentsPrefix(a: string, rest: string)
    requires '"' !in a
    ensures JoinQuotedFragments(a + rest) == a + JoinQuotedFragments(rest)
    decreases |a|
  {
    if a != [] {
      assert a[0] in a;
      assert (a + rest)[0] == a[0];
      assert (a + rest)[1..] == a[1..] + rest;
      assert '"' !in a[1..];
      JoinQuotedFragmentsPrefix(a[1..], rest);
      assert JoinQuotedFragments(a + rest) == [a[0]] + JoinQuotedFragments(a[1..] + rest);
      assert a == [a[0]] + a[1..];
    } else {
      assert a + rest == rest;
    }
  }

  /** The quote pair between two fragments becomes one space. */
  lemma QuotePairBetween(a: string, b: string)
    requires '"' !in a && '"' !in b
    ensures JoinQuotedFragments(a + "\" \"" + b) == a + " " + b
  {
    var tail := "\" \"" + b;
    assert a + "\" \"" + b == a + tail;
    JoinQuotedFragmentsPrefix(a, tail);
    assert WsPrefix(tail[1..]) == 1 by {
      assert tail[1..][1..] == "\"" + b;
    }
    assert tail[3..] == b;
    JoinQuotedFragmentsNoQuote(b);
  }

  /** Two trimmed, single-spaced strings joined by one space are trimmed and
      single-spaced. */
  lemma SpaceJoined(a: string, b: string)
    requires a != "" && b != ""
    requires IsTrimmed(a) && IsTrimmed(b) && SingleSpaced(a) && SingleSpaced(b)
    ensures IsTrimmed(a + " " + b) && SingleSpaced(a + " " + b)
  {
    var joined := a + " " + b;
    forall i | 0 <= i < |joined| && IsWs(joined[i])
      ensures joined[i] == ' '
    {
      if i < |a| {
        assert joined[i] == a[i];
      } else if i > |a| {
        assert joined[i] == b[i - |a| - 1];
      }
    }
    forall i | 0 <= i < |joined| - 1
      ensures !(IsWs(joined[i]) && IsWs(joined[i + 1]))
    {
      if i < |a| - 1 {
        assert joined[i] == a[i] && joined[i + 1] == a[i + 1];
      } else if i == |a| - 1 {
        assert joined[i] == a[|a| - 1];
      } else if i == |a| {
        assert joined[i + 1] == b[0];
      } else {
        assert joined[i] == b[i - |a| - 1] && joined[i + 1] == b[i - |a|];
      }
    }
    assert joined[0] == a[0];
    assert joined[|joined| - 1] == b[|b| - 1];
  }

  /** Unwrapping the outer quotes of `"a" "b"` leaves `a" "b`. */
  lemma OuterQuotesDropped(a: string, b: string)
    requires a != "" && b != "" && IsTrimmed(a) && IsTrimmed(b)
    ensures var s := "\"" + a + "\" \"" + b + "\"";
            CleanAddress(Some(s)) == Tidy(a + "\" \"" + b)
  {
    var inner := a + "\" \"" + b;
    assert "\"" + a + "\" \"" + b + "\"" == "\"" + inner + "\"";
    JoinedTrimmed(a, b);
    UnwrapQuoted(inner);
  }

  /** Trimmed fragments joined by a quote pair are trimmed. */
  lemma JoinedTrimmed(a: string, b: string)
    requires a != "" && b != "" && IsTrimmed(a) && IsTrimmed(b)
    ensures IsTrimmed(a + "\" \"" + b)
  {
    var inner := a + "\" \"" + b;
    assert inner[0] == a[0];
    assert inner[|inner| - 1] == b[|b| - 1];
  }

  /** A trimmed string in quotes is left alone by trim and unwrapped to
      itself. */
  lemma UnwrapQuoted(inner: string)
    requires IsTrimmed(inner)
    ensures var s := "\"" + inner + "\"";
            Trim(s) == s && Unwrap(s) == inner
  {
    var s := "\"" + inner + "\"";
    assert s[0] == '"' && s[|s| - 1] == '"';
    TrimOfTrimmed(s);
    assert StartsWith(s, "\"") && EndsWith(s, "\"");
    assert DropEnds(s) == inner;
    TrimOfTrimmed(inner);
  }

  /** Two quoted fragments, as in `"416" "Conant Rd"`, come out joined by one
      space and without their quotes: `416 Conant Rd`. */
  lemma QuotedFragmentsJoined(a: string, b: string)
    requires a != "" && b != ""
    requires '"' !in a && '"' !in b
    requires IsTrimmed(a) && IsTrimmed(b) && SingleSpaced(a) && SingleSpaced(b)
    ensures CleanAddress(Some("\"" + a + "\" \"" + b + "\"")) == a + " " + b
  {
    OuterQuotesDropped(a, b);
    QuotePairBetween(a, b);
    assert Tidy(a + "\" \"" + b) == Trim(CollapseWs(RemoveChar(a + " " + b, '"')));
    var joined := a + " " + b;
    assert '"' !in joined;
    RemoveAbsentChar(joined, '"');
    SpaceJoined(a, b);
    CollapseOfSingleSpaced(joined);
    TrimOfTrimmed(joined);
  }

  /** One word of the title-casing step: an all-digit word is kept, any
      other has its first character upper-cased. */
  function TitleWord(w: string): (r: string)
    ensures AllDigits(w) ==> r == w
    ensures !AllDigits(w) && w != "" ==> |r| == |w| && r[0] == UpperChar(w[0]) && r[1..] == w[1..]
    ensures w == "" ==> r == ""
  {
    if AllDigits(w) || w == "" then w else [UpperChar(w[0])] + w[1..]
  }

  function TitleWords(words: seq<string>): (r: seq<string>)
    ensures |r| == |words|
    ensures forall i :: 0 <= i < |words| ==> r[i] == TitleWord(words[i])
  {
    seq(|words|, i requires 0 <= i < |words| => TitleWord(words[i]))
  }

  /** `s.toLowerCase().split(' ').map(...).join(' ')` */
  function TitleCase(s: string): string {
    Join(TitleWords(Split(ToLower(s), ' ')), ' ')
  }

  /** A string without the separator is a single piece. */
  lemma {:induction false} SplitWithoutSeparator(a: string, sep: char)
    requires sep !in a
    ensures Split(a, sep) == [a]
    decreases |a|
  {
    if a != [] {
      assert sep !in a[1..];
      SplitWithoutSeparator(a[1..], sep);
      assert a == [a[0]] + a[1..];
    }
  }

  /** A leading piece without the separator splits off first. */
  lemma {:induction false} SplitAfterPiece(a: string, t: string, sep: char)
    requires sep !in a
    ensures Split(a + [sep] + t, sep) == [a] + Split(t, sep)
    decreases |a|
  {
    if a == [] {
      assert a + [sep] + t == [sep] + t;
      assert ([sep] + t)[1..] == t;
    } else {
      var s := a + [sep] + t;
      assert s[0] == a[0];
      assert s[1..] == a[1..] + [sep] + t;
      assert sep !in a[1..];
      SplitAfterPiece(a[1..], t, sep);
      assert a == [a[0]] + a[1..];
    }
  }

  /** Splitting undoes joining, when no piece holds the separator. */
  lemma {:induction false} SplitJoin(parts: seq<string>, sep: char)
    requires |parts| >= 1
    requires forall i :: 0 <= i < |parts| ==> sep !in parts[i]
    ensures Split(Join(parts, sep), sep) == parts
    decreases |parts|
  {
    if |parts| == 1 {
      SplitWithoutSeparator(parts[0], sep);
    } else {
      SplitJoin(parts[1..], sep);
      SplitAfterPiece(parts[0], Join(parts[1..], sep), sep);
      assert parts == [parts[0]] + parts[1..];
    }
  }

  /** The words of the title-cased string are the lower-cased words, each
      with its first character upper-cased unless it is all digits; the
      rest of every word stays lower-case. */
  lemma TitleCaseWords(s: string, i: nat)
    requires i < |Split(ToLower(s), ' ')|
    ensures |Split(TitleCase(s), ' ')| == |Split(ToLower(s), ' ')|
    ensures Split(TitleCase(s), ' ')[i] == TitleWord(Split(ToLower(s), ' ')[i])
    ensures forall k :: 1 <= k < |Split(TitleCase(s), ' ')[i]| ==> !IsUpperLetter(Split(TitleCase(s), ' ')[i][k])
  {
    var lowered := ToLower(s);
    var words := Split(lowered, ' ');
    var titled := TitleWords(words);
    forall j | 0 <= j < |titled|
      ensures ' ' !in titled[j]
    {
      var w := words[j];
      if w != "" && !AllDigits(w) {
        assert titled[j] == [UpperChar(w[0])] + w[1..];
        assert w[0] != ' ' by {
          assert w[0] in w;
        }
      }
    }
    SplitJoin(titled, ' ');
    NoUpperInLowered(s, i);
  }

  /** No word of a lower-cased string holds an upper-case letter. */
  lemma NoUpperInLowered(s: string, i: nat)
    requires i < |Split(ToLower(s), ' ')|
    ensures forall k :: 0 <= k < |Split(ToLower(s), ' ')[i]| ==> !IsUpperLetter(Split(ToLower(s), ' ')[i][k])
  {
    var w := Split(ToLower(s), ' ')[i];
    forall k | 0 <= k < |w|
      ensures !IsUpperLetter(w[k])
    {
      assert w[k] in w;
      SplitKeepsCharacters(ToLower(s), ' ', i, w[k]);
    }
  }

  /** Every character of a piece comes from the string split. */
  lemma {:induction false} SplitKeepsCharacters(s: string, sep: char, i: nat, c: char)
    requires i < |Split(s, sep)| && c in Split(s, sep)[i]
    ensures c in s
    decreases |s|
  {
    if s != [] {
      var rest := Split(s[1..], sep);
      if s[0] == sep {
        if i > 0 {
          SplitKeepsCharacters(s[1..], sep, i - 1, c);
        }
      } else if i == 0 {
        if c != s[0] {
          assert c in rest[0];
          SplitKeepsCharacters(s[1..], sep, 0, c);
        }
      } else {
        assert Split(s, sep)[i] == rest[i];
        SplitKeepsCharacters(s[1..], sep, i, c);
      }
    }
  }

  /** Every comma is followed by a space. */
  predicate SpaceAfterCommas(s: string) {
    forall i :: 0 <= i < |s| && s[i] == ',' ==> i + 1 < |s| && s[i + 1] == ' '
  }

  // `s.replace(/,\s*/g, ', ')`
  function CommaThenSpace(s: string): (r: string)
    ensures SpaceAfterCommas(r)
    decreases |s|
  {
    if s == [] then []
    else if s[0] == ',' then ", " + CommaThenSpace(s[1 + WsPrefix(s[1..])..])
    else [s[0]] + CommaThenSpace(s[1..])
  }

  // `s.replace(/\s*,\s*/g, ', ')`: white space on either side of a comma
  // becomes exactly one space after it.
  function SpacedCommas(s: string): (r: string)
    ensures SpaceAfterCommas(r)
    decreases |s|
  {
    if s == [] then []
    else if WsPrefix(s) < |s| && s[WsPrefix(s)] == ',' then
      var n := WsPrefix(s) + 1;
      ", " + SpacedCommas(s[n + WsPrefix(s[n..])..])
    else [s[0]] + SpacedCommas(s[1..])
  }

  /** Collapsing white space keeps a space after every comma. */
  lemma {:induction false} CollapseKeepsCommaSpace(s: string)
    requires SpaceAfterCommas(s)
    ensures SpaceAfterCommas(CollapseWs(s))
    decreases |s|
  {
    if s != [] {
      var r := CollapseWs(s);
      if IsWs(s[0]) {
        var n := WsPrefix(s);
        var t := s[n..];
        assert SpaceAfterCommas(t) by {
          forall i | 0 <= i < |t| && t[i] == ','
            ensures i + 1 < |t| && t[i + 1] == ' '
          {
            assert s[n + i] == ',';
          }
        }
        CollapseKeepsCommaSpace(t);
        assert r == " " + CollapseWs(t);
      } else {
        var t := s[1..];
        assert SpaceAfterCommas(t) by {
          forall i | 0 <= i < |t| && t[i] == ','
            ensures i + 1 < |t| && t[i + 1] == ' '
          {
            assert s[1 + i] == ',';
          }
        }
        CollapseKeepsCommaSpace(t);
        assert r == [s[0]] + CollapseWs(t);
        if s[0] == ',' {
          assert IsWs(t[0]);
          assert |CollapseWs(t)| > 0 && CollapseWs(t)[0] == ' ';
        }
      }
    }
  }

  /** Trimming keeps a space after every comma but a final one. */
  lemma TrimKeepsCommaSpace(s: string)
    requires SpaceAfterCommas(s)
    ensures var r := Trim(s);
            forall i :: 0 <= i < |r| - 1 && r[i] == ',' ==> r[i + 1] == ' '
  {
    var a := TrimStart(s);
    var k := |s| - |a|;
    var b := TrimEnd(a);
    forall i | 0 <= i < |b| - 1 && b[i] == ','
      ensures b[i + 1] == ' '
    {
      assert b[i] == a[i] == s[k + i];
      assert b[i + 1] == a[i + 1] == s[k + i + 1];
    }
  }

  /** The final separator clean-up of normalizeAddress. */
  function FinishSeparators(s: string): (r: string)
    ensures IsTrimmed(r)
    ensures SingleSpaced(r)
    ensures forall i :: 0 <= i < |r| - 1 && r[i] == ',' ==> r[i + 1] == ' '
  {
    var collapsed := CollapseWs(SpacedCommas(s));
    CollapseKeepsCommaSpace(SpacedCommas(s));
    TrimKeepsCommaSpace(collapsed);
    TrimKeepsSingleSpaced(collapsed);
    Trim(collapsed)
  }

  /** The typographic quotes U+2018, U+2019, U+201C and U+201D that
      normalizeAddress strips. */
  predicate IsCurlyQuote(c: char) {
    c == '\U{2018}' || c == '\U{2019}' || c == '\U{201C}' || c == '\U{201D}'
  }

  function RemoveCurlyQuotes(s: string): (r: string)
    ensures forall i :: 0 <= i < |r| ==> !IsCurlyQuote(r[i])
    ensures |r| <= |s|
  {
    if s == [] then []
    else if IsCurlyQuote(s[0]) then RemoveCurlyQuotes(s[1..])
    else [s[0]] + RemoveCurlyQuotes(s[1..])
  }

  /** normalizeAddress, with the directional and street-type expansions
      (a chain of word-boundary regular expressions) as the parameter
      `expand`. The result is "" for null and "", and otherwise trimmed,
      single-spaced and with a space after every comma but a final one. */
  function NormalizeAddress(addr: Option<string>, expand: string -> string): (r: string)
    ensures addr.None? || addr.value == "" ==> r == ""
    ensures IsTrimmed(r) && SingleSpaced(r)
    ensures forall i :: 0 <= i < |r| - 1 && r[i] == ',' ==> r[i + 1] == ' '
    ensures addr.Some? && addr.value != "" ==>
              r == FinishSeparators(TitleCase(expand(SpacedCommas(CommaThenSpace(RemoveCurlyQuotes(CleanAddress(addr)))))))
  {
    if addr.None? || addr.value == "" then ""
    else
      var s := RemoveCurlyQuotes(CleanAddress(addr));
      var separated := SpacedCommas(CommaThenSpace(s));
      FinishSeparators(TitleCase(expand(separated)))
  }

  /** The labels of getSignalLabel. */
  const SignalLabels: map<string, string> := map[
    "stale" := "Stale Listing", "recent_drop" := "Recent Price Drop", "likely_cut" := "Likely Price Cut",
    "underpriced" := "Underpriced", "hot" := "Hot Property"]

  /** The badge classes of getSignalColor. */
  const SignalColors: map<string, string> := map[
    "stale" := "bg-gray-100 text-gray-800", "recent_drop" := "bg-blue-100 text-blue-800",
    "likely_cut" := "bg-yellow-100 text-yellow-800", "underpriced" := "bg-green-100 text-green-800",
    "hot" := "bg-red-100 text-red-800"]

  const DefaultColor: string := "bg-gray-100 text-gray-800"

  /** getSignalLabel: the label of a known type, the type itself otherwise. */
  function GetSignalLabel(signalType: string): (text: string)
    ensures signalType !in SignalLabels ==> text == signalType
    ensures signalType in SignalLabels ==> text == SignalLabels[signalType]
  {
    if signalType in SignalLabels && SignalLabels[signalType] != "" then SignalLabels[signalType] else signalType
  }

  /** getSignalColor: the class of a known type, grey otherwise. */
  function GetSignalColor(signalType: string): (color: string)
    ensures signalType !in SignalColors ==> color == DefaultColor
    ensures signalType in SignalColors ==> color == SignalColors[signalType]
  {
    if signalType in SignalColors && SignalColors[signalType] != "" then SignalColors[signalType] else DefaultColor
  }

  /** The five types the analytics job writes are exactly the ones with a
      label of their own: each gets a label different from its name, any
      other text is shown as it is. */
  lemma LabelsCoverSignalTypes(signalType: string)
    ensures (exists t :: SignalRules.TypeName(t) == signalType) <==> signalType in SignalLabels
    ensures signalType in SignalLabels ==> GetSignalLabel(signalType) != signalType
    ensures signalType !in SignalLabels ==> GetSignalLabel(signalType) == signalType
  {
    if signalType in SignalLabels {
      var t := if signalType == "stale" then SignalRules.Stale
               else if signalType == "recent_drop" then SignalRules.RecentDrop
               else if signalType == "likely_cut" then SignalRules.LikelyCut
               else if signalType == "underpriced" then SignalRules.Underpriced
               else SignalRules.Hot;
      assert SignalRules.TypeName(t) == signalType;
    }
  }

  /** A badge is grey exactly for stale listings and for unknown types. */
  lemma GreyBadges(signalType: string)
    ensures GetSignalColor(signalType) == DefaultColor <==> signalType == "stale" || signalType !in SignalColors
  {
  }
}
