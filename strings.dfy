/** String operations of the JavaScript runtime that the core relies on:
    `trim`, the `\s` character class, `split`/`join` on one character,
    `includes`, `startsWith`, `toUpperCase`/`toLowerCase` and whole-string
    rewrites with a global regular expression. */
module Strings {

  /** The characters JavaScript's `\s` and `String.prototype.trim` treat as
      white space (WhiteSpace and LineTerminator of ECMA-262). */
  predicate IsWs(c: char) {
    c == ' ' || c == '\t' || c == '\n' || c == '\r' || c == '\U{000B}' || c == '\U{000C}'
    || c == '\U{00A0}' || c == '\U{1680}' || ('\U{2000}' <= c <= '\U{200A}')
    || c == '\U{2028}' || c == '\U{2029}' || c == '\U{202F}' || c == '\U{205F}'
    || c == '\U{3000}' || c == '\U{FEFF}'
  }

  predicate IsDigit(c: char) {
    '0' <= c <= '9'
  }

  predicate IsUpperLetter(c: char) {
    'A' <= c <= 'Z'
  }

  predicate IsLowerLetter(c: char) {
    'a' <= c <= 'z'
  }

  /** `/^\d+$/.test(s)` */
  predicate AllDigits(s: string) {
    |s| > 0 && forall i :: 0 <= i < |s| ==> IsDigit(s[i])
  }

  predicate NoLeadingWs(s: string) {
    |s| == 0 || !IsWs(s[0])
  }

  predicate NoTrailingWs(s: string) {
    |s| == 0 || !IsWs(s[|s| - 1])
  }

  /** A string `trim` leaves alone. */
  predicate IsTrimmed(s: string) {
    NoLeadingWs(s) && NoTrailingWs(s)
  }

  function TrimStart(s: string): (r: string)
    ensures NoLeadingWs(r)
    ensures |r| <= |s| && r == s[|s| - |r|..]
    ensures forall i :: 0 <= i < |s| - |r| ==> IsWs(s[i])
  {
    if |s| > 0 && IsWs(s[0]) then TrimStart(s[1..]) else s
  }

  function TrimEnd(s: string): (r: string)
    ensures NoTrailingWs(r)
    ensures |r| <= |s| && r == s[..|r|]
    ensures forall i :: |r| <= i < |s| ==> IsWs(s[i])
  {
    if |s| > 0 && IsWs(s[|s| - 1]) then TrimEnd(s[..|s| - 1]) else s
  }

  /** `s.trim()` */
  function Trim(s: string): (r: string)
    ensures IsTrimmed(r)
    ensures |r| <= |s|
  {
    TrimEnd(TrimStart(s))
  }

  lemma TrimEndKeepsStart(s: string)
    requires NoLeadingWs(s)
    ensures NoLeadingWs(TrimEnd(s))
  {
    var r := TrimEnd(s);
    if |r| > 0 {
      assert r[0] == s[0];
    }
  }

  /** Trimming an already trimmed string changes nothing. */
  lemma TrimOfTrimmed(s: string)
    requires IsTrimmed(s)
    ensures Trim(s) == s
  {
  }

  /** Every character of a trimmed string comes from the string. */
  lemma TrimKeepsCharacters(s: string)
    ensures forall c :: c in Trim(s) ==> c in s
  {
    var a := TrimStart(s);
    assert forall c :: c in a ==> c in s by {
      assert a == s[|s| - |a|..];
    }
    var b := TrimEnd(a);
    assert forall c :: c in b ==> c in a by {
      assert b == a[..|b|];
    }
  }

  /** Trimming keeps single spacing: the result is a slice of the input. */
  lemma TrimKeepsSingleSpaced(s: string)
    requires SingleSpaced(s)
    ensures SingleSpaced(Trim(s))
  {
    var a := TrimStart(s);
    assert SingleSpaced(a) by {
      var k := |s| - |a|;
      assert forall i :: 0 <= i < |a| ==> a[i] == s[k + i];
    }
    var b := TrimEnd(a);
    assert forall i :: 0 <= i < |b| ==> b[i] == a[i];
  }

  predicate StartsWith(s: string, prefix: string) {
    |prefix| <= |s| && s[..|prefix|] == prefix
  }

  /** `s.includes(sub)`: `sub` occurs at some position of `s`. */
  predicate Contains(s: string, sub: string)
    decreases |s|
  {
    StartsWith(s, sub) || (|s| > 0 && Contains(s[1..], sub))
  }

  /** A string contains nothing longer than itself. */
  lemma {:induction false} ContainsLength(s: string, sub: string)
    requires Contains(s, sub)
    ensures |sub| <= |s|
    decreases |s|
  {
    if !StartsWith(s, sub) {
      ContainsLength(s[1..], sub);
    }
  }

  predicate EndsWith(s: string, suffix: string) {
    |suffix| <= |s| && s[|s| - |suffix|..] == suffix
  }

  function UpperChar(c: char): (r: char)
    ensures IsLowerLetter(c) ==> IsUpperLetter(r)
    ensures !IsLowerLetter(c) ==> r == c
  {
    if IsLowerLetter(c) then (c as int - 32) as char else c
  }

  function LowerChar(c: char): (r: char)
    ensures IsUpperLetter(c) ==> IsLowerLetter(r)
    ensures !IsUpperLetter(c) ==> r == c
  {
    if IsUpperLetter(c) then (c as int + 32) as char else c
  }

  /** `s.toUpperCase()` on the ASCII letters. */
  function ToUpper(s: string): (r: string)
    ensures |r| == |s|
    ensures forall i :: 0 <= i < |s| ==> r[i] == UpperChar(s[i])
  {
    if s == [] then [] else [UpperChar(s[0])] + ToUpper(s[1..])
  }

  /** `s.toLowerCase()` on the ASCII letters. */
  function ToLower(s: string): (r: string)
    ensures |r| == |s|
    ensures forall i :: 0 <= i < |s| ==> r[i] == LowerChar(s[i])
  {
    if s == [] then [] else [LowerChar(s[0])] + ToLower(s[1..])
  }

  /** `s.replace(/c/g, '')`: every occurrence of `c` removed. */
  function RemoveChar(s: string, c: char): (r: string)
    ensures c !in r
    ensures |r| <= |s|
    ensures forall d :: d in r <==> d in s && d != c
  {
    if s == [] then []
    else if s[0] == c then RemoveChar(s[1..], c)
    else [s[0]] + RemoveChar(s[1..], c)
  }

  /** Length of the longest prefix of `s` made of white space. */
  function WsPrefix(s: string): (n: nat)
    ensures n <= |s|
    ensures forall i :: 0 <= i < n ==> IsWs(s[i])
    ensures n < |s| ==> !IsWs(s[n])
  {
    if |s| > 0 && IsWs(s[0]) then 1 + WsPrefix(s[1..]) else 0
  }

  /** Every white-space character is a plain space and no two are adjacent. */
  predicate SingleSpaced(s: string) {
    (forall i :: 0 <= i < |s| && IsWs(s[i]) ==> s[i] == ' ')
    && (forall i :: 0 <= i < |s| - 1 ==> !(IsWs(s[i]) && IsWs(s[i + 1])))
  }

  /** `s.replace(/\s+/g, ' ')`: every maximal run of white space becomes one space. */
  function CollapseWs(s: string): (r: string)
    ensures SingleSpaced(r)
    ensures |r| <= |s|
    ensures NoLeadingWs(s) ==> NoLeadingWs(r)
    ensures |s| > 0 && !IsWs(s[0]) ==> |r| > 0 && r[0] == s[0]
    decreases |s|
  {
    if s == [] then []
    else if IsWs(s[0]) then
      var n := WsPrefix(s);
      var rest := CollapseWs(s[n..]);
      assert NoLeadingWs(s[n..]);
      assert NoLeadingWs(rest);
      " " + rest
    else
      [s[0]] + CollapseWs(s[1..])
  }

  /** Collapsing never adds white space at the end. */
  lemma {:induction false} CollapseKeepsEnd(s: string)
    requires NoTrailingWs(s)
    ensures NoTrailingWs(CollapseWs(s))
    decreases |s|
  {
    if s != [] {
      if IsWs(s[0]) {
        var n := WsPrefix(s);
        assert s[n..][|s[n..]| - 1] == s[|s| - 1];
        CollapseKeepsEnd(s[n..]);
        assert |CollapseWs(s[n..])| > 0;
      } else {
        CollapseKeepsEnd(s[1..]);
      }
    }
  }

  /** Collapsing only rewrites white space: every other character of the
      result comes from the input. */
  lemma {:induction false} CollapseKeepsCharacters(s: string)
    ensures forall c :: c in CollapseWs(s) && !IsWs(c) ==> c in s
    decreases |s|
  {
    if s != [] {
      if IsWs(s[0]) {
        var n := WsPrefix(s);
        CollapseKeepsCharacters(s[n..]);
        assert forall c :: c in s[n..] ==> c in s;
      } else {
        CollapseKeepsCharacters(s[1..]);
        assert forall c :: c in s[1..] ==> c in s;
      }
    }
  }

  /** A string with single plain spaces is its own collapse. */
  lemma {:induction false} CollapseOfSingleSpaced(s: string)
    requires SingleSpaced(s)
    ensures CollapseWs(s) == s
    decreases |s|
  {
    if s != [] {
      assert SingleSpaced(s[1..]);
      if IsWs(s[0]) {
        assert WsPrefix(s) == 1 by {
          assert |s| > 1 ==> !IsWs(s[1]);
          assert WsPrefix(s[1..]) == 0;
        }
        CollapseOfSingleSpaced(s[1..]);
      } else {
        CollapseOfSingleSpaced(s[1..]);
      }
    }
  }

  /** `s.split(sep)` for a one-character separator. The result always has at
      least one element: `"".split(sep)` is `[""]`. */
  function Split(s: string, sep: char): (r: seq<string>)
    ensures |r| >= 1
    ensures forall i :: 0 <= i < |r| ==> sep !in r[i]
  {
    if s == [] then [""]
    else
      var rest := Split(s[1..], sep);
      if s[0] == sep then [""] + rest
      else [[s[0]] + rest[0]] + rest[1..]
  }

  /** `parts.join(sep)` */
  function Join(parts: seq<string>, sep: char): (r: string)
  {
    if parts == [] then ""
    else if |parts| == 1 then parts[0]
    else parts[0] + [sep] + Join(parts[1..], sep)
  }

  /** Number of occurrences of `c` in `s`. */
  function Occurrences(s: string, c: char): (n: nat)
    ensures n <= |s|
    ensures n == 0 <==> c !in s
  {
    if s == [] then 0 else (if s[0] == c then 1 else 0) + Occurrences(s[1..], c)
  }

  /** Splitting produces one more piece than there are separators. */
  lemma {:induction false} SplitCount(s: string, sep: char)
    ensures |Split(s, sep)| == Occurrences(s, sep) + 1
  {
    if s != [] {
      SplitCount(s[1..], sep);
    }
  }

  /** Joining the pieces back with the separator restores the string. */
  lemma {:induction false} JoinSplit(s: string, sep: char)
    ensures Join(Split(s, sep), sep) == s
  {
    if s != [] {
      JoinSplit(s[1..], sep);
      var rest := Split(s[1..], sep);
      if s[0] == sep {
        assert Split(s, sep) == [""] + rest;
      } else {
        var r := Split(s, sep);
        assert r == [[s[0]] + rest[0]] + rest[1..];
        if |rest| == 1 {
          assert Join(r, sep) == [s[0]] + rest[0];
        } else {
          assert r[1..] == rest[1..];
          assert Join(rest, sep) == rest[0] + [sep] + Join(rest[1..], sep);
        }
      }
    }
  }

  function DigitChar(d: nat): (c: char)
    requires d < 10
    ensures IsDigit(c)
  {
    ('0' as int + d) as char
  }

  /** The decimal text of a natural number, as `${n}` writes it. */
  function NatToString(n: nat): (r: string)
    ensures AllDigits(r)
    ensures |r| >= 1
    decreases n
  {
    if n < 10 then [DigitChar(n)] else NatToString(n / 10) + [DigitChar(n % 10)]
  }
}
