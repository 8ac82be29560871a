/** The duplicate finder of scripts/dedupe-listings.js: raw listings are
    grouped by normalised address and town, each group with more than one
    row is sorted so that its most complete row comes first, and every other
    row of the group is recorded as a duplicate of that canonical row. */
module Dedupe {
  import opened Js
  import opened Strings
  import opened Sorting
  import WebUtils

  /** A row of `SELECT mls_id, address, town, sqft, list_price, created_at
      FROM listings_raw WHERE address IS NOT NULL`; `createdAt` is the
      timestamp in milliseconds, as `new Date(...)` subtracts it. */
  datatype RawRow = RawRow(
    mlsId: string,
    address: string,
    town: Option<string>,
    sqft: Option<real>,
    listPrice: Option<real>,
    createdAt: int)

  /** A row inserted into listing_duplicates (its reason is always
      'same-normalized-address'). */
  datatype Duplicate = Duplicate(canonicalMlsId: string, duplicateMlsId: string)

  /** `(r.town || '')` */
  function TownText(r: RawRow): (t: string)
    ensures r.town.Some? ==> t == r.town.value
    ensures r.town.None? ==> t == ""
  {
    if r.town.Some? then r.town.value else ""
  }

  /** The grouping key `${normalizeAddress(address).toLowerCase()}|${town.toLowerCase()}`,
      with the abbreviation rewrites of normalizeAddress as `expand`: it ends
      in a bar and the lower-cased town. */
  function GroupKey(r: RawRow, expand: string -> string): (k: string)
    ensures |TownText(r)| < |k|
    ensures k[|k| - |TownText(r)| - 1..] == "|" + ToLower(TownText(r))
  {
    var a, t := ToLower(WebUtils.NormalizeAddress(Some(r.address), expand)), ToLower(TownText(r));
    JoinedTail(a, t);
    a + "|" + t
  }

  lemma JoinedTail(a: string, t: string)
    ensures (a + "|" + t)[|a + "|" + t| - |t| - 1..] == "|" + t
  {
  }

  /** GroupKey as the key function the Map is built with. */
  function KeyOf(expand: string -> string): (key: RawRow -> string)
    ensures forall r :: key(r) == GroupKey(r, expand)
  {
    r => GroupKey(r, expand)
  }

  /** Lower-casing leaves '|' where it was and creates none. */
  lemma LowerKeepsBar(s: string)
    ensures '|' in ToLower(s) <==> '|' in s
  {
    var l := ToLower(s);
    if '|' in s {
      var i :| 0 <= i < |s| && s[i] == '|';
      assert l[i] == '|';
    }
    if '|' in l {
      var i :| 0 <= i < |l| && l[i] == '|';
      assert s[i] == '|';
    }
  }

  /** Position of the first '|' of `s`, or |s| when there is none. */
  function BarIndex(s: string): (n: nat)
    ensures n <= |s|
    ensures '|' !in s[..n]
  {
    if s == [] || s[0] == '|' then 0 else 1 + BarIndex(s[1..])
  }

  lemma {:induction false} BarIndexOfJoined(x: string, y: string)
    requires '|' !in x
    ensures BarIndex(x + "|" + y) == |x|
  {
    if x != [] {
      assert (x + "|" + y)[1..] == x[1..] + "|" + y;
      assert x[0] in x;
      BarIndexOfJoined(x[1..], y);
    }
  }

  /** A separator that does not occur in the left parts splits the joined
      strings back into their parts. */
  lemma SeparatorSplits(x: string, y: string, x': string, y': string)
    requires '|' !in x && '|' !in x'
    ensures x + "|" + y == x' + "|" + y' <==> x == x' && y == y'
  {
    var u, v := x + "|" + y, x' + "|" + y';
    if u == v {
      BarIndexOfJoined(x, y);
      BarIndexOfJoined(x', y');
      assert x == u[..|x|] == v[..|x|] == x';
      assert y == u[|x| + 1..] == v[|x| + 1..] == y';
    }
  }

  /** Two rows share a group when their normalised addresses and their
      towns agree once lower-cased; when the normalised addresses hold no
      '|' that is also the only way to share a group. */
  lemma SameGroup(a: RawRow, b: RawRow, expand: string -> string)
    ensures ToLower(WebUtils.NormalizeAddress(Some(a.address), expand)) == ToLower(WebUtils.NormalizeAddress(Some(b.address), expand))
            && ToLower(TownText(a)) == ToLower(TownText(b))
            ==> GroupKey(a, expand) == GroupKey(b, expand)
    ensures '|' !in WebUtils.NormalizeAddress(Some(a.address), expand)
            && '|' !in WebUtils.NormalizeAddress(Some(b.address), expand)
            && GroupKey(a, expand) == GroupKey(b, expand)
            ==> ToLower(WebUtils.NormalizeAddress(Some(a.address), expand)) == ToLower(WebUtils.NormalizeAddress(Some(b.address), expand))
                && ToLower(TownText(a)) == ToLower(TownText(b))
  {
    var na, nb := WebUtils.NormalizeAddress(Some(a.address), expand), WebUtils.NormalizeAddress(Some(b.address), expand);
    if '|' !in na && '|' !in nb {
      LowerKeepsBar(na);
      LowerKeepsBar(nb);
      SeparatorSplits(ToLower(na), ToLower(TownText(a)), ToLower(nb), ToLower(TownText(b)));
    }
  }

  // ---------------------------------------------------------------------
  // Grouping: a JavaScript Map from key to the rows pushed under it, which
  // remembers the order in which its keys were first set.

  /** The rows of `rows` whose key is `k`, in their original order. */
  function RowsWithKey(rows: seq<RawRow>, k: string, key: RawRow -> string): (g: seq<RawRow>)
    ensures |g| <= |rows|
    ensures forall r :: r in g <==> r in rows && key(r) == k
    ensures (forall r :: r in rows ==> key(r) != k) ==> g == []
  {
    if rows == [] then []
    else
      var last := rows[|rows| - 1];
      RowsWithKey(rows[..|rows| - 1], k, key) + (if key(last) == k then [last] else [])
  }

  /** The Map after pushing every row of `rows`: no entry is empty, and an
      entry holds only rows with its key. */
  function GroupsOf(rows: seq<RawRow>, key: RawRow -> string): (g: map<string, seq<RawRow>>)
    ensures forall k :: k in g ==> g[k] != []
    ensures forall k :: k in g ==> forall x :: x in g[k] ==> x in rows && key(x) == k
  {
    if rows == [] then map[]
    else
      var g := GroupsOf(rows[..|rows| - 1], key);
      var last := rows[|rows| - 1];
      var k := key(last);
      g[k := (if k in g then g[k] else []) + [last]]
  }

  /** The Map's keys in insertion order, the order `groups.entries()` visits:
      no more keys than rows, each a key of the Map. */
  function KeysOf(rows: seq<RawRow>, key: RawRow -> string): (keys: seq<string>)
    ensures |keys| <= |rows|
    ensures forall k :: k in keys ==> k in GroupsOf(rows, key)
  {
    if rows == [] then []
    else
      var keys := KeysOf(rows[..|rows| - 1], key);
      var k := key(rows[|rows| - 1]);
      if k in GroupsOf(rows[..|rows| - 1], key) then keys else keys + [k]
  }

  predicate Distinct(keys: seq<string>) {
    forall i, j :: 0 <= i < j < |keys| ==> keys[i] != keys[j]
  }

  /** The Map's iteration order lists each of its keys once, and no entry
      is empty. */
  lemma {:induction false} KeysMeaning(rows: seq<RawRow>, key: RawRow -> string)
    ensures forall k :: k in GroupsOf(rows, key) ==> GroupsOf(rows, key)[k] != []
    ensures Distinct(KeysOf(rows, key))
    ensures forall k :: k in KeysOf(rows, key) <==> k in GroupsOf(rows, key)
  {
    if rows != [] {
      KeysMeaning(rows[..|rows| - 1], key);
    }
  }

  /** The Map holds one entry per key of a row, and the entry for a key is
      exactly the rows with that key, in order. */
  lemma {:induction false} GroupsMeaning(rows: seq<RawRow>, key: RawRow -> string)
    ensures forall k :: k in GroupsOf(rows, key) <==> exists r :: r in rows && key(r) == k
    ensures forall k :: k in GroupsOf(rows, key) ==> GroupsOf(rows, key)[k] == RowsWithKey(rows, k, key)
  {
    if rows != [] {
      var init := rows[..|rows| - 1];
      var last := rows[|rows| - 1];
      GroupsMeaning(init, key);
      assert rows == init + [last];
      var k0 := key(last);
      forall k | k in GroupsOf(rows, key)
        ensures GroupsOf(rows, key)[k] == RowsWithKey(rows, k, key)
      {
        if k != k0 {
          assert RowsWithKey(rows, k, key) == RowsWithKey(init, k, key);
        }
      }
      forall k ensures k in GroupsOf(rows, key) <==> exists r :: r in rows && key(r) == k
      {
        if k in GroupsOf(init, key) {
          var r :| r in init && key(r) == k;
          assert r in rows;
        }
        if k == k0 {
          assert last in rows;
        }
      }
    }
  }

  /** Σ |groups[k]| over `keys`. */
  function TotalSize(keys: seq<string>, groups: map<string, seq<RawRow>>): nat
    requires forall k :: k in keys ==> k in groups
  {
    if keys == [] then 0
    else TotalSize(keys[..|keys| - 1], groups) + |groups[keys[|keys| - 1]]|
  }

  /** Updating an entry whose key is not listed changes no total. */
  lemma {:induction false} TotalSizeFrame(keys: seq<string>, groups: map<string, seq<RawRow>>, k: string, g: seq<RawRow>)
    requires forall key :: key in keys ==> key in groups
    requires k !in keys
    ensures TotalSize(keys, groups[k := g]) == TotalSize(keys, groups)
  {
    if keys != [] {
      TotalSizeFrame(keys[..|keys| - 1], groups, k, g);
    }
  }

  /** Growing the entry of a key listed once grows the total by as much. */
  lemma {:induction false} TotalSizeGrow(keys: seq<string>, groups: map<string, seq<RawRow>>, k: string, g: seq<RawRow>)
    requires forall key :: key in keys ==> key in groups
    requires Distinct(keys) && k in keys
    ensures TotalSize(keys, groups[k := g]) == TotalSize(keys, groups) - |groups[k]| + |g|
  {
    var init := keys[..|keys| - 1];
    if keys[|keys| - 1] == k {
      assert k !in init;
      TotalSizeFrame(init, groups, k, g);
    } else {
      assert k in init;
      TotalSizeGrow(init, groups, k, g);
    }
  }

  /** Adding a new key with its entry adds the entry's size. */
  lemma TotalSizeNewKey(keys: seq<string>, groups: map<string, seq<RawRow>>, k: string, g: seq<RawRow>)
    requires forall key :: key in keys ==> key in groups
    requires k !in keys
    ensures TotalSize(keys + [k], groups[k := g]) == TotalSize(keys, groups) + |g|
  {
    TotalSizeFrame(keys, groups, k, g);
    assert (keys + [k])[..|keys|] == keys;
  }

  /** Every row lands in exactly one group. */
  lemma {:induction false} EveryRowGrouped(rows: seq<RawRow>, key: RawRow -> string)
    ensures forall k :: k in KeysOf(rows, key) ==> k in GroupsOf(rows, key)
    ensures TotalSize(KeysOf(rows, key), GroupsOf(rows, key)) == |rows|
  {
    KeysMeaning(rows, key);
    if rows != [] {
      var init := rows[..|rows| - 1];
      var last := rows[|rows| - 1];
      EveryRowGrouped(init, key);
      KeysMeaning(init, key);
      var g, keys := GroupsOf(init, key), KeysOf(init, key);
      var k := key(last);
      if k in g {
        assert GroupsOf(rows, key) == g[k := g[k] + [last]];
        assert KeysOf(rows, key) == keys;
        TotalSizeGrow(keys, g, k, g[k] + [last]);
      } else {
        assert KeysOf(rows, key) == keys + [k];
        TotalSizeNewKey(keys, g, k, [] + [last]);
      }
    }
  }

  /** The grouping loop: each row pushed onto the Map entry of its key,
      a new key entered with an empty group first. */
  method GroupRows(rows: seq<RawRow>, key: RawRow -> string)
      returns (groups: map<string, seq<RawRow>>, keys: seq<string>)
    ensures groups == GroupsOf(rows, key)
    ensures keys == KeysOf(rows, key)
  {
    groups, keys := map[], [];
    var i := 0;
    while i < |rows|
      invariant 0 <= i <= |rows|
      invariant groups == GroupsOf(rows[..i], key)
      invariant keys == KeysOf(rows[..i], key)
    {
      var r := rows[i];
      var k := key(r);
      assert rows[..i + 1][..i] == rows[..i];
      if k !in groups {
        groups := groups[k := []];
        keys := keys + [k];
      }
      groups := groups[k := groups[k] + [r]];
      i := i + 1;
    }
    assert rows[..|rows|] == rows;
  }

  // ---------------------------------------------------------------------
  // Choosing the canonical row of a group.

  /** `(sqft ? 1 : 0) + (list_price ? 1 : 0)` */
  function Completeness(r: RawRow): (c: nat)
    ensures c <= 2
    ensures c == 2 <==> Truthy(r.sqft) && Truthy(r.listPrice)
    ensures c == 0 <==> !Truthy(r.sqft) && !Truthy(r.listPrice)
  {
    (if Truthy(r.sqft) then 1 else 0) + (if Truthy(r.listPrice) then 1 else 0)
  }

  /** The comparator of `arr.sort`: negative when `a` goes first. */
  function Compare(a: RawRow, b: RawRow): (d: real)
    ensures Completeness(a) > Completeness(b) ==> d < 0.0
    ensures Completeness(a) < Completeness(b) ==> d > 0.0
    ensures Completeness(a) == Completeness(b) && Truthy(a.listPrice) && Truthy(b.listPrice) ==>
              d == b.listPrice.value - a.listPrice.value
    ensures Completeness(a) == Completeness(b) && !(Truthy(a.listPrice) && Truthy(b.listPrice)) ==>
              d == (b.createdAt - a.createdAt) as real
  {
    var aScore, bScore := Completeness(a), Completeness(b);
    if bScore != aScore then (bScore - aScore) as real
    else if Truthy(b.listPrice) && Truthy(a.listPrice) then b.listPrice.value - a.listPrice.value
    else (b.createdAt - a.createdAt) as real
  }

  /** `a` may stand before `b` in a sorted group: more complete first; among
      rows with both square footage and price, the dearer first; among rows
      with neither, the newer first. Rows with exactly one of the two are
      compared by price or by date depending on the pair, which orders no
      consistent way, so nothing is demanded of them. */
  predicate InOrder(a: RawRow, b: RawRow) {
    || Completeness(a) > Completeness(b)
    || (Completeness(a) == Completeness(b)
        && (Completeness(a) == 2 ==> a.listPrice.value >= b.listPrice.value)
        && (Completeness(a) == 0 ==> a.createdAt >= b.createdAt))
  }

  lemma InOrderTransitive(a: RawRow, b: RawRow, c: RawRow)
    requires InOrder(a, b) && InOrder(b, c)
    ensures InOrder(a, c)
  {
  }

  predicate GroupOrdered(s: seq<RawRow>) {
    forall i, j :: 0 <= i < j < |s| ==> InOrder(s[i], s[j])
  }

  /** The comparator as the function value `arr.sort` is given. */
  const ByCompleteness: (RawRow, RawRow) -> real := (a: RawRow, b: RawRow) => Compare(a, b)

  /** `arr.sort(comparator)` */
  function SortGroup(arr: seq<RawRow>): (sorted: seq<RawRow>)
    ensures |sorted| == |arr|
    ensures multiset(sorted) == multiset(arr)
  {
    SortBy(arr, ByCompleteness)
  }

  /** A row the comparator puts before the head of an ordered group may
      stand before all of it. */
  lemma InsertAtHead(x: RawRow, s: seq<RawRow>)
    requires GroupOrdered(s) && s != [] && Compare(x, s[0]) <= 0.0
    ensures GroupOrdered([x] + s)
  {
    assert InOrder(x, s[0]);
    forall j | 0 < j < |s|
      ensures InOrder(x, s[j])
    {
      InOrderTransitive(x, s[0], s[j]);
    }
    var r := [x] + s;
    assert forall i :: 0 < i < |r| ==> r[i] == s[i - 1];
  }

  /** A head that the comparator does not put after `x` may stand before
      `x` and the rest of the ordered group. */
  lemma KeepHead(x: RawRow, s: seq<RawRow>, t: seq<RawRow>)
    requires GroupOrdered(s) && s != [] && Compare(x, s[0]) > 0.0
    requires GroupOrdered(t) && multiset(t) == multiset(s[1..]) + multiset{x}
    ensures GroupOrdered([s[0]] + t)
  {
    assert InOrder(s[0], x);
    forall j | 0 <= j < |t|
      ensures InOrder(s[0], t[j])
    {
      assert t[j] in multiset(t);
      assert t[j] == x || t[j] in s[1..];
    }
    var r := [s[0]] + t;
    assert forall i :: 0 < i < |r| ==> r[i] == t[i - 1];
  }

  lemma {:induction false} InsertKeepsOrder(x: RawRow, s: seq<RawRow>)
    requires GroupOrdered(s)
    ensures GroupOrdered(Insert(x, s, ByCompleteness))
  {
    if s != [] {
      if Compare(x, s[0]) <= 0.0 {
        InsertAtHead(x, s);
      } else {
        assert GroupOrdered(s[1..]);
        InsertKeepsOrder(x, s[1..]);
        KeepHead(x, s, Insert(x, s[1..], ByCompleteness));
      }
    }
  }

  /** The sorted group is a rearrangement of the group in the order of
      `InOrder`. */
  lemma {:induction false} SortGroupOrdered(arr: seq<RawRow>)
    ensures GroupOrdered(SortGroup(arr))
  {
    if arr != [] {
      SortGroupOrdered(arr[1..]);
      InsertKeepsOrder(arr[0], SortGroup(arr[1..]));
    }
  }

  /** The canonical row, `arr[0]` after sorting, is a member of the group
      with the highest completeness; when some member has both square
      footage and price, the canonical one has both and the highest such
      price. */
  lemma CanonicalIsMostComplete(arr: seq<RawRow>)
    requires arr != []
    ensures SortGroup(arr)[0] in arr
    ensures forall r :: r in arr ==> Completeness(SortGroup(arr)[0]) >= Completeness(r)
    ensures forall r :: r in arr && Completeness(r) == 2 ==>
              Completeness(SortGroup(arr)[0]) == 2 && SortGroup(arr)[0].listPrice.value >= r.listPrice.value
  {
    var s := SortGroup(arr);
    SortGroupOrdered(arr);
    assert s[0] in multiset(s);
    forall r | r in arr
      ensures InOrder(s[0], r)
    {
      assert r in multiset(s);
      var j :| 0 <= j < |s| && s[j] == r;
      if j > 0 {
        assert InOrder(s[0], s[j]);
      }
    }
  }

  /** The rows inserted for one sorted group: the canonical row paired with
      each later row. */
  function DuplicatesOf(sorted: seq<RawRow>): (dups: seq<Duplicate>)
    requires sorted != []
    ensures |dups| == |sorted| - 1
    ensures forall i :: 0 <= i < |dups| ==>
              dups[i].canonicalMlsId == sorted[0].mlsId && dups[i].duplicateMlsId == sorted[i + 1].mlsId
  {
    seq(|sorted| - 1, i requires 0 <= i < |sorted| - 1 => Duplicate(sorted[0].mlsId, sorted[i + 1].mlsId))
  }

  /** Every row of a group but the canonical one is recorded once: the
      recorded rows and the canonical row together make up the group. */
  lemma DuplicatesCoverGroup(arr: seq<RawRow>)
    requires arr != []
    ensures multiset(SortGroup(arr)[1..]) + multiset{SortGroup(arr)[0]} == multiset(arr)
  {
    var s := SortGroup(arr);
    assert s == [s[0]] + s[1..];
    assert multiset(s) == multiset{s[0]} + multiset(s[1..]);
  }

  // ---------------------------------------------------------------------
  // Counting the groups and recording the duplicates.

  /** A group the script reports: more than one row. */
  predicate HasDuplicates(g: seq<RawRow>) {
    |g| > 1
  }

  /** groupCount: the groups among `keys` with more than one row. */
  function GroupCount(keys: seq<string>, groups: map<string, seq<RawRow>>): (n: nat)
    requires forall k :: k in keys ==> k in groups
    ensures n <= |keys|
  {
    if keys == [] then 0
    else GroupCount(keys[..|keys| - 1], groups) + (if HasDuplicates(groups[keys[|keys| - 1]]) then 1 else 0)
  }

  /** The rows inserted for the groups among `keys`, in iteration order. */
  function DuplicateRows(keys: seq<string>, groups: map<string, seq<RawRow>>): seq<Duplicate>
    requires forall k :: k in keys ==> k in groups
  {
    if keys == [] then []
    else
      var g := groups[keys[|keys| - 1]];
      DuplicateRows(keys[..|keys| - 1], groups) + (if HasDuplicates(g) then DuplicatesOf(SortGroup(g)) else [])
  }

  /** One duplicate is recorded per row beyond the first of each group,
      so the count never exceeds the rows and is zero exactly when every
      group is a single row. */
  lemma {:induction false} DuplicateCount(keys: seq<string>, groups: map<string, seq<RawRow>>)
    requires forall k :: k in keys ==> k in groups && groups[k] != []
    ensures |DuplicateRows(keys, groups)| == TotalSize(keys, groups) - |keys|
    ensures GroupCount(keys, groups) == 0 <==> DuplicateRows(keys, groups) == []
  {
    if keys != [] {
      DuplicateCount(keys[..|keys| - 1], groups);
    }
  }

  /** The whole run on the selected rows: every row past the first of its
      group is recorded, so there are as many duplicates as rows minus
      groups, and no group is reported when no two rows share a key. */
  lemma DuplicatesPerRun(rows: seq<RawRow>, key: RawRow -> string)
    ensures forall k :: k in KeysOf(rows, key) ==> k in GroupsOf(rows, key)
    ensures |DuplicateRows(KeysOf(rows, key), GroupsOf(rows, key))| == |rows| - |KeysOf(rows, key)|
    ensures (forall i, j :: 0 <= i < j < |rows| ==> key(rows[i]) != key(rows[j]))
            ==> GroupCount(KeysOf(rows, key), GroupsOf(rows, key)) == 0
  {
    GroupsMeaning(rows, key);
    KeysMeaning(rows, key);
    EveryRowGrouped(rows, key);
    DuplicateCount(KeysOf(rows, key), GroupsOf(rows, key));
    if forall i, j :: 0 <= i < j < |rows| ==> key(rows[i]) != key(rows[j]) {
      var keys, groups := KeysOf(rows, key), GroupsOf(rows, key);
      forall k | k in keys
        ensures |groups[k]| == 1
      {
        SingleRowPerKey(rows, k, key);
      }
      NoDuplicatesNoGroups(keys, groups);
    }
  }

  /** With pairwise different keys, no key collects two rows. */
  lemma {:induction false} SingleRowPerKey(rows: seq<RawRow>, k: string, key: RawRow -> string)
    requires forall i, j :: 0 <= i < j < |rows| ==> key(rows[i]) != key(rows[j])
    ensures |RowsWithKey(rows, k, key)| <= 1
  {
    if rows != [] {
      var init := rows[..|rows| - 1];
      var last := rows[|rows| - 1];
      SingleRowPerKey(init, k, key);
      if key(last) == k {
        forall r | r in init
          ensures key(r) != k
        {
          var i :| 0 <= i < |init| && init[i] == r;
          assert key(rows[i]) != key(rows[|rows| - 1]);
        }
      }
    }
  }

  lemma {:induction false} NoDuplicatesNoGroups(keys: seq<string>, groups: map<string, seq<RawRow>>)
    requires forall k :: k in keys ==> k in groups && |groups[k]| == 1
    ensures GroupCount(keys, groups) == 0
  {
    if keys != [] {
      NoDuplicatesNoGroups(keys[..|keys| - 1], groups);
    }
  }

  /** The inner loop for one group of more than one row: every row after
      the canonical one is inserted as its duplicate. */
  method RecordGroup(arr: seq<RawRow>) returns (dups: seq<Duplicate>)
    requires HasDuplicates(arr)
    ensures dups == DuplicatesOf(SortGroup(arr))
  {
    var sorted := SortGroup(arr);
    var canonical := sorted[0];
    dups := [];
    for i := 1 to |sorted|
      invariant dups == DuplicatesOf(sorted[..i])
    {
      DuplicatesSnoc(sorted, i);
      dups := dups + [Duplicate(canonical.mlsId, sorted[i].mlsId)];
    }
    assert sorted[..|sorted|] == sorted;
  }

  lemma DuplicatesSnoc(sorted: seq<RawRow>, i: nat)
    requires 1 <= i < |sorted|
    ensures DuplicatesOf(sorted[..i + 1]) == DuplicatesOf(sorted[..i]) + [Duplicate(sorted[0].mlsId, sorted[i].mlsId)]
  {
    var longer, shorter := DuplicatesOf(sorted[..i + 1]), DuplicatesOf(sorted[..i]);
    assert |longer| == |shorter| + 1;
    forall k | 0 <= k < |longer| ensures longer[k] == (shorter + [Duplicate(sorted[0].mlsId, sorted[i].mlsId)])[k] {
      assert sorted[..i + 1][k + 1] == sorted[k + 1];
      if k < |shorter| {
        assert sorted[..i][k + 1] == sorted[k + 1];
      }
    }
  }

  /** The counting loop over the Map's entries in
      iteration order. */
  method RecordGroups(keys: seq<string>, groups: map<string, seq<RawRow>>)
      returns (groupCount: nat, dupCount: nat, inserted: seq<Duplicate>)
    requires forall k :: k in keys ==> k in groups
    ensures groupCount == GroupCount(keys, groups)
    ensures inserted == DuplicateRows(keys, groups)
    ensures dupCount == |inserted|
  {
    groupCount, dupCount, inserted := 0, 0, [];
    var n := 0;
    while n < |keys|
      invariant 0 <= n <= |keys|
      invariant groupCount == GroupCount(keys[..n], groups)
      invariant inserted == DuplicateRows(keys[..n], groups)
      invariant dupCount == |inserted|
    {
      assert keys[..n + 1][..n] == keys[..n];
      var arr := groups[keys[n]];
      if |arr| > 1 {
        groupCount := groupCount + 1;
        var dups := RecordGroup(arr);
        inserted := inserted + dups;
        dupCount := dupCount + |dups|;
      }
      n := n + 1;
    }
    assert keys[..|keys|] == keys;
  }

  /** The script after its SELECT: the duplicate rows it inserts, in order,
      with `groupCount` and `dupCount` as it logs them. */
  method Dedupe(rows: seq<RawRow>, expand: string -> string)
      returns (groupCount: nat, dupCount: nat, inserted: seq<Duplicate>)
    ensures forall k :: k in KeysOf(rows, KeyOf(expand)) ==> k in GroupsOf(rows, KeyOf(expand))
    ensures inserted == DuplicateRows(KeysOf(rows, KeyOf(expand)), GroupsOf(rows, KeyOf(expand)))
    ensures groupCount == GroupCount(KeysOf(rows, KeyOf(expand)), GroupsOf(rows, KeyOf(expand)))
    ensures dupCount == |inserted| == |rows| - |KeysOf(rows, KeyOf(expand))|
  {
    var groups, keys := GroupRows(rows, KeyOf(expand));
    DuplicatesPerRun(rows, KeyOf(expand));
    groupCount, dupCount, inserted := RecordGroups(keys, groups);
  }
}
