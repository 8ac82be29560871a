/** `SignalComputer` (packages/ingest/src/signals.ts) over in-memory tables:
    `computeBaselines` fills `town_type_band_baselines`, `computeSignals`
    upserts the signals of every active listing into `listing_signals`. */
module Signals {
  import opened Js
  import opened Seqs
  import opened Sorting
  import opened Store
  import opened Baselines
  import opened SignalRules

  /** The primary key of `town_type_band_baselines`. */
  datatype BaselineKey = BaselineKey(town: string, propertyType: Option<string>, priceBand: string, lookbackDays: int)

  /** The unique key of `listing_signals`. */
  datatype SignalKey = SignalKey(mlsId: string, signalType: SignalType)

  /** The columns of a `listing_signals` row outside its key. */
  datatype SignalRow = SignalRow(score: int, isPrimary: bool, metadata: Metadata)

  /** A town and property type that occur together in `listings_raw`. */
  datatype Combo = Combo(town: string, propertyType: Option<string>)

  function ComboOf(l: ListingRow): Combo {
    Combo(l.town.GetOr(""), l.propertyType)
  }

  /** `SELECT DISTINCT town, property_type FROM listings_raw WHERE town != ''
      AND town IS NOT NULL`, in order of first occurrence. */
  function Combos(rows: seq<ListingRow>): (r: seq<Combo>)
    ensures forall i, j :: 0 <= i < j < |r| ==> r[i] != r[j]
    ensures forall c :: c in r <==> exists l :: l in rows && HasTown(l) && ComboOf(l) == c
  {
    if rows == [] then []
    else
      var front := rows[..|rows| - 1];
      var last := rows[|rows| - 1];
      var r := Combos(front);
      assert forall l :: l in rows <==> l in front || l == last by {
        assert rows == front + [last];
      }
      if !HasTown(last) || ComboOf(last) in r then r else r + [ComboOf(last)]
  }

  function KeyOf(c: Combo, band: string, lookbackDays: int): BaselineKey {
    BaselineKey(c.town, c.propertyType, band, lookbackDays)
  }

  /** The baseline of the cell a key names, computed from the tables. */
  function CellOf(rows: seq<ListingRow>, snaps: seq<Snapshot>, cutoff: int, k: BaselineKey): Option<Baseline> {
    CellBaseline(rows, snaps, k.town, k.propertyType, k.priceBand, cutoff)
  }

  /** The baseline of every cell, computed from the tables. */
  function Cells(rows: seq<ListingRow>, snaps: seq<Snapshot>, cutoff: int): BaselineKey -> Option<Baseline> {
    k => CellOf(rows, snaps, cutoff, k)
  }

  /** The cells of one combination, in the order of `PriceBands`. */
  function BandKeys(c: Combo, lookbackDays: int): (r: seq<BaselineKey>)
    ensures |r| == |PriceBands|
    ensures forall j :: 0 <= j < |r| ==> r[j] == KeyOf(c, PriceBands[j], lookbackDays)
  {
    [KeyOf(c, PriceBands[0], lookbackDays), KeyOf(c, PriceBands[1], lookbackDays),
     KeyOf(c, PriceBands[2], lookbackDays), KeyOf(c, PriceBands[3], lookbackDays)]
  }

  /** The cells computeBaselines visits, in the order of its two loops. */
  function CellKeys(combos: seq<Combo>, lookbackDays: int): (r: seq<BaselineKey>)
    ensures |r| == |PriceBands| * |combos|
  {
    if combos == [] then []
    else CellKeys(combos[..|combos| - 1], lookbackDays) + BandKeys(combos[|combos| - 1], lookbackDays)
  }

  /** Whether a cell has a baseline. */
  function HasBaseline(cells: BaselineKey -> Option<Baseline>): BaselineKey -> bool {
    k => cells(k).Some?
  }

  /** The table after upserting, key by key, the cells of `keys` that have a
      baseline into `table`. */
  function UpsertCellsOf(table: map<BaselineKey, Baseline>, cells: BaselineKey -> Option<Baseline>,
                         keys: seq<BaselineKey>): map<BaselineKey, Baseline> {
    if keys == [] then table
    else
      var m := UpsertCellsOf(table, cells, keys[..|keys| - 1]);
      var k := keys[|keys| - 1];
      if cells(k).Some? then m[k := cells(k).value] else m
  }

  lemma UpsertCellsSnoc(table: map<BaselineKey, Baseline>, cells: BaselineKey -> Option<Baseline>,
                        keys: seq<BaselineKey>, k: BaselineKey)
    ensures UpsertCellsOf(table, cells, keys + [k])
            == if cells(k).Some? then UpsertCellsOf(table, cells, keys)[k := cells(k).value]
               else UpsertCellsOf(table, cells, keys)
    ensures CountWhere(keys + [k], HasBaseline(cells)) == CountWhere(keys, HasBaseline(cells)) + (if cells(k).Some? then 1 else 0)
  {
    assert (keys + [k])[..|keys|] == keys;
    CountAppend(keys, [k], HasBaseline(cells));
  }

  /** Upserting cells writes exactly the visited cells that have a baseline,
      each with its own baseline, and leaves every other row as it was. */
  lemma {:induction false} UpsertCellsMeaning(table: map<BaselineKey, Baseline>, cells: BaselineKey -> Option<Baseline>,
                                              keys: seq<BaselineKey>)
    ensures forall k :: k in UpsertCellsOf(table, cells, keys) <==> k in table || (k in keys && cells(k).Some?)
    ensures forall k :: k in keys && cells(k).Some? ==> UpsertCellsOf(table, cells, keys)[k] == cells(k).value
    ensures forall k :: k in table && !(k in keys && cells(k).Some?) ==> UpsertCellsOf(table, cells, keys)[k] == table[k]
  {
    if keys != [] {
      var front := keys[..|keys| - 1];
      UpsertCellsMeaning(table, cells, front);
      assert keys == front + [keys[|keys| - 1]];
      assert forall k :: k in keys <==> k in front || k == keys[|keys| - 1];
    }
  }

  lemma CellKeysStep(combos: seq<Combo>, lookbackDays: int, i: nat)
    requires i < |combos|
    ensures CellKeys(combos[..i + 1], lookbackDays) == CellKeys(combos[..i], lookbackDays) + BandKeys(combos[i], lookbackDays)
  {
    assert combos[..i + 1][..i] == combos[..i];
  }

  /** The visited cells are every band of every combination, under the
      given lookback. */
  lemma {:induction false} CellKeysMeaning(combos: seq<Combo>, lookbackDays: int)
    ensures forall k :: k in CellKeys(combos, lookbackDays) <==>
              k.lookbackDays == lookbackDays && k.priceBand in PriceBands && Combo(k.town, k.propertyType) in combos
  {
    if combos != [] {
      var front, last := combos[..|combos| - 1], combos[|combos| - 1];
      CellKeysMeaning(front, lookbackDays);
      assert combos == front + [last];
      forall k ensures k in BandKeys(last, lookbackDays) <==>
                       k.lookbackDays == lookbackDays && k.priceBand in PriceBands && Combo(k.town, k.propertyType) == last {
        if k.lookbackDays == lookbackDays && k.priceBand in PriceBands && Combo(k.town, k.propertyType) == last {
          var j :| 0 <= j < |PriceBands| && PriceBands[j] == k.priceBand;
          assert BandKeys(last, lookbackDays)[j] == k;
        }
      }
    }
  }

  /** The outer loop of computeBaselines: each combination in turn. */
  method UpsertCells(base: map<BaselineKey, Baseline>, cells: BaselineKey -> Option<Baseline>,
                     combos: seq<Combo>, lookbackDays: int) returns (table: map<BaselineKey, Baseline>, count: nat)
    ensures table == UpsertCellsOf(base, cells, CellKeys(combos, lookbackDays))
    ensures count == CountWhere(CellKeys(combos, lookbackDays), HasBaseline(cells))
  {
    table := base;
    count := 0;
    var i := 0;
    while i < |combos|
      invariant 0 <= i <= |combos|
      invariant table == UpsertCellsOf(base, cells, CellKeys(combos[..i], lookbackDays))
      invariant count == CountWhere(CellKeys(combos[..i], lookbackDays), HasBaseline(cells))
    {
      table, count := UpsertBands(base, cells, CellKeys(combos[..i], lookbackDays), combos[i], lookbackDays, table, count);
      CellKeysStep(combos, lookbackDays, i);
      i := i + 1;
    }
    assert combos[..|combos|] == combos;
  }

  /** The inner loop of computeBaselines: the four bands of one combination. */
  method UpsertBands(base: map<BaselineKey, Baseline>, cells: BaselineKey -> Option<Baseline>,
                     ghost visited: seq<BaselineKey>, c: Combo, lookbackDays: int,
                     table0: map<BaselineKey, Baseline>, count0: nat) returns (table: map<BaselineKey, Baseline>, count: nat)
    requires table0 == UpsertCellsOf(base, cells, visited)
    requires count0 == CountWhere(visited, HasBaseline(cells))
    ensures table == UpsertCellsOf(base, cells, visited + BandKeys(c, lookbackDays))
    ensures count == CountWhere(visited + BandKeys(c, lookbackDays), HasBaseline(cells))
  {
    table, count := table0, count0;
    ghost var bands := BandKeys(c, lookbackDays);
    ghost var seen := visited;
    for j := 0 to |PriceBands|
      invariant seen == visited + bands[..j]
      invariant table == UpsertCellsOf(base, cells, seen)
      invariant count == CountWhere(seen, HasBaseline(cells))
    {
      var key := KeyOf(c, PriceBands[j], lookbackDays);
      table, count := UpsertCell(base, cells, seen, key, table, count);
      seen := seen + [key];
      assert bands[..j + 1] == bands[..j] + [key];
    }
    assert bands[..|PriceBands|] == bands;
  }

  /** One band of the inner loop: the cell's baseline upserted and
      counted when it has one. */
  method UpsertCell(base: map<BaselineKey, Baseline>, cells: BaselineKey -> Option<Baseline>,
                    ghost visited: seq<BaselineKey>, key: BaselineKey,
                    table0: map<BaselineKey, Baseline>, count0: nat) returns (table: map<BaselineKey, Baseline>, count: nat)
    requires table0 == UpsertCellsOf(base, cells, visited)
    requires count0 == CountWhere(visited, HasBaseline(cells))
    ensures table == UpsertCellsOf(base, cells, visited + [key])
    ensures count == CountWhere(visited + [key], HasBaseline(cells))
  {
    UpsertCellsSnoc(base, cells, visited, key);
    table, count := table0, count0;
    var cell := cells(key);
    if cell.Some? {
      table := table[key := cell.value];
      count := count + 1;
    }
  }

  /** What computeBaselines writes, in the terms of the source: a key gets a
      row exactly when it names a band of a (town, type) pair occurring in
      `listings_raw` with a non-empty town, under the given lookback, and its
      cell has at least five listings updated since the cutoff; that row is
      the cell's baseline. Every other row is left as it was. */
  lemma BaselinesWritten(rows: seq<ListingRow>, snaps: seq<Snapshot>, cutoff: int, lookbackDays: int,
                         table: map<BaselineKey, Baseline>, k: BaselineKey)
    ensures var after := UpsertCellsOf(table, Cells(rows, snaps, cutoff), CellKeys(Combos(rows), lookbackDays));
            var written := && k.lookbackDays == lookbackDays && k.priceBand in PriceBands
                           && (exists l :: l in rows && HasTown(l) && l.town == Some(k.town) && l.propertyType == k.propertyType)
                           && |CellListings(rows, k.town, k.propertyType, k.priceBand, cutoff)| >= MinSample;
            && (k in after <==> k in table || written)
            && (written ==> after[k] == CellBaseline(rows, snaps, k.town, k.propertyType, k.priceBand, cutoff).value)
            && (k in table && !written ==> after[k] == table[k])
  {
    var cells := Cells(rows, snaps, cutoff);
    var keys := CellKeys(Combos(rows), lookbackDays);
    UpsertCellsMeaning(table, cells, keys);
    CellKeysMeaning(Combos(rows), lookbackDays);
    assert cells(k) == CellBaseline(rows, snaps, k.town, k.propertyType, k.priceBand, cutoff);
    assert Combo(k.town, k.propertyType) in Combos(rows) <==>
           exists l :: l in rows && HasTown(l) && l.town == Some(k.town) && l.propertyType == k.propertyType;
  }

  /** With distinct keys, counting the cells that have a baseline counts the
      rows written. */
  lemma {:induction false} CountDistinct(keys: seq<BaselineKey>, cells: BaselineKey -> Option<Baseline>)
    requires NoDuplicates(keys)
    ensures CountWhere(keys, HasBaseline(cells)) == |set k | k in keys && cells(k).Some?|
  {
    if keys != [] {
      var rest := keys[1..];
      CountDistinct(rest, cells);
      var here := set k | k in keys && cells(k).Some?;
      var there := set k | k in rest && cells(k).Some?;
      assert keys[0] !in rest;
      if cells(keys[0]).Some? {
        assert here == there + {keys[0]};
      } else {
        assert here == there;
      }
    }
  }

  lemma {:induction false} CellKeysDistinct(combos: seq<Combo>, lookbackDays: int)
    requires NoDuplicates(combos)
    ensures NoDuplicates(CellKeys(combos, lookbackDays))
  {
    if combos != [] {
      var front, last := combos[..|combos| - 1], combos[|combos| - 1];
      assert NoDuplicates(front) by {
        forall i, j | 0 <= i < j < |front| ensures front[i] != front[j] {
          assert front[i] == combos[i] && front[j] == combos[j];
        }
      }
      CellKeysDistinct(front, lookbackDays);
      BandKeysDistinct(last, lookbackDays);
      var a, b := CellKeys(front, lookbackDays), BandKeys(last, lookbackDays);
      assert last !in front by {
        forall i | 0 <= i < |front| ensures front[i] != last {
          assert front[i] == combos[i];
        }
      }
      CellKeysMeaning(front, lookbackDays);
      forall x | x in a ensures x !in b {
        assert Combo(x.town, x.propertyType) in front;
      }
      AppendNoDuplicates(a, b);
    }
  }

  lemma BandKeysDistinct(c: Combo, lookbackDays: int)
    ensures NoDuplicates(BandKeys(c, lookbackDays))
  {
    var b := BandKeys(c, lookbackDays);
    forall i, j | 0 <= i < j < |b| ensures b[i] != b[j] {
      assert b[i].priceBand == PriceBands[i] && b[j].priceBand == PriceBands[j];
    }
  }

  /** The count computeBaselines returns is the number of distinct cells it
      wrote, at most four per (town, type) pair. */
  lemma CountIsCellsWritten(rows: seq<ListingRow>, snaps: seq<Snapshot>, cutoff: int, lookbackDays: int)
    ensures var cells := Cells(rows, snaps, cutoff);
            var keys := CellKeys(Combos(rows), lookbackDays);
            && CountWhere(keys, HasBaseline(cells)) == |set k | k in keys && cells(k).Some?|
            && CountWhere(keys, HasBaseline(cells)) <= |PriceBands| * |Combos(rows)|
  {
    CellKeysDistinct(Combos(rows), lookbackDays);
    CountDistinct(CellKeys(Combos(rows), lookbackDays), Cells(rows, snaps, cutoff));
  }

  /** `SELECT * FROM town_type_band_baselines WHERE town = .. AND
      property_type = .. AND price_band = ..`: the lookback is not part of
      the condition. */
  predicate LookupMatches(k: BaselineKey, l: ListingRow)
    requires l.listPrice.Some?
  {
    l.town == Some(k.town) && SqlEq(k.propertyType, l.propertyType) && k.priceBand == GetPriceBand(l.listPrice.value)
  }

  /** The rows the lookup of a listing matches. */
  ghost function MatchingRows(baselines: map<BaselineKey, Baseline>, l: ListingRow): set<Baseline>
    requires l.listPrice.Some?
  {
    set k | k in baselines && LookupMatches(k, l) :: baselines[k]
  }

  /** `found` is what the `LIMIT 1` lookup may return: the row of some
      matching key, or none when no key matches. */
  ghost predicate FoundIn(baselines: map<BaselineKey, Baseline>, l: ListingRow, found: Option<Baseline>)
    requires l.listPrice.Some?
  {
    if found.Some? then found.value in MatchingRows(baselines, l) else MatchingRows(baselines, l) == {}
  }

  function SignalKeyOf(s: Signal): SignalKey {
    SignalKey(s.mlsId, s.signalType)
  }

  function SignalRowOf(s: Signal): SignalRow {
    SignalRow(s.score, s.isPrimary, s.metadata)
  }

  /** `INSERT .. ON CONFLICT (mls_id, signal_type) DO UPDATE` for each signal
      of `batch` in turn: no row is deleted, and every signal of the batch
      has a row under its key. */
  function Upsert(table: map<SignalKey, SignalRow>, batch: seq<Signal>): (r: map<SignalKey, SignalRow>)
    ensures forall k :: k in table ==> k in r
    ensures forall i :: 0 <= i < |batch| ==> SignalKeyOf(batch[i]) in r
  {
    if batch == [] then table
    else
      var last := batch[|batch| - 1];
      Upsert(table, batch[..|batch| - 1])[SignalKeyOf(last) := SignalRowOf(last)]
  }

  lemma {:induction false} UpsertKeys(table: map<SignalKey, SignalRow>, batch: seq<Signal>)
    ensures forall k :: k in Upsert(table, batch) <==> k in table || exists s :: s in batch && SignalKeyOf(s) == k
  {
    if batch != [] {
      var front, last := batch[..|batch| - 1], batch[|batch| - 1];
      UpsertKeys(table, front);
      assert batch == front + [last];
      forall k ensures k in Upsert(table, batch) <==> k in table || exists s :: s in batch && SignalKeyOf(s) == k {
        if k in Upsert(table, batch) && k !in table {
          if k == SignalKeyOf(last) {
            assert last in batch;
          } else {
            var s :| s in front && SignalKeyOf(s) == k;
            assert s in batch;
          }
        }
        if exists s :: s in batch && SignalKeyOf(s) == k {
          var s :| s in batch && SignalKeyOf(s) == k;
          if s != last {
            assert s in front;
          }
        }
      }
    }
  }

  lemma {:induction false} UpsertUntouched(table: map<SignalKey, SignalRow>, batch: seq<Signal>, k: SignalKey)
    requires k in table && forall s :: s in batch ==> SignalKeyOf(s) != k
    ensures k in Upsert(table, batch) && Upsert(table, batch)[k] == table[k]
  {
    if batch != [] {
      var front, last := batch[..|batch| - 1], batch[|batch| - 1];
      assert batch == front + [last];
      assert last in batch;
      forall s | s in front ensures SignalKeyOf(s) != k {
        assert s in batch;
      }
      UpsertUntouched(table, front, k);
    }
  }

  lemma {:induction false} UpsertLastWins(table: map<SignalKey, SignalRow>, batch: seq<Signal>, i: nat)
    requires i < |batch| && forall j :: i < j < |batch| ==> SignalKeyOf(batch[j]) != SignalKeyOf(batch[i])
    ensures SignalKeyOf(batch[i]) in Upsert(table, batch)
    ensures Upsert(table, batch)[SignalKeyOf(batch[i])] == SignalRowOf(batch[i])
  {
    var front, last := batch[..|batch| - 1], batch[|batch| - 1];
    if i < |front| {
      assert front[i] == batch[i];
      forall j | i < j < |front| ensures SignalKeyOf(front[j]) != SignalKeyOf(front[i]) {
        assert front[j] == batch[j];
      }
      UpsertLastWins(table, front, i);
    }
  }

  /** Upserting a batch keeps one row per key: a key has a row after the
      batch exactly when it had one before or a signal of the batch has it;
      a key no signal of the batch has keeps its row, and a key takes the
      row of the last signal of the batch that has it. */
  lemma UpsertMeaning(table: map<SignalKey, SignalRow>, batch: seq<Signal>)
    ensures forall k :: k in Upsert(table, batch) <==> k in table || exists s :: s in batch && SignalKeyOf(s) == k
    ensures forall k :: k in table && (forall s :: s in batch ==> SignalKeyOf(s) != k) ==> Upsert(table, batch)[k] == table[k]
    ensures forall i :: 0 <= i < |batch| && (forall j :: i < j < |batch| ==> SignalKeyOf(batch[j]) != SignalKeyOf(batch[i]))
              ==> Upsert(table, batch)[SignalKeyOf(batch[i])] == SignalRowOf(batch[i])
  {
    UpsertKeys(table, batch);
    forall k | k in table && (forall s :: s in batch ==> SignalKeyOf(s) != k)
      ensures Upsert(table, batch)[k] == table[k]
    {
      UpsertUntouched(table, batch, k);
    }
    forall i | 0 <= i < |batch| && (forall j :: i < j < |batch| ==> SignalKeyOf(batch[j]) != SignalKeyOf(batch[i]))
      ensures Upsert(table, batch)[SignalKeyOf(batch[i])] == SignalRowOf(batch[i])
    {
      UpsertLastWins(table, batch, i);
    }
  }

  /** The batch overrides the table: upserting is a map union. */
  lemma {:induction false} UpsertIsUnion(table: map<SignalKey, SignalRow>, batch: seq<Signal>)
    ensures Upsert(table, batch) == table + Upsert(map[], batch)
  {
    if batch != [] {
      var front, last := batch[..|batch| - 1], batch[|batch| - 1];
      UpsertIsUnion(table, front);
      var u := Upsert(map[], front);
      assert (table + u)[SignalKeyOf(last) := SignalRowOf(last)] == table + u[SignalKeyOf(last) := SignalRowOf(last)];
    }
  }

  /** Rerunning a save with the same batch changes nothing. */
  lemma UpsertIdempotent(table: map<SignalKey, SignalRow>, batch: seq<Signal>)
    ensures Upsert(Upsert(table, batch), batch) == Upsert(table, batch)
  {
    UpsertIsUnion(table, batch);
    UpsertIsUnion(Upsert(table, batch), batch);
    var u := Upsert(map[], batch);
    assert (table + u) + u == table + u;
  }

  /** A type that does not fire on a rerun keeps its old row, primary flag
      included: a listing whose stale signal was primary and whose only
      signal now is a primary hot signal ends up with two primary rows. */
  lemma StalePrimaryKept()
    ensures var old_ := map[SignalKey("A", Stale) := SignalRow(80, true, StaleInfo(Some(200), 30.0))];
            var hot := Signal("A", Hot, 90, true, HotInfo(Some(2), 30.0, "New"));
            var after := Upsert(old_, [hot]);
            && SignalKey("A", Stale) in after && after[SignalKey("A", Stale)].isPrimary
            && SignalKey("A", Hot) in after && after[SignalKey("A", Hot)].isPrimary
  {
    var old_ := map[SignalKey("A", Stale) := SignalRow(80, true, StaleInfo(Some(200), 30.0))];
    var hot := Signal("A", Hot, 90, true, HotInfo(Some(2), 30.0, "New"));
    assert [hot][..0] == [];
    assert Upsert(old_, [hot]) == old_[SignalKey("A", Hot) := SignalRow(90, true, HotInfo(Some(2), 30.0, "New"))];
  }

  /** Saving a listing's signals stores each of them under its own key:
      a listing never has two signals of one type. */
  lemma SavedBatchRows(table: map<SignalKey, SignalRow>, l: ListingRow, found: Option<Baseline>, drop: Option<Drop>)
    requires Active(l)
    ensures var r := ListingSignals(l, found, drop);
            forall i :: 0 <= i < |r| ==> SignalKeyOf(r[i]) in Upsert(table, r) && Upsert(table, r)[SignalKeyOf(r[i])] == SignalRowOf(r[i])
  {
    var r := ListingSignals(l, found, drop);
    UpsertMeaning(table, r);
    forall i | 0 <= i < |r| ensures forall j :: i < j < |r| ==> SignalKeyOf(r[j]) != SignalKeyOf(r[i]) {
      forall j | i < j < |r| ensures SignalKeyOf(r[j]) != SignalKeyOf(r[i]) {
        if SignalKeyOf(r[j]) == SignalKeyOf(r[i]) {
          CountTwo(r, OfType(r[i].signalType), i, j);
        }
      }
    }
    forall i | 0 <= i < |r| ensures SignalKeyOf(r[i]) in Upsert(table, r) {
      assert r[i] in r;
    }
  }

  /** The rows computeSignals reads: active rows, `LIMIT 1000`, taken in
      table order. Rows of the table only, each active, as many as there
      are active rows up to 1000, and every active row when there are no
      more than 1000. */
  function ActiveRows(rows: seq<ListingRow>): (r: seq<ListingRow>)
    ensures forall i :: 0 <= i < |r| ==> Active(r[i])
    ensures multiset(r) <= multiset(rows)
    ensures |r| == if CountWhere(rows, Active) <= 1000 then CountWhere(rows, Active) else 1000
    ensures CountWhere(rows, Active) <= 1000 ==> forall l :: l in rows && Active(l) ==> l in r
  {
    var active := Filter(rows, Active);
    FilterLength(rows, Active);
    FilterSubMultiset(rows, Active);
    var r := Take(active, 1000);
    PrefixSubMultiset(active, |r|);
    r
  }

  /** The table after saving `batches` in turn. */
  function SaveAll(table: map<SignalKey, SignalRow>, batches: seq<seq<Signal>>): map<SignalKey, SignalRow> {
    if batches == [] then table
    else Upsert(SaveAll(table, batches[..|batches| - 1]), batches[|batches| - 1])
  }

  /** The number of signals of `batches`. */
  function TotalSignals(batches: seq<seq<Signal>>): nat {
    if batches == [] then 0
    else TotalSignals(batches[..|batches| - 1]) + |batches[|batches| - 1]|
  }

  /** The batch computeListingSignals returns for the `i`-th active listing,
      given the lookup's result for it. */
  function BatchFor(active: seq<ListingRow>, snaps: seq<Snapshot>, since: int): (nat, Option<Baseline>) -> seq<Signal> {
    (i: nat, found: Option<Baseline>) =>
      if i < |active| && Active(active[i]) then ListingSignals(active[i], found, RecentDropOf(snaps, active[i].mlsId, since))
      else []
  }

  /** The state of computeSignals' loop after the first `|finds|` active
      listings: each one's lookup result and batch, the table with those
      batches saved in turn, and their number of signals. */
  ghost predicate Progress(baselines: map<BaselineKey, Baseline>, table: map<SignalKey, SignalRow>,
                           active: seq<ListingRow>, snaps: seq<Snapshot>, since: int,
                           finds: seq<Option<Baseline>>, batches: seq<seq<Signal>>,
                           signals: map<SignalKey, SignalRow>, count: nat)
    requires forall i :: 0 <= i < |active| ==> Active(active[i])
  {
    && |finds| == |batches| <= |active|
    && (forall i :: 0 <= i < |finds| ==> Active(active[i]) && FoundIn(baselines, active[i], finds[i]))
    && (forall i :: 0 <= i < |batches| ==> batches[i] == BatchFor(active, snaps, since)(i, finds[i]))
    && signals == SaveAll(table, batches)
    && count == TotalSignals(batches)
  }

  lemma FindsStep(baselines: map<BaselineKey, Baseline>, active: seq<ListingRow>,
                  finds: seq<Option<Baseline>>, found: Option<Baseline>)
    requires |finds| < |active| && Active(active[|finds|])
    requires forall i :: 0 <= i < |finds| ==> Active(active[i]) && FoundIn(baselines, active[i], finds[i])
    requires FoundIn(baselines, active[|finds|], found)
    ensures forall i :: 0 <= i < |finds| + 1 ==> Active(active[i]) && FoundIn(baselines, active[i], (finds + [found])[i])
  {
    var finds' := finds + [found];
    forall i | 0 <= i < |finds'| ensures Active(active[i]) && FoundIn(baselines, active[i], finds'[i]) {
      if i < |finds| {
        assert finds'[i] == finds[i];
      }
    }
  }

  lemma SaveAllStep(table: map<SignalKey, SignalRow>, batches: seq<seq<Signal>>, batch: seq<Signal>)
    ensures SaveAll(table, batches + [batch]) == Upsert(SaveAll(table, batches), batch)
    ensures TotalSignals(batches + [batch]) == TotalSignals(batches) + |batch|
  {
    assert (batches + [batch])[..|batches|] == batches;
  }

  lemma ProgressStep(baselines: map<BaselineKey, Baseline>, table: map<SignalKey, SignalRow>,
                     active: seq<ListingRow>, snaps: seq<Snapshot>, since: int,
                     finds: seq<Option<Baseline>>, batches: seq<seq<Signal>>,
                     signals: map<SignalKey, SignalRow>, count: nat,
                     found: Option<Baseline>, batch: seq<Signal>)
    requires forall i :: 0 <= i < |active| ==> Active(active[i])
    requires Progress(baselines, table, active, snaps, since, finds, batches, signals, count) && |finds| < |active|
    requires FoundIn(baselines, active[|finds|], found)
    requires batch == BatchFor(active, snaps, since)(|finds|, found)
    ensures Progress(baselines, table, active, snaps, since, finds + [found], batches + [batch],
                     Upsert(signals, batch), count + |batch|)
  {
    FindsStep(baselines, active, finds, found);
    SnocPointwise(finds, batches, found, batch, BatchFor(active, snaps, since));
    SaveAllStep(table, batches, batch);
  }

  /** Setting the flag of the first element in place is MarkPrimary. */
  lemma MarkFirst(s: seq<Signal>)
    requires s != []
    ensures s[0 := s[0].(isPrimary := true)] == MarkPrimary(s)
  {
  }

  /** The pushes of computeListingSignals, one rule after the other. */
  method PushRules(l: ListingRow, b: Baseline, drop: Option<Drop>) returns (result: seq<Signal>)
    requires Active(l)
    ensures result == RuleSignals(l, b, drop)
  {
    result := [];
    result := result + StalePart(l, b);
    result := result + DropPart(l, drop);
    result := result + LikelyCutPart(l, b);
    result := result + UnderpricedPart(l, b);
    result := result + HotPart(l, b);
  }

  /** The sort by descending score, then the primary flag on the first. */
  method RankSignals(rules: seq<Signal>) returns (result: seq<Signal>)
    ensures result == MarkPrimary(SortBy(rules, ByScoreDesc))
  {
    result := rules;
    if |result| > 0 {
      result := SortBy(result, ByScoreDesc);
      MarkFirst(result);
      result := result[0 := result[0].(isPrimary := true)];
    }
  }

  class SignalComputer {
    /** `listings_raw` */
    var listings: seq<ListingRow>
    /** `listing_snapshots` */
    var snapshots: seq<Snapshot>
    /** `town_type_band_baselines` */
    var baselines: map<BaselineKey, Baseline>
    /** `listing_signals` */
    var signals: map<SignalKey, SignalRow>

    constructor(listings: seq<ListingRow>, snapshots: seq<Snapshot>,
                baselines: map<BaselineKey, Baseline>, signals: map<SignalKey, SignalRow>)
      ensures this.listings == listings && this.snapshots == snapshots
      ensures this.baselines == baselines && this.signals == signals
    {
      this.listings := listings;
      this.snapshots := snapshots;
      this.baselines := baselines;
      this.signals := signals;
    }

    /** computeBaselines: every cell of every town/type combination with at
        least five listings updated since `cutoff` gets its baseline upserted
        under the given lookback; the count is the number of cells written. */
    method ComputeBaselines(lookbackDays: int, cutoff: int) returns (count: nat)
      modifies this`baselines
      ensures baselines == UpsertCellsOf(old(baselines), Cells(listings, snapshots, cutoff), CellKeys(Combos(listings), lookbackDays))
      ensures count == CountWhere(CellKeys(Combos(listings), lookbackDays), HasBaseline(Cells(listings, snapshots, cutoff)))
      ensures count <= |PriceBands| * |Combos(listings)|
    {
      var table;
      table, count := UpsertCells(baselines, Cells(listings, snapshots, cutoff), Combos(listings), lookbackDays);
      baselines := table;
    }

    /** The baseline lookup of computeListingSignals. */
    method LookupBaseline(l: ListingRow) returns (found: Option<Baseline>)
      requires l.listPrice.Some?
      ensures FoundIn(baselines, l, found)
    {
      if k :| k in baselines && LookupMatches(k, l) {
        found := Some(baselines[k]);
      } else {
        found := None;
      }
    }

    /** computeListingSignals: no signals without a baseline; otherwise the
        firing rules' signals, best score first, the first one primary. */
    method ComputeListingSignals(l: ListingRow, since: int) returns (result: seq<Signal>, ghost found: Option<Baseline>)
      requires Active(l)
      ensures FoundIn(baselines, l, found)
      ensures result == ListingSignals(l, found, RecentDropOf(snapshots, l.mlsId, since))
    {
      var baseline := LookupBaseline(l);
      found := baseline;
      if baseline.None? {
        return [], found;
      }
      var drop := RecentDropOf(snapshots, l.mlsId, since);
      var rules := PushRules(l, baseline.value, drop);
      result := RankSignals(rules);
    }

    /** saveSignals: each signal upserted under (mls_id, signal_type). */
    method SaveSignals(batch: seq<Signal>)
      modifies this`signals
      ensures signals == Upsert(old(signals), batch)
    {
      var i := 0;
      while i < |batch|
        invariant 0 <= i <= |batch|
        invariant signals == Upsert(old(signals), batch[..i])
      {
        var s := batch[i];
        assert batch[..i + 1][..i] == batch[..i];
        signals := signals[SignalKeyOf(s) := SignalRowOf(s)];
        i := i + 1;
      }
      assert batch[..|batch|] == batch;
    }

    /** The save at the end of one turn of computeSignals' loop: nothing to
        do for a listing without signals. */
    method SaveBatch(batch: seq<Signal>)
      modifies this`signals
      ensures signals == Upsert(old(signals), batch)
    {
      if |batch| > 0 {
        SaveSignals(batch);
      }
    }

    /** The loop of computeSignals over the active rows. */
    method SaveAllSignals(active: seq<ListingRow>, since: int)
      returns (count: nat, ghost finds: seq<Option<Baseline>>, ghost batches: seq<seq<Signal>>)
      requires forall i :: 0 <= i < |active| ==> Active(active[i])
      modifies this`signals
      ensures |finds| == |active|
      ensures Progress(baselines, old(signals), active, snapshots, since, finds, batches, signals, count)
    {
      finds, batches := [], [];
      count := 0;
      var i := 0;
      while i < |active|
        invariant i == |finds| <= |active|
        invariant Progress(baselines, old(signals), active, snapshots, since, finds, batches, signals, count)
      {
        var batch, found := ComputeListingSignals(active[i], since);
        assert batch == BatchFor(active, snapshots, since)(i, found);
        ProgressStep(baselines, old(signals), active, snapshots, since, finds, batches, signals, count, found, batch);
        finds, batches := finds + [found], batches + [batch];
        SaveBatch(batch);
        count := count + |batch|;
        i := i + 1;
      }
    }

    /** computeSignals: the signals of every active listing computed against
        the lookup's result for it and saved in turn; the count is the total
        number of signals computed. */
    method ComputeSignals(since: int) returns (count: nat, ghost finds: seq<Option<Baseline>>, ghost batches: seq<seq<Signal>>)
      modifies this`signals
      ensures |finds| == |batches| == |ActiveRows(listings)|
      ensures forall i :: 0 <= i < |finds| ==> FoundIn(baselines, ActiveRows(listings)[i], finds[i])
      ensures forall i :: 0 <= i < |batches| ==>
                var l := ActiveRows(listings)[i];
                batches[i] == ListingSignals(l, finds[i], RecentDropOf(snapshots, l.mlsId, since))
      ensures signals == SaveAll(old(signals), batches)
      ensures count == TotalSignals(batches)
    {
      var active := ActiveRows(listings);
      count, finds, batches := SaveAllSignals(active, since);
    }
  }
}
