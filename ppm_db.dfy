/** The CSV databases the monthly report writes: `DB_product.csv` (one row per
    product and month) and `DB.csv` (one row per month). A database is the
    sequence of its rows, or nothing when the file does not exist yet.

    New rows are merged into a database by an upsert: append them, then keep
    the last row of every key. The monthly rows are first gathered in a dict
    keyed by (year, month) from the factory sheets, then the cost-statement
    KPIs are added to them. */
module PpmDb {
  import opened Strings
  import opened Ppm

  // ---------------------------------------------------------------------------
  // _upsert_csv
  // ---------------------------------------------------------------------------

  /** The keys of the rows. */
  function KeysOf<R, K(==)>(rows: seq<R>, key: R -> K): set<K> {
    if rows == [] then {} else {key(rows[0])} + KeysOf(rows[1..], key)
  }

  /** No two rows share a key. */
  predicate UniqueKeys<R, K(==)>(rows: seq<R>, key: R -> K) {
    forall i, j :: 0 <= i < j < |rows| ==> key(rows[i]) != key(rows[j])
  }

  /** `drop_duplicates(subset=key_cols, keep="last")`: a row is kept, where it
      stands, when no later row has its key. */
  function DedupLast<R, K(==)>(rows: seq<R>, key: R -> K): seq<R> {
    if rows == [] then []
    else if key(rows[0]) in KeysOf(rows[1..], key) then DedupLast(rows[1..], key)
    else [rows[0]] + DedupLast(rows[1..], key)
  }

  /** The rows whose key is not in `ks`, in order. */
  function Without<R, K(==)>(rows: seq<R>, key: R -> K, ks: set<K>): seq<R> {
    if rows == [] then []
    else if key(rows[0]) in ks then Without(rows[1..], key, ks)
    else [rows[0]] + Without(rows[1..], key, ks)
  }

  /** `_upsert_csv`: nothing changes when there is nothing incoming; a missing file
      is written with the incoming rows as they are; otherwise the incoming rows are
      appended to the prior ones and the last row of every key is kept. */
  function Upsert<R, K(==)>(db: Option<seq<R>>, incoming: seq<R>, key: R -> K): Option<seq<R>> {
    if incoming == [] then db
    else match db
      case None => Some(incoming)
      case Some(prior) => Some(DedupLast(prior + incoming, key))
  }

  function DbKeys<R, K(==)>(db: Option<seq<R>>, key: R -> K): set<K> {
    match db
    case None => {}
    case Some(rows) => KeysOf(rows, key)
  }

  lemma {:induction false} KeysOfMember<R, K>(rows: seq<R>, key: R -> K, k: K)
    ensures k in KeysOf(rows, key) <==> exists i :: 0 <= i < |rows| && key(rows[i]) == k
  {
    if rows != [] {
      KeysOfMember(rows[1..], key, k);
      if k in KeysOf(rows[1..], key) {
        var i :| 0 <= i < |rows[1..]| && key(rows[1..][i]) == k;
        assert key(rows[i + 1]) == k;
      }
      if exists i :: 0 <= i < |rows| && key(rows[i]) == k {
        var i :| 0 <= i < |rows| && key(rows[i]) == k;
        if i > 0 {
          assert key(rows[1..][i - 1]) == k;
        }
      }
    }
  }

  lemma {:induction false} KeysOfAppend<R, K>(a: seq<R>, b: seq<R>, key: R -> K)
    ensures KeysOf(a + b, key) == KeysOf(a, key) + KeysOf(b, key)
  {
    if a != [] {
      assert (a + b)[1..] == a[1..] + b;
      KeysOfAppend(a[1..], b, key);
    } else {
      assert a + b == b;
    }
  }

  /** Deduplication keeps every key. */
  lemma {:induction false} DedupLastKeys<R, K>(rows: seq<R>, key: R -> K)
    ensures KeysOf(DedupLast(rows, key), key) == KeysOf(rows, key)
  {
    if rows != [] {
      DedupLastKeys(rows[1..], key);
      if key(rows[0]) !in KeysOf(rows[1..], key) {
        assert ([rows[0]] + DedupLast(rows[1..], key))[1..] == DedupLast(rows[1..], key);
      }
    }
  }

  /** After deduplication no two rows share a key. */
  lemma {:induction false} DedupLastUnique<R, K>(rows: seq<R>, key: R -> K)
    ensures UniqueKeys(DedupLast(rows, key), key)
  {
    if rows != [] {
      var rest := DedupLast(rows[1..], key);
      DedupLastUnique(rows[1..], key);
      if key(rows[0]) !in KeysOf(rows[1..], key) {
        DedupLastKeys(rows[1..], key);
        var d := [rows[0]] + rest;
        forall i, j | 0 <= i < j < |d|
          ensures key(d[i]) != key(d[j])
        {
          if i == 0 {
            KeysOfMember(rest, key, key(d[j]));
            assert key(rest[j - 1]) == key(d[j]);
          } else {
            assert d[i] == rest[i - 1] && d[j] == rest[j - 1];
          }
        }
      }
    }
  }

  /** Rows whose keys are already unique are left as they are. */
  lemma {:induction false} DedupLastOfUnique<R, K>(rows: seq<R>, key: R -> K)
    requires UniqueKeys(rows, key)
    ensures DedupLast(rows, key) == rows
  {
    if rows != [] {
      assert UniqueKeys(rows[1..], key) by {
        forall i, j | 0 <= i < j < |rows[1..]|
          ensures key(rows[1..][i]) != key(rows[1..][j])
        {
          assert rows[1..][i] == rows[i + 1] && rows[1..][j] == rows[j + 1];
        }
      }
      DedupLastOfUnique(rows[1..], key);
      KeysOfMember(rows[1..], key, key(rows[0]));
    }
  }

  /** A row is kept exactly when it is the last row of its key. */
  lemma {:induction false} DedupLastMember<R, K>(rows: seq<R>, key: R -> K, x: R)
    ensures x in DedupLast(rows, key) <==>
              exists i :: 0 <= i < |rows| && rows[i] == x && key(x) !in KeysOf(rows[i + 1..], key)
  {
    if rows != [] {
      DedupLastMember(rows[1..], key, x);
      var P := (rs: seq<R>, i: int) => 0 <= i < |rs| && rs[i] == x && key(x) !in KeysOf(rs[i + 1..], key);
      assert rows[1..][0..] == rows[1..];
      if exists i :: P(rows[1..], i) {
        var i :| P(rows[1..], i);
        assert rows[1..][i + 1..] == rows[i + 2..];
        assert P(rows, i + 1);
      }
      if exists i :: P(rows, i) {
        var i :| P(rows, i);
        if i > 0 {
          assert rows[1..][i..] == rows[i + 1..];
          assert P(rows[1..], i - 1);
        }
      }
    }
  }

  lemma {:induction false} KeysOfWithout<R, K>(rows: seq<R>, key: R -> K, ks: set<K>)
    ensures KeysOf(Without(rows, key, ks), key) == KeysOf(rows, key) - ks
  {
    if rows != [] {
      KeysOfWithout(rows[1..], key, ks);
      if key(rows[0]) !in ks {
        assert ([rows[0]] + Without(rows[1..], key, ks))[1..] == Without(rows[1..], key, ks);
      }
    }
  }

  lemma {:induction false} WithoutAppend<R, K>(a: seq<R>, b: seq<R>, key: R -> K, ks: set<K>)
    ensures Without(a + b, key, ks) == Without(a, key, ks) + Without(b, key, ks)
  {
    if a == [] {
      assert a + b == b;
    } else {
      assert (a + b)[1..] == a[1..] + b;
      WithoutAppend(a[1..], b, key, ks);
    }
  }

  lemma {:induction false} WithoutNone<R, K>(rows: seq<R>, key: R -> K, ks: set<K>)
    requires KeysOf(rows, key) !! ks
    ensures Without(rows, key, ks) == rows
  {
    if rows != [] {
      WithoutNone(rows[1..], key, ks);
    }
  }

  lemma {:induction false} WithoutAll<R, K>(rows: seq<R>, key: R -> K, ks: set<K>)
    requires KeysOf(rows, key) <= ks
    ensures Without(rows, key, ks) == []
  {
    if rows != [] {
      WithoutAll(rows[1..], key, ks);
    }
  }

  /** Deduplicating `a` followed by `b` keeps the rows of `a` whose key `b`
      does not carry, then the deduplicated `b`: the later rows win every key
      they carry. */
  lemma {:induction false} DedupLastAppend<R, K>(a: seq<R>, b: seq<R>, key: R -> K)
    ensures DedupLast(a + b, key) == DedupLast(Without(a, key, KeysOf(b, key)), key) + DedupLast(b, key)
  {
    var kb := KeysOf(b, key);
    if a == [] {
      assert a + b == b;
    } else {
      var x, rest := a[0], a[1..];
      assert (a + b)[0] == x && (a + b)[1..] == rest + b;
      DedupLastAppend(rest, b, key);
      KeysOfAppend(rest, b, key);
      KeysOfWithout(rest, key, kb);
      if key(x) !in kb {
        var w := [x] + Without(rest, key, kb);
        assert w[0] == x && w[1..] == Without(rest, key, kb);
      }
    }
  }

  /** The database afterwards holds the keys it held and the incoming ones. */
  lemma UpsertKeys<R, K>(db: Option<seq<R>>, incoming: seq<R>, key: R -> K)
    ensures DbKeys(Upsert(db, incoming, key), key) == DbKeys(db, key) + KeysOf(incoming, key)
  {
    if incoming != [] && db.Some? {
      DedupLastKeys(db.value + incoming, key);
      KeysOfAppend(db.value, incoming, key);
    }
  }

  /** Merging into an existing file leaves one row per key, and for a key
      among the incoming rows that row is the last incoming row with that key. */
  lemma UpsertNewRowsWin<R, K>(prior: seq<R>, incoming: seq<R>, key: R -> K, x: R)
    requires incoming != []
    ensures UniqueKeys(Upsert(Some(prior), incoming, key).value, key)
    ensures key(x) in KeysOf(incoming, key) ==>
              (x in Upsert(Some(prior), incoming, key).value <==> x in DedupLast(incoming, key))
  {
    DedupLastUnique(prior + incoming, key);
    DedupLastAppend(prior, incoming, key);
    var kept := DedupLast(Without(prior, key, KeysOf(incoming, key)), key);
    if key(x) in KeysOf(incoming, key) && x in kept {
      DedupLastKeys(Without(prior, key, KeysOf(incoming, key)), key);
      KeysOfWithout(prior, key, KeysOf(incoming, key));
      var i :| 0 <= i < |kept| && kept[i] == x;
      KeysOfMember(kept, key, key(x));
    }
  }

  /** Upserting the same rows a second time changes nothing, once the file
      exists or when the incoming rows have unique keys. */
  lemma UpsertTwice<R, K>(db: Option<seq<R>>, incoming: seq<R>, key: R -> K)
    requires db.Some? || UniqueKeys(incoming, key)
    ensures Upsert(Upsert(db, incoming, key), incoming, key) == Upsert(db, incoming, key)
  {
    if incoming != [] {
      var kn := KeysOf(incoming, key);
      var q := DedupLast(incoming, key);
      DedupLastKeys(incoming, key);
      WithoutAll(q, key, kn);
      if db.Some? {
        var prior := db.value;
        var p := DedupLast(Without(prior, key, kn), key);
        var once := p + q;
        DedupLastAppend(prior, incoming, key);
        DedupLastAppend(once, incoming, key);
        WithoutAppend(p, q, key, kn);
        DedupLastKeys(Without(prior, key, kn), key);
        KeysOfWithout(prior, key, kn);
        WithoutNone(p, key, kn);
        DedupLastUnique(Without(prior, key, kn), key);
        DedupLastOfUnique(p, key);
        assert Without(once, key, kn) == p + [] == p;
        assert DedupLast(once + incoming, key) == p + q;
      } else {
        DedupLastAppend(incoming, incoming, key);
        WithoutAll(incoming, key, kn);
        DedupLastOfUnique(incoming, key);
        assert DedupLast(incoming + incoming, key) == [] + incoming == incoming;
      }
    }
  }

  /** `_upsert_csv` once per input, in order: the database after the first `n`. */
  function UpsertEach<T, R, K(==)>(db: Option<seq<R>>, inputs: seq<T>, rowsOf: T -> seq<R>, key: R -> K, n: nat)
    : Option<seq<R>>
    requires n <= |inputs|
  {
    if n == 0 then db else Upsert(UpsertEach(db, inputs, rowsOf, key, n - 1), rowsOf(inputs[n - 1]), key)
  }

  /** A key is in the database after the upserts exactly when it was there
      before or some input brought it. */
  lemma {:induction false} UpsertEachKeys<T, R, K>(db: Option<seq<R>>, inputs: seq<T>, rowsOf: T -> seq<R>,
                                                  key: R -> K, n: nat, k: K)
    requires n <= |inputs|
    ensures k in DbKeys(UpsertEach(db, inputs, rowsOf, key, n), key) <==>
              k in DbKeys(db, key) || exists i :: 0 <= i < n && k in KeysOf(rowsOf(inputs[i]), key)
  {
    if n > 0 {
      UpsertEachKeys(db, inputs, rowsOf, key, n - 1, k);
      UpsertKeys(UpsertEach(db, inputs, rowsOf, key, n - 1), rowsOf(inputs[n - 1]), key);
    }
  }

  // ---------------------------------------------------------------------------
  // main: DB_product.csv
  // ---------------------------------------------------------------------------

  /** The key of `DB_product.csv`: (년, 월, 제품코드). */
  function ProductKey(row: ProductRow): (int, int, string) {
    (row.period.year, row.period.month, row.code)
  }

  /** The rows `extract_products` gives for one download. */
  function ProductRowsOf(sheet: Sheet): seq<ProductRow> {
    ProductRowsFrom(sheet, 1)
  }

  /** The first loop of `main`: extract every download, in order, and upsert
      its rows into the product database. */
  method UpdateProductDb(db: Option<seq<ProductRow>>, downloads: seq<Sheet>) returns (out: Option<seq<ProductRow>>)
    ensures out == UpsertEach(db, downloads, ProductRowsOf, ProductKey, |downloads|)
  {
    out := db;
    for i := 0 to |downloads|
      invariant out == UpsertEach(db, downloads, ProductRowsOf, ProductKey, i)
    {
      var rows := ExtractProducts(downloads[i]);
      out := Upsert(out, rows, ProductKey);
    }
  }

  // ---------------------------------------------------------------------------
  // main: the monthly dict and DB.csv
  // ---------------------------------------------------------------------------

  /** A (년, 월) key. */
  type Month = (int, int)

  function Get(rec: Record, name: string): int {
    if name in rec then rec[name] else 0
  }

  /** The month of a monthly row; every factory record holds both columns, so
      the default is never used for them. */
  function RowMonth(rec: Record): Month {
    (Get(rec, YearKey), Get(rec, MonthKey))
  }

  /** What `extract` gives for each input, in order. */
  function Extracted<S>(inputs: seq<S>, extract: S -> Record): (recs: seq<Record>)
    ensures |recs| == |inputs|
  {
    seq(|inputs|, i requires 0 <= i < |inputs| => extract(inputs[i]))
  }

  /** The keys of the dict after its first `n` assignments, in insertion
      order: a key keeps the place where it first appeared. */
  function MonthOrder(recs: seq<Record>, n: nat): (order: seq<Month>)
    requires n <= |recs|
    ensures forall k :: k in order ==> k in LatestByMonth(recs, n)
  {
    if n == 0 then []
    else
      var order := MonthOrder(recs, n - 1);
      if RowMonth(recs[n - 1]) in order then order else order + [RowMonth(recs[n - 1])]
  }

  /** `monthly_map[key] = row` for the first `n` records. */
  function LatestByMonth(recs: seq<Record>, n: nat): map<Month, Record>
    requires n <= |recs|
  {
    if n == 0 then map[] else LatestByMonth(recs, n - 1)[RowMonth(recs[n - 1]) := recs[n - 1]]
  }

  /** The key order lists every key of the dict once and nothing else. */
  lemma {:induction false} MonthOrderSpec(recs: seq<Record>, n: nat)
    requires n <= |recs|
    ensures forall i, j :: 0 <= i < j < |MonthOrder(recs, n)| ==> MonthOrder(recs, n)[i] != MonthOrder(recs, n)[j]
    ensures forall k :: k in MonthOrder(recs, n) <==> k in LatestByMonth(recs, n)
  {
    if n > 0 {
      MonthOrderSpec(recs, n - 1);
    }
  }

  /** The row kept for a month is the last record of that month. */
  lemma {:induction false} LatestByMonthIsLast(recs: seq<Record>, n: nat, k: Month)
    requires n <= |recs|
    ensures k in LatestByMonth(recs, n) <==> exists i :: 0 <= i < n && RowMonth(recs[i]) == k
    ensures k in LatestByMonth(recs, n) ==>
              exists i :: 0 <= i < n && LatestByMonth(recs, n)[k] == recs[i] && RowMonth(recs[i]) == k
                          && forall j :: i < j < n ==> RowMonth(recs[j]) != k
  {
    if n > 0 {
      LatestByMonthIsLast(recs, n - 1, k);
      if RowMonth(recs[n - 1]) != k && k in LatestByMonth(recs, n) {
        var i :| 0 <= i < n - 1 && LatestByMonth(recs, n - 1)[k] == recs[i] && RowMonth(recs[i]) == k
                 && forall j :: i < j < n - 1 ==> RowMonth(recs[j]) != k;
        assert forall j :: i < j < n ==> RowMonth(recs[j]) != k;
      }
    }
  }

  /** The second loop of `main`: the record `extract` gives for each factory
      sheet, gathered by month, and the key order of the dict. */
  method GatherFactories(factories: seq<Sheet>, extract: Sheet -> Record)
    returns (order: seq<Month>, months: map<Month, Record>)
    ensures order == MonthOrder(Extracted(factories, extract), |factories|)
    ensures months == LatestByMonth(Extracted(factories, extract), |factories|)
  {
    ghost var recs := Extracted(factories, extract);
    order, months := [], map[];
    for i := 0 to |factories|
      invariant order == MonthOrder(recs, i) && months == LatestByMonth(recs, i)
    {
      var row := extract(factories[i]);
      assert row == recs[i];
      var key := RowMonth(row);
      MonthOrderSpec(recs, i);
      if key !in months {
        order := order + [key];
      }
      months := months[key := row];
    }
  }

  /** `record.update(kpi)`: the KPI values are added, replacing any of the
      same name. */
  function Update(rec: Record, kpi: Record): Record {
    rec + kpi
  }

  /** The third loop of `main` as written: the KPIs of each statement are
      added to every month of the dict. */
  function WithAllKpis(months: map<Month, Record>, kpis: seq<Record>, n: nat): (m: map<Month, Record>)
    requires n <= |kpis|
    ensures m.Keys == months.Keys
  {
    if n == 0 then months
    else
      var m := WithAllKpis(months, kpis, n - 1);
      map k | k in m :: Update(m[k], kpis[n - 1])
  }

  /** The rows of the data frame built from `monthly_map.values()`. */
  function RowsInOrder(order: seq<Month>, months: map<Month, Record>): seq<Record>
    requires forall k :: k in order ==> k in months
  {
    seq(|order|, i requires 0 <= i < |order| => months[order[i]])
  }

  /** `for key in monthly_map: monthly_map[key].update(kpi)`. */
  method UpdateEveryMonth(order: seq<Month>, months0: map<Month, Record>, kpi: Record)
    returns (months: map<Month, Record>)
    requires forall i, j :: 0 <= i < j < |order| ==> order[i] != order[j]
    requires forall k :: k in order <==> k in months0
    ensures months == map k | k in months0 :: Update(months0[k], kpi)
  {
    months := months0;
    for j := 0 to |order|
      invariant months.Keys == months0.Keys
      invariant forall k :: k in months ==> months[k] == if k in order[..j] then Update(months0[k], kpi) else months0[k]
    {
      assert order[..j + 1] == order[..j] + [order[j]];
      assert order[j] !in order[..j];
      months := months[order[j] := Update(months[order[j]], kpi)];
    }
    assert order[..|order|] == order;
  }

  /** The third loop of `main` as written: for every statement, update every
      record of the dict with its KPIs. */
  method AddKpisToEveryMonth(order: seq<Month>, months0: map<Month, Record>, statements: seq<Sheet>,
                             extract: Sheet -> Record)
    returns (months: map<Month, Record>)
    requires forall i, j :: 0 <= i < j < |order| ==> order[i] != order[j]
    requires forall k :: k in order <==> k in months0
    ensures months == WithAllKpis(months0, Extracted(statements, extract), |statements|)
  {
    ghost var kpis := Extracted(statements, extract);
    months := months0;
    for s := 0 to |statements|
      invariant months == WithAllKpis(months0, kpis, s)
    {
      var kpi := extract(statements[s]);
      months := UpdateEveryMonth(order, months, kpi);
    }
  }

  /** The monthly rows `main` writes, with the KPI loop as written. */
  method MonthlyRowsAsWritten(factories: seq<Sheet>, statements: seq<Sheet>) returns (rows: seq<Record>)
    ensures var recs := Extracted(factories, FactoryMonthly);
            rows == RowsInOrder(MonthOrder(recs, |recs|),
                                WithAllKpis(LatestByMonth(recs, |recs|), Extracted(statements, CostStatementKpis),
                                            |statements|))
  {
    var order, months := GatherFactories(factories, FactoryMonthly);
    MonthOrderSpec(Extracted(factories, FactoryMonthly), |factories|);
    months := AddKpisToEveryMonth(order, months, statements, CostStatementKpis);
    rows := seq(|order|, i requires 0 <= i < |order| => months[order[i]]);
  }

  /** Every month ends up with, for each KPI name, the value of the last
      statement that has it, whichever month that statement is for. */
  lemma {:induction false} AllKpisFromLastStatement(months: map<Month, Record>, kpis: seq<Record>, n: nat,
                                                    k: Month, x: string, i: nat)
    requires n <= |kpis| && k in months
    requires i < n && x in kpis[i]
    requires forall j :: i < j < n ==> x !in kpis[j]
    ensures x in WithAllKpis(months, kpis, n)[k] && WithAllKpis(months, kpis, n)[k][x] == kpis[i][x]
  {
    if i < n - 1 {
      AllKpisFromLastStatement(months, kpis, n - 1, k, x, i);
    }
  }

  /** As written, two statements for March and April leave April's KPIs on
      March's row; attached by month, March keeps its own. */
  lemma KpisOfAnotherMonth()
    ensures var march, april := (2024, 3), (2024, 4);
            var months := map[march := map[YearKey := 2024, MonthKey := 3],
                              april := map[YearKey := 2024, MonthKey := 4]];
            var kpiMarch, kpiApril := map["KPI_노무비" := 100], map["KPI_노무비" := 200];
            var asWritten := WithAllKpis(months, [kpiMarch, kpiApril], 2)[march];
            var byMonth := WithOwnKpis(months, [(march, kpiMarch), (april, kpiApril)], 2)[march];
            && "KPI_노무비" in asWritten && asWritten["KPI_노무비"] == 200
            && "KPI_노무비" in byMonth && byMonth["KPI_노무비"] == 100
  {
    var march, april := (2024, 3), (2024, 4);
    var months := map[march := map[YearKey := 2024, MonthKey := 3],
                      april := map[YearKey := 2024, MonthKey := 4]];
    var kpiMarch, kpiApril := map["KPI_노무비" := 100], map["KPI_노무비" := 200];
    AllKpisFromLastStatement(months, [kpiMarch, kpiApril], 2, march, "KPI_노무비", 1);
    OwnKpisFromOwnStatement(months, [(march, kpiMarch), (april, kpiApril)], 2, march, "KPI_노무비", 0);
  }

  /** The month a cost statement's filename names, (0, 0) when it names none. */
  function StatementMonth(path: string): Month {
    match YearMonthFromFilename(path)
    case Some(ym) => (ym.year as int, ym.month as int)
    case None => (0, 0)
  }

  /** Each statement's KPIs with the month of its filename. */
  function Stamped(statements: seq<(string, Sheet)>, extract: Sheet -> Record): (stmts: seq<(Month, Record)>)
    ensures |stmts| == |statements|
  {
    seq(|statements|, i requires 0 <= i < |statements| => (StatementMonth(statements[i].0), extract(statements[i].1)))
  }

  /** The third loop as its comment intends ("attach to the same month"): a
      statement's KPIs are added to the record of its own month, if there is
      one. */
  function WithOwnKpis(months: map<Month, Record>, stmts: seq<(Month, Record)>, n: nat): (m: map<Month, Record>)
    requires n <= |stmts|
    ensures m.Keys == months.Keys
  {
    if n == 0 then months
    else
      var m := WithOwnKpis(months, stmts, n - 1);
      var k := stmts[n - 1].0;
      if k in m then m[k := Update(m[k], stmts[n - 1].1)] else m
  }

  /** Attached by month, a month's value for a KPI is that of the last
      statement of the same month that has it. */
  lemma {:induction false} OwnKpisFromOwnStatement(months: map<Month, Record>, stmts: seq<(Month, Record)>, n: nat,
                                                   k: Month, x: string, i: nat)
    requires n <= |stmts| && k in months
    requires i < n && stmts[i].0 == k && x in stmts[i].1
    requires forall j :: i < j < n && stmts[j].0 == k ==> x !in stmts[j].1
    ensures x in WithOwnKpis(months, stmts, n)[k] && WithOwnKpis(months, stmts, n)[k][x] == stmts[i].1[x]
  {
    if i < n - 1 {
      OwnKpisFromOwnStatement(months, stmts, n - 1, k, x, i);
    }
  }

  /** And statements of other months leave a month's record alone. */
  lemma {:induction false} OwnKpisIgnoreOtherMonths(months: map<Month, Record>, stmts: seq<(Month, Record)>, n: nat,
                                                    k: Month)
    requires n <= |stmts| && k in months
    requires forall j :: 0 <= j < n ==> stmts[j].0 != k
    ensures WithOwnKpis(months, stmts, n)[k] == months[k]
  {
    if n > 0 {
      OwnKpisIgnoreOtherMonths(months, stmts, n - 1, k);
    }
  }

  /** The third loop with each statement attached to its own month. */
  method AddKpisToOwnMonth(months0: map<Month, Record>, statements: seq<(string, Sheet)>, extract: Sheet -> Record)
    returns (months: map<Month, Record>)
    ensures months == WithOwnKpis(months0, Stamped(statements, extract), |statements|)
  {
    ghost var stmts := Stamped(statements, extract);
    months := months0;
    for s := 0 to |statements|
      invariant months == WithOwnKpis(months0, stmts, s)
    {
      var kpi := extract(statements[s].1);
      var key := StatementMonth(statements[s].0);
      if key in months {
        months := months[key := Update(months[key], kpi)];
      }
    }
  }

  /** The monthly rows with every statement's KPIs on its own month's row. */
  function MonthlyRowsOf(factories: seq<Sheet>, statements: seq<(string, Sheet)>): seq<Record> {
    var recs := Extracted(factories, FactoryMonthly);
    RowsInOrder(MonthOrder(recs, |recs|),
                WithOwnKpis(LatestByMonth(recs, |recs|), Stamped(statements, CostStatementKpis), |statements|))
  }

  /** The monthly half of `main`: gather the factory records by month, add
      each statement's KPIs to its month, and upsert the rows into `DB.csv`
      by (년, 월) when there are any. */
  method UpdateMonthlyDb(db: Option<seq<Record>>, factories: seq<Sheet>, statements: seq<(string, Sheet)>)
    returns (out: Option<seq<Record>>)
    ensures out == Upsert(db, MonthlyRowsOf(factories, statements), RowMonth)
  {
    var order, months := GatherFactories(factories, FactoryMonthly);
    months := AddKpisToOwnMonth(months, statements, CostStatementKpis);
    if order != [] {
      var rows := seq(|order|, i requires 0 <= i < |order| => months[order[i]]);
      out := Upsert(db, rows, RowMonth);
    } else {
      out := db;
    }
  }

  /** Adding KPIs that carry no 년/월 column keeps every record's month. */
  lemma {:induction false} OwnKpisKeepMonth(months: map<Month, Record>, stmts: seq<(Month, Record)>, n: nat, k: Month)
    requires n <= |stmts| && k in months
    requires forall j :: 0 <= j < |stmts| ==> YearKey !in stmts[j].1 && MonthKey !in stmts[j].1
    ensures RowMonth(WithOwnKpis(months, stmts, n)[k]) == RowMonth(months[k])
  {
    if n > 0 {
      OwnKpisKeepMonth(months, stmts, n - 1, k);
    }
  }

  /** The `j`-th row written is for the `j`-th month in key order. */
  lemma RowMonthAt(recs: seq<Record>, stmts: seq<(Month, Record)>, j: nat)
    requires forall j :: 0 <= j < |stmts| ==> YearKey !in stmts[j].1 && MonthKey !in stmts[j].1
    requires j < |MonthOrder(recs, |recs|)|
    ensures var order := MonthOrder(recs, |recs|);
            var rows := RowsInOrder(order, WithOwnKpis(LatestByMonth(recs, |recs|), stmts, |stmts|));
            RowMonth(rows[j]) == order[j]
  {
    var order, latest := MonthOrder(recs, |recs|), LatestByMonth(recs, |recs|);
    OwnKpisKeepMonth(latest, stmts, |stmts|, order[j]);
    LatestByMonthIsLast(recs, |recs|, order[j]);
  }

  /** The rows hold each month of the records once, and no other month. */
  lemma RowsUniqueByMonth(recs: seq<Record>, stmts: seq<(Month, Record)>, k: Month)
    requires forall j :: 0 <= j < |stmts| ==> YearKey !in stmts[j].1 && MonthKey !in stmts[j].1
    ensures var rows := RowsInOrder(MonthOrder(recs, |recs|), WithOwnKpis(LatestByMonth(recs, |recs|), stmts, |stmts|));
            && UniqueKeys(rows, RowMonth)
            && (k in KeysOf(rows, RowMonth) <==> exists i :: 0 <= i < |recs| && RowMonth(recs[i]) == k)
  {
    var order, latest := MonthOrder(recs, |recs|), LatestByMonth(recs, |recs|);
    var m := WithOwnKpis(latest, stmts, |stmts|);
    var rows := RowsInOrder(order, m);
    MonthOrderSpec(recs, |recs|);
    forall j | 0 <= j < |rows|
      ensures RowMonth(rows[j]) == order[j]
    {
      RowMonthAt(recs, stmts, j);
    }
    KeysOfMember(rows, RowMonth, k);
    LatestByMonthIsLast(recs, |recs|, k);
    if k in latest {
      var j :| 0 <= j < |order| && order[j] == k;
      assert RowMonth(rows[j]) == k;
    }
  }

  /** No KPI is named 년 or 월. */
  lemma CostKpisNames()
    ensures YearKey !in Names(CostKpis) && MonthKey !in Names(CostKpis)
  {
  }

  /** Every month appears once in the rows written to `DB.csv`, and the
      months are exactly those of the factory sheets. */
  lemma MonthlyRowsUnique(factories: seq<Sheet>, statements: seq<(string, Sheet)>, k: Month)
    ensures UniqueKeys(MonthlyRowsOf(factories, statements), RowMonth)
    ensures k in KeysOf(MonthlyRowsOf(factories, statements), RowMonth) <==>
              exists i :: 0 <= i < |factories| && RowMonth(Extracted(factories, FactoryMonthly)[i]) == k
  {
    var stmts := Stamped(statements, CostStatementKpis);
    CostKpisNames();
    forall j | 0 <= j < |stmts|
      ensures YearKey !in stmts[j].1 && MonthKey !in stmts[j].1
    {
      CostStatementKpisSpec(statements[j].1);
    }
    RowsUniqueByMonth(Extracted(factories, FactoryMonthly), stmts, k);
  }
}
