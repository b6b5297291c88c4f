/**
 * The historical price table: a copy of the records sorted newest first by
 * `(a, b) => new Date(b.date).getTime() - new Date(a.date).getTime()`, then
 * one table row per record in that order, keyed by its position.
 */
module PriceTable {
  import opened StableSort
  import opened PriceRecords
  import Dates

  /**
   * The comparator `tb - ta` orders exactly as `ka - kb` with `k = -t`, so
   * the table's sort is an ascending stable sort by this key.
   */
  function NewestFirst(r: PriceRecord): int {
    -Dates.TimeValue(r.date)
  }

  /**
   * The comparator `new Date(b.date).getTime() - new Date(a.date).getTime()`:
   * the difference of the two sort keys, negative on well-formed dates
   * exactly when a's date is the later one.
   */
  function CompareNewestFirst(a: PriceRecord, b: PriceRecord): (c: int)
    ensures c == NewestFirst(a) - NewestFirst(b)
    ensures Dates.WellFormed(a.date) && Dates.WellFormed(b.date) ==>
      (c < 0 <==> Dates.LexLess(b.date, a.date)) && (c == 0 <==> a.date == b.date)
  {
    var c := Dates.TimeValue(b.date) - Dates.TimeValue(a.date);
    if Dates.WellFormed(a.date) && Dates.WellFormed(b.date) then (Dates.TimeOrderIsLexOrder(b.date, a.date); c) else c
  }

  /** On well-formed dates, filtering by the sort key is filtering by date string. */
  lemma KeyFilterIsDateFilter(s: seq<PriceRecord>, d: string)
    requires forall r :: r in s ==> Dates.WellFormed(r.date)
    ensures Dates.WellFormed(d) ==> KeyFilter(s, NewestFirst, -Dates.TimeValue(d)) == KeyFilter(s, RecordDate, d)
    ensures !Dates.WellFormed(d) ==> KeyFilter(s, RecordDate, d) == []
  {
    if Dates.WellFormed(d) {
      forall r | r in s ensures NewestFirst(r) == -Dates.TimeValue(d) <==> RecordDate(r) == d {
        Dates.TimeOrderIsLexOrder(r.date, d);
      }
      KeyFilterCongruent(s, NewestFirst, -Dates.TimeValue(d), RecordDate, d);
    } else {
      KeyFilterNone(s, RecordDate, d);
    }
  }

  /**
   * A key that no record of s carries filters s to nothing; one that some
   * record r carries filters s as r's date does.
   */
  lemma KeyFilterByWitness(s: seq<PriceRecord>, r: PriceRecord, k: int)
    requires forall x :: x in s ==> Dates.WellFormed(x.date)
    requires Dates.WellFormed(r.date) && NewestFirst(r) == k
    ensures KeyFilter(s, NewestFirst, k) == KeyFilter(s, RecordDate, r.date)
  {
    KeyFilterIsDateFilter(s, r.date);
  }

  /** `[...data].sort(...)`: the records newest first, equal dates in input order. */
  function SortedRecords(data: seq<PriceRecord>): (sorted: seq<PriceRecord>)
    requires AllDatesWellFormed(data)
    ensures multiset(sorted) == multiset(data)
    ensures forall i, j :: 0 <= i < j < |sorted| ==>
      Dates.TimeValue(sorted[j].date) <= Dates.TimeValue(sorted[i].date)
    ensures forall i, j :: 0 <= i < j < |sorted| ==> !Dates.LexLess(sorted[i].date, sorted[j].date)
    ensures forall d :: KeyFilter(sorted, RecordDate, d) == KeyFilter(data, RecordDate, d)
  {
    var sorted := SortBy(data, NewestFirst);
    SortedFacts(data, sorted);
    sorted
  }

  lemma SortedFacts(data: seq<PriceRecord>, sorted: seq<PriceRecord>)
    requires AllDatesWellFormed(data)
    requires multiset(sorted) == multiset(data)
    requires IsStableSortOf(sorted, data, NewestFirst)
    ensures forall i, j :: 0 <= i < j < |sorted| ==> !Dates.LexLess(sorted[i].date, sorted[j].date)
    ensures forall d :: KeyFilter(sorted, RecordDate, d) == KeyFilter(data, RecordDate, d)
  {
    forall r | r in data ensures Dates.WellFormed(r.date) {
      var i :| 0 <= i < |data| && data[i] == r;
    }
    assert forall r :: r in sorted ==> r in multiset(data);
    forall i, j | 0 <= i < j < |sorted| ensures !Dates.LexLess(sorted[i].date, sorted[j].date) {
      assert sorted[i] in sorted && sorted[j] in sorted;
      Dates.TimeOrderIsLexOrder(sorted[i].date, sorted[j].date);
    }
    forall d ensures KeyFilter(sorted, RecordDate, d) == KeyFilter(data, RecordDate, d) {
      KeyFilterIsDateFilter(sorted, d);
      KeyFilterIsDateFilter(data, d);
    }
  }

  /**
   * Whatever stable algorithm the engine uses, the table order is the only
   * sequence that lists the records newest first (as date strings) and
   * keeps every date's records in input order.
   */
  lemma {:induction false} TableOrderIsUnique(data: seq<PriceRecord>, t: seq<PriceRecord>)
    requires AllDatesWellFormed(data)
    requires forall i, j :: 0 <= i < j < |t| ==> !Dates.LexLess(t[i].date, t[j].date)
    requires forall d :: KeyFilter(t, RecordDate, d) == KeyFilter(data, RecordDate, d)
    ensures t == SortedRecords(data)
  {
    forall r | r in data ensures Dates.WellFormed(r.date) {
      var i :| 0 <= i < |data| && data[i] == r;
    }
    forall r | r in t ensures r in data {
      KeyFilterMembers(t, RecordDate, r.date);
      KeyFilterMembers(data, RecordDate, r.date);
      assert r in KeyFilter(t, RecordDate, r.date);
    }
    forall i, j | 0 <= i < j < |t| ensures NewestFirst(t[i]) <= NewestFirst(t[j]) {
      assert t[i] in t && t[j] in t;
      Dates.TimeOrderIsLexOrder(t[i].date, t[j].date);
    }
    var sorted := SortedRecords(data);
    forall r | r in sorted ensures r in data {
      assert r in multiset(data);
    }
    forall k ensures KeyFilter(t, NewestFirst, k) == KeyFilter(sorted, NewestFirst, k) {
      if r :| r in data && NewestFirst(r) == k {
        KeyFilterByWitness(t, r, k);
        KeyFilterByWitness(sorted, r, k);
      } else {
        KeyFilterNone(t, NewestFirst, k);
        KeyFilterNone(sorted, NewestFirst, k);
      }
    }
    StableSortUnique(t, sorted, NewestFirst);
  }

  /** One `<TableRow key={index}>` with the record's four cells. */
  datatype TableRow = TableRow(key: nat, commodity: string, market: string, date: string, price: real)

  /** The record a row displays. */
  function RowRecord(row: TableRow): PriceRecord {
    PriceRecord(row.commodity, row.price, row.market, row.date)
  }

  function RowRecords(rows: seq<TableRow>): (rs: seq<PriceRecord>)
    ensures |rs| == |rows|
    ensures forall i :: 0 <= i < |rows| ==> rs[i] == RowRecord(rows[i])
  {
    seq(|rows|, i requires 0 <= i < |rows| => RowRecord(rows[i]))
  }

  /** `sortedData.map((record, index) => ...)`. */
  function Rows(data: seq<PriceRecord>): (rows: seq<TableRow>)
    requires AllDatesWellFormed(data)
    ensures |rows| == |data|
    ensures forall i :: 0 <= i < |rows| ==> rows[i].key == i
    ensures RowRecords(rows) == SortedRecords(data)
    ensures multiset(RowRecords(rows)) == multiset(data)
    ensures forall i, j :: 0 <= i < j < |rows| ==> !Dates.LexLess(rows[i].date, rows[j].date)
  {
    var sorted := SortedRecords(data);
    var rows := seq(|sorted|, i requires 0 <= i < |sorted| =>
      TableRow(i, sorted[i].commodity, sorted[i].market, sorted[i].date, sorted[i].price));
    assert RowRecords(rows) == sorted;
    assert |sorted| == |multiset(sorted)| == |data|;
    rows
  }

  /**
   * The component receives the caller's array and renders a sorted copy:
   * it changes nothing it was given.
   */
  method RenderTable(data: array<PriceRecord>) returns (rows: seq<TableRow>)
    requires AllDatesWellFormed(data[..])
    ensures data[..] == old(data[..])
    ensures |rows| == data.Length
    ensures RowRecords(rows) == SortedRecords(data[..])
  {
    var copy := data[..];
    rows := Rows(copy);
  }
}
