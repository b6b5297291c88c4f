/**
 * The historical price chart: a commodity picker listing the distinct
 * commodities of the data in first-seen order, and the selected commodity's
 * (date, price) points in ascending date order.
 */
module PriceChart {
  import opened Wrappers
  import opened StableSort
  import opened PriceRecords
  import Dates

  /** A point of the area chart: the record's date and price, nothing else. */
  datatype ChartPoint = ChartPoint(date: string, price: real)

  /** The sort key of the chart: `new Date(p.date).getTime()`. */
  function PointTime(p: ChartPoint): int {
    Dates.TimeValue(p.date)
  }

  /**
   * The comparator `new Date(a.date).getTime() - new Date(b.date).getTime()`:
   * the difference of the two sort keys, whose sign on well-formed dates is
   * the order of the date strings.
   */
  function CompareByDate(a: ChartPoint, b: ChartPoint): (c: int)
    ensures c == PointTime(a) - PointTime(b)
    ensures Dates.WellFormed(a.date) && Dates.WellFormed(b.date) ==>
      (c < 0 <==> Dates.LexLess(a.date, b.date)) && (c == 0 <==> a.date == b.date)
  {
    var c := Dates.TimeValue(a.date) - Dates.TimeValue(b.date);
    if Dates.WellFormed(a.date) && Dates.WellFormed(b.date) then (Dates.TimeOrderIsLexOrder(a.date, b.date); c) else c
  }

  function PointDate(p: ChartPoint): string {
    p.date
  }

  ghost predicate NoDuplicates<T>(s: seq<T>) {
    forall i, j :: 0 <= i < j < |s| ==> s[i] != s[j]
  }

  /** The position of the first occurrence of x in xs. */
  function FirstIndex<T(==)>(xs: seq<T>, x: T): (i: nat)
    requires x in xs
    ensures i < |xs| && xs[i] == x
    ensures forall j :: 0 <= j < i ==> xs[j] != x
  {
    if xs[0] == x then 0 else 1 + FirstIndex(xs[1..], x)
  }

  lemma {:induction false} FirstIndexExtend<T>(p: seq<T>, x: T, y: T)
    requires y in p
    ensures FirstIndex(p + [x], y) == FirstIndex(p, y)
  {
    if p[0] != y {
      assert (p + [x])[1..] == p[1..] + [x];
      FirstIndexExtend(p[1..], x, y);
    }
  }

  lemma FirstIndexNew<T>(p: seq<T>, x: T)
    requires x !in p
    ensures FirstIndex(p + [x], x) == |p|
  {
  }

  /**
   * The distinct values of xs, each kept where it first occurs: the
   * iteration order of a JavaScript Set filled from xs.
   */
  function Distinct<T(==)>(xs: seq<T>): (r: seq<T>)
    ensures NoDuplicates(r)
    ensures forall i :: 0 <= i < |r| ==> r[i] in xs
    ensures forall i :: 0 <= i < |xs| ==> xs[i] in r
    ensures forall i, j :: 0 <= i < j < |r| ==> FirstIndex(xs, r[i]) < FirstIndex(xs, r[j])
  {
    if xs == [] then []
    else
      var p, x := xs[..|xs| - 1], xs[|xs| - 1];
      var r := Distinct(p);
      PrefixFirstIndex(p, x);
      if x in r then (KeepExisting(xs, p, x, r); r)
      else (AppendNew(xs, p, x, r); r + [x])
  }

  /** Appending an element moves no first occurrence of what was there. */
  lemma PrefixFirstIndex<T>(p: seq<T>, x: T)
    ensures forall y :: y in p ==> y in p + [x] && FirstIndex(p + [x], y) == FirstIndex(p, y) < |p|
  {
    forall y | y in p ensures y in p + [x] && FirstIndex(p + [x], y) == FirstIndex(p, y) < |p| {
      FirstIndexExtend(p, x, y);
    }
  }

  /** A value already seen leaves the distinct values as they were. */
  lemma KeepExisting<T>(xs: seq<T>, p: seq<T>, x: T, r: seq<T>)
    requires xs == p + [x] && x in r
    requires forall i :: 0 <= i < |r| ==> r[i] in p
    requires forall i :: 0 <= i < |p| ==> p[i] in r
    requires forall i, j :: 0 <= i < j < |r| ==> FirstIndex(p, r[i]) < FirstIndex(p, r[j])
    requires forall y :: y in p ==> y in xs && FirstIndex(xs, y) == FirstIndex(p, y) < |p|
    ensures forall i :: 0 <= i < |r| ==> r[i] in xs
    ensures forall i :: 0 <= i < |xs| ==> xs[i] in r
    ensures forall i, j :: 0 <= i < j < |r| ==> FirstIndex(xs, r[i]) < FirstIndex(xs, r[j])
  {
    forall i | 0 <= i < |xs| ensures xs[i] in r {
      if i < |p| { assert xs[i] == p[i]; }
    }
    forall i | 0 <= i < |r| ensures r[i] in xs {
      assert r[i] in p;
    }
    forall i, j | 0 <= i < j < |r| ensures FirstIndex(xs, r[i]) < FirstIndex(xs, r[j]) {
      assert r[i] in p && r[j] in p;
    }
  }

  lemma AppendNew<T>(xs: seq<T>, p: seq<T>, x: T, r: seq<T>)
    requires xs == p + [x] && x !in r
    requires NoDuplicates(r)
    requires forall i :: 0 <= i < |r| ==> r[i] in p
    requires forall i :: 0 <= i < |p| ==> p[i] in r
    requires forall i, j :: 0 <= i < j < |r| ==> FirstIndex(p, r[i]) < FirstIndex(p, r[j])
    requires forall y :: y in p ==> y in xs && FirstIndex(xs, y) == FirstIndex(p, y) < |p|
    ensures NoDuplicates(r + [x])
    ensures forall i :: 0 <= i < |r + [x]| ==> (r + [x])[i] in xs
    ensures forall i :: 0 <= i < |xs| ==> xs[i] in r + [x]
    ensures forall i, j :: 0 <= i < j < |r + [x]| ==> FirstIndex(xs, (r + [x])[i]) < FirstIndex(xs, (r + [x])[j])
  {
    AppendNewNoDuplicates(r, x);
    AppendNewMembers(xs, p, x, r);
    assert x !in p;
    FirstIndexNew(p, x);
    AppendNewOrder(xs, p, x, r);
  }

  lemma AppendNewNoDuplicates<T>(r: seq<T>, x: T)
    requires NoDuplicates(r) && x !in r
    ensures NoDuplicates(r + [x])
  {
    var r' := r + [x];
    forall i, j | 0 <= i < j < |r'| ensures r'[i] != r'[j] {
      assert r'[i] == r[i];
      if j < |r| { assert r'[j] == r[j]; }
    }
  }

  lemma AppendNewMembers<T>(xs: seq<T>, p: seq<T>, x: T, r: seq<T>)
    requires xs == p + [x]
    requires forall i :: 0 <= i < |r| ==> r[i] in p
    requires forall i :: 0 <= i < |p| ==> p[i] in r
    ensures forall i :: 0 <= i < |r + [x]| ==> (r + [x])[i] in xs
    ensures forall i :: 0 <= i < |xs| ==> xs[i] in r + [x]
  {
    var r' := r + [x];
    forall i | 0 <= i < |xs| ensures xs[i] in r' {
      if i < |p| { assert xs[i] == p[i]; }
    }
    forall i | 0 <= i < |r'| ensures r'[i] in xs {
      if i < |r| { assert r'[i] == r[i] && r[i] in p; }
    }
  }

  lemma AppendNewOrder<T>(xs: seq<T>, p: seq<T>, x: T, r: seq<T>)
    requires x in xs && FirstIndex(xs, x) == |p|
    requires forall i :: 0 <= i < |r| ==> r[i] in p
    requires forall i, j :: 0 <= i < j < |r| ==> FirstIndex(p, r[i]) < FirstIndex(p, r[j])
    requires forall y :: y in p ==> y in xs && FirstIndex(xs, y) == FirstIndex(p, y) < |p|
    ensures forall i :: 0 <= i < |r + [x]| ==> (r + [x])[i] in xs
    ensures forall i, j :: 0 <= i < j < |r + [x]| ==> FirstIndex(xs, (r + [x])[i]) < FirstIndex(xs, (r + [x])[j])
  {
    var r' := r + [x];
    forall i | 0 <= i < |r'| ensures r'[i] in xs {
      if i < |r| { assert r'[i] == r[i] && r[i] in p; }
    }
    forall i, j | 0 <= i < j < |r'| ensures FirstIndex(xs, r'[i]) < FirstIndex(xs, r'[j]) {
      assert r'[i] == r[i] && r[i] in p;
      if j < |r| {
        assert r'[j] == r[j] && r[j] in p;
      }
    }
  }

  /** `data.map(item => item.commodity)`. */
  function Names(data: seq<PriceRecord>): (names: seq<string>)
    ensures |names| == |data|
    ensures forall i :: 0 <= i < |data| ==> names[i] == data[i].commodity
  {
    seq(|data|, i requires 0 <= i < |data| => data[i].commodity)
  }

  /**
   * `[...new Set(data.map(item => item.commodity))]`: each commodity of
   * the data once, in the order of its first record.
   */
  function Commodities(data: seq<PriceRecord>): (cs: seq<string>)
    ensures NoDuplicates(cs)
    ensures forall c :: c in cs <==> exists i :: 0 <= i < |data| && data[i].commodity == c
    ensures forall i :: 0 <= i < |cs| ==> cs[i] in Names(data)
    ensures forall i, j :: 0 <= i < j < |cs| ==> FirstIndex(Names(data), cs[i]) < FirstIndex(Names(data), cs[j])
  {
    var names := Names(data);
    assert forall c :: c in names <==> exists i :: 0 <= i < |data| && data[i].commodity == c by {
      forall c ensures c in names <==> exists i :: 0 <= i < |data| && data[i].commodity == c {
        if c in names {
          var i :| 0 <= i < |names| && names[i] == c;
          assert data[i].commodity == c;
        }
      }
    }
    Distinct(names)
  }

  /** The first commodity listed is that of the first record; no data, no commodities. */
  lemma FirstCommodityIsFirstRecord(data: seq<PriceRecord>)
    ensures data == [] ==> Commodities(data) == []
    ensures data != [] ==> Commodities(data) != [] && Commodities(data)[0] == data[0].commodity
  {
    var cs, names := Commodities(data), Names(data);
    if data != [] {
      var c := data[0].commodity;
      assert c in cs;
      assert FirstIndex(names, c) == 0;
      var j :| 0 <= j < |cs| && cs[j] == c;
    }
  }

  /**
   * `useState(commodities[0])`: the initial selection. For empty data
   * `commodities[0]` is `undefined`, modelled as None.
   */
  function InitialSelection(data: seq<PriceRecord>): (sel: Option<string>)
    ensures data == [] ==> sel == None
    ensures data != [] ==> sel == Some(data[0].commodity)
  {
    var cs := Commodities(data);
    FirstCommodityIsFirstRecord(data);
    if cs == [] then None else Some(cs[0])
  }

  /**
   * `data.filter(item => item.commodity === selectedCommodity)`. No string is
   * `===` to `undefined`, so nothing matches when nothing is selected.
   */
  /** The tag the filter compares with the selection. */
  function SelectionTag(r: PriceRecord): Option<string> {
    Some(r.commodity)
  }

  function Matching(data: seq<PriceRecord>, sel: Option<string>): (m: seq<PriceRecord>)
    ensures m == KeyFilter(data, SelectionTag, sel)
    ensures forall r :: r in m <==> r in data && sel == Some(r.commodity)
    ensures forall r :: multiset(m)[r] == if sel == Some(r.commodity) then multiset(data)[r] else 0
  {
    if data == [] then []
    else
      assert data == [data[0]] + data[1..];
      (if sel == Some(data[0].commodity) then [data[0]] else []) + Matching(data[1..], sel)
  }

  /** `.map(item => ({ date: item.date, price: item.price }))`. */
  function Project(m: seq<PriceRecord>): (pts: seq<ChartPoint>)
    ensures |pts| == |m|
    ensures forall i :: 0 <= i < |m| ==> pts[i] == ChartPoint(m[i].date, m[i].price)
  {
    seq(|m|, i requires 0 <= i < |m| => ChartPoint(m[i].date, m[i].price))
  }

  lemma ProjectedFromRecords(data: seq<PriceRecord>, sel: Option<string>)
    requires AllDatesWellFormed(data)
    ensures forall p :: p in Project(Matching(data, sel)) ==>
      Dates.WellFormed(p.date) &&
      exists r :: r in data && sel == Some(r.commodity) && p == ChartPoint(r.date, r.price)
  {
    var m := Matching(data, sel);
    forall p | p in Project(m)
      ensures Dates.WellFormed(p.date)
      ensures exists r :: r in data && sel == Some(r.commodity) && p == ChartPoint(r.date, r.price)
    {
      var i :| 0 <= i < |m| && Project(m)[i] == p;
      assert m[i] in m;
      var k :| 0 <= k < |data| && data[k] == m[i];
    }
  }

  /** Sorting by time value orders well-formed dates as strings too. */
  lemma SortedByTimeIsLexAscending(points: seq<ChartPoint>)
    requires SortedBy(points, PointTime)
    requires forall p :: p in points ==> Dates.WellFormed(p.date)
    ensures forall i, j :: 0 <= i < j < |points| ==> !Dates.LexLess(points[j].date, points[i].date)
  {
    forall i, j | 0 <= i < j < |points|
      ensures !Dates.LexLess(points[j].date, points[i].date)
    {
      assert points[i] in points && points[j] in points;
      Dates.TimeOrderIsLexOrder(points[j].date, points[i].date);
    }
  }

  /** On well-formed dates, filtering by time value is filtering by date string. */
  lemma TimeFilterIsDateFilter(s: seq<ChartPoint>, d: string)
    requires forall p :: p in s ==> Dates.WellFormed(p.date)
    ensures Dates.WellFormed(d) ==> KeyFilter(s, PointTime, Dates.TimeValue(d)) == KeyFilter(s, PointDate, d)
    ensures !Dates.WellFormed(d) ==> KeyFilter(s, PointDate, d) == []
  {
    if Dates.WellFormed(d) {
      forall p | p in s ensures PointTime(p) == Dates.TimeValue(d) <==> PointDate(p) == d {
        Dates.TimeOrderIsLexOrder(p.date, d);
      }
      KeyFilterCongruent(s, PointTime, Dates.TimeValue(d), PointDate, d);
    } else {
      KeyFilterNone(s, PointDate, d);
    }
  }

  /**
   * `chartData`: the selected commodity's records as (date, price) points,
   * sorted by `(a, b) => new Date(a.date).getTime() - new Date(b.date).getTime()`.
   */
  function ChartPoints(data: seq<PriceRecord>, sel: Option<string>): (points: seq<ChartPoint>)
    requires AllDatesWellFormed(data)
    ensures sel.None? ==> points == []
    ensures |points| == |Matching(data, sel)|
    ensures multiset(points) == multiset(Project(Matching(data, sel)))
    ensures forall p :: p in points ==>
      exists r :: r in data && sel == Some(r.commodity) && p == ChartPoint(r.date, r.price)
    ensures forall i, j :: 0 <= i < j < |points| ==> !Dates.LexLess(points[j].date, points[i].date)
    ensures forall d :: KeyFilter(points, PointDate, d) == KeyFilter(Project(Matching(data, sel)), PointDate, d)
  {
    var pts := Project(Matching(data, sel));
    var points := SortBy(pts, PointTime);
    ProjectedFromRecords(data, sel);
    SortedPointsFacts(pts, points);
    points
  }

  /** What sorting the projected points by time value gives, stated on dates. */
  lemma SortedPointsFacts(pts: seq<ChartPoint>, points: seq<ChartPoint>)
    requires forall p :: p in pts ==> Dates.WellFormed(p.date)
    requires multiset(points) == multiset(pts)
    requires IsStableSortOf(points, pts, PointTime)
    ensures |points| == |pts|
    ensures forall p :: p in points ==> p in pts
    ensures forall i, j :: 0 <= i < j < |points| ==> !Dates.LexLess(points[j].date, points[i].date)
    ensures forall d :: KeyFilter(points, PointDate, d) == KeyFilter(pts, PointDate, d)
  {
    assert forall p :: p in points ==> p in multiset(pts);
    SortedByTimeIsLexAscending(points);
    assert |points| == |multiset(points)| == |multiset(pts)|;
    forall d ensures KeyFilter(points, PointDate, d) == KeyFilter(pts, PointDate, d) {
      TimeFilterIsDateFilter(points, d);
      TimeFilterIsDateFilter(pts, d);
    }
  }

  /**
   * Whatever stable algorithm the engine uses, the chart is the only
   * sequence that lists the selected points in ascending date order and
   * keeps every date's points in input order.
   */
  lemma {:induction false} ChartOrderIsUnique(data: seq<PriceRecord>, sel: Option<string>, t: seq<ChartPoint>)
    requires AllDatesWellFormed(data)
    requires forall i, j :: 0 <= i < j < |t| ==> !Dates.LexLess(t[j].date, t[i].date)
    requires forall d :: KeyFilter(t, PointDate, d) == KeyFilter(Project(Matching(data, sel)), PointDate, d)
    ensures t == ChartPoints(data, sel)
  {
    var pts := Project(Matching(data, sel));
    var points := ChartPoints(data, sel);
    ProjectedFromRecords(data, sel);
    forall p | p in t ensures p in pts {
      KeyFilterMembers(t, PointDate, p.date);
      KeyFilterMembers(pts, PointDate, p.date);
      assert p in KeyFilter(t, PointDate, p.date);
    }
    forall p | p in points ensures p in pts {
      assert p in multiset(pts);
    }
    forall i, j | 0 <= i < j < |t| ensures PointTime(t[i]) <= PointTime(t[j]) {
      assert t[i] in t && t[j] in t;
      Dates.TimeOrderIsLexOrder(t[j].date, t[i].date);
    }
    forall i, j | 0 <= i < j < |points| ensures PointTime(points[i]) <= PointTime(points[j]) {
      assert points[i] in points && points[j] in points;
      Dates.TimeOrderIsLexOrder(points[j].date, points[i].date);
    }
    forall k ensures KeyFilter(t, PointTime, k) == KeyFilter(points, PointTime, k) {
      if p :| p in pts && PointTime(p) == k {
        TimeFilterIsDateFilter(t, p.date);
        TimeFilterIsDateFilter(points, p.date);
      } else {
        KeyFilterNone(t, PointTime, k);
        KeyFilterNone(points, PointTime, k);
      }
    }
    StableSortUnique(t, points, PointTime);
  }

  /**
   * The chart component's state: the `data` prop and the `selectedCommodity`
   * state, with the picker's options and the chart's points derived from them.
   */
  class PriceChartView {
    var data: seq<PriceRecord>
    var selected: Option<string>

    constructor (data: seq<PriceRecord>)
      ensures this.data == data && selected == InitialSelection(data)
    {
      this.data := data;
      selected := InitialSelection(data);
    }

    /** The picker's `onValueChange`, which only offers listed commodities. */
    method SelectCommodity(c: string)
      requires c in Commodities(data)
      modifies this`selected
      ensures selected == Some(c)
    {
      selected := Some(c);
    }

    /**
     * A re-render with a new `data` prop. `useState` keeps its value, so
     * the selection is not reset; the derived views are recomputed.
     */
    method ReceiveData(newData: seq<PriceRecord>)
      modifies this`data
      ensures data == newData
    {
      data := newData;
    }

    /** The picker's items: each commodity of the data once, in first-seen order. */
    function Options(): (opts: seq<string>)
      reads this
      ensures NoDuplicates(opts)
      ensures forall c :: c in opts <==> exists i :: 0 <= i < |data| && data[i].commodity == c
      ensures forall i :: 0 <= i < |opts| ==> opts[i] in Names(data)
      ensures forall i, j :: 0 <= i < j < |opts| ==> FirstIndex(Names(data), opts[i]) < FirstIndex(Names(data), opts[j])
    {
      Commodities(data)
    }

    /** The chart's `data`: the selected commodity's points, oldest first. */
    function Chart(): (pts: seq<ChartPoint>)
      reads this
      requires AllDatesWellFormed(data)
      ensures selected.None? ==> pts == []
      ensures forall p :: p in pts ==>
        exists r :: r in data && selected == Some(r.commodity) && p == ChartPoint(r.date, r.price)
      ensures forall i, j :: 0 <= i < j < |pts| ==> !Dates.LexLess(pts[j].date, pts[i].date)
      ensures multiset(pts) == multiset(Project(Matching(data, selected)))
    {
      ChartPoints(data, selected)
    }
  }
}
