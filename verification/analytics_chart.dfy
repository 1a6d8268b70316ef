/** The analytics line chart: turning the per-platform series of an analytics
    response into one row per point, and choosing the lines and colours. */
module AnalyticsChart {
  import opened Common
  import opened Text

  /** One point of a series; a missing or null `value` is `None`. */
  datatype Point = Point(labelText: string, value: Option<int>)

  /** A property value of the response object: an array of points, or
      anything else, recorded only by whether it is truthy. */
  datatype Value = Points(points: seq<Point>) | Scalar(truthy: bool)

  /** The response object as its keys in `Object.keys` order with their values. */
  type Analytics = seq<(string, Value)>

  /** The value under `key`, if the object has that property. */
  function Get(a: Analytics, key: string): (v: Option<Value>)
    ensures v.None? <==> forall i :: 0 <= i < |a| ==> a[i].0 != key
    ensures v.Some? ==> exists i :: 0 <= i < |a| && a[i] == (key, v.value)
    decreases |a|
  {
    if |a| == 0 then None
    else if a[0].0 == key then Some(a[0].1)
    else
      var v := Get(a[1..], key);
      assert forall i :: 1 <= i < |a| ==> a[i] == a[1..][i - 1];
      v
  }

  /** Entry `i` is the first one carrying its key. */
  predicate FirstWithKey(a: Analytics, i: int)
    requires 0 <= i < |a|
  {
    forall j :: 0 <= j < i ==> a[j].0 != a[i].0
  }

  /** `Get` reads the first entry carrying the key. */
  lemma {:induction false} GetFirstEntry(a: Analytics, key: string)
    ensures forall i :: 0 <= i < |a| && a[i].0 == key && FirstWithKey(a, i) ==> Get(a, key) == Some(a[i].1)
    decreases |a|
  {
    if |a| > 0 && a[0].0 != key {
      GetFirstEntry(a[1..], key);
      forall i | 0 <= i < |a| && a[i].0 == key && FirstWithKey(a, i)
        ensures Get(a, key) == Some(a[i].1)
      {
        assert a[1..][i - 1] == a[i];
        assert FirstWithKey(a[1..], i - 1) by {
          forall j | 0 <= j < i - 1
            ensures a[1..][j].0 != a[1..][i - 1].0
          {
            assert a[1..][j] == a[j + 1];
          }
        }
      }
    }
  }

  predicate IsSeriesKey(k: string) {
    k != "metric" && k != "timeRange"
  }

  function Keys(a: Analytics): (ks: seq<string>)
    ensures |ks| == |a| && forall i :: 0 <= i < |a| ==> ks[i] == a[i].0
  {
    MapSeq(a, (e: (string, Value)) => e.0)
  }

  /** The series keys: every key except `metric` and `timeRange`, in order. */
  function SeriesKeys(a: Analytics): (ks: seq<string>)
    ensures forall i :: 0 <= i < |ks| ==> IsSeriesKey(ks[i]) && ks[i] in Keys(a)
    ensures forall i :: 0 <= i < |a| && IsSeriesKey(a[i].0) ==> a[i].0 in ks
    ensures IsSubsequence(ks, Keys(a))
  {
    FilterIsSubsequence(Keys(a), IsSeriesKey);
    Filter(Keys(a), IsSeriesKey)
  }

  /** `analytics[k] || []` where the result is indexed: an array as it is,
      a missing or falsy value as the empty array; a truthy non-array is
      indexed without failing but never yields a point. */
  function SeriesOf(a: Analytics, k: string): (pts: seq<Point>)
    ensures (Get(a, k).Some? && Get(a, k).value.Points?) ==> pts == Get(a, k).value.points
    ensures !(Get(a, k).Some? && Get(a, k).value.Points?) ==> pts == []
  {
    match Get(a, k)
    case Some(Points(pts)) => pts
    case _ => []
  }

  /** `arr[idx]?.value ?? null`. */
  function Cell(pts: seq<Point>, idx: int): (v: Option<int>)
    ensures 0 <= idx < |pts| ==> v == pts[idx].value
    ensures !(0 <= idx < |pts|) ==> v.None?
  {
    if 0 <= idx < |pts| then pts[idx].value else None
  }

  /** One chart row: its label and one cell per series key, in key order. */
  datatype Row = Row(labelText: string, cells: seq<Option<int>>)

  /** The base series is missing or falsy (no rows), an array, or a truthy
      non-array whose `.map` throws. */
  datatype Base = NoBase | BaseSeries(points: seq<Point>) | NotAnArray

  /** The key of the base series: the first series key for `all`, the
      platform itself otherwise. */
  function BaseKey(a: Analytics, platform: string): string {
    if platform == "all" then (if |SeriesKeys(a)| > 0 then SeriesKeys(a)[0] else "") else platform
  }

  /** `analytics[firstKey] || []` followed by `.map`: the series of the first
      entry with the base key; no rows when there is none, when `all` has no
      series key, or when the value is falsy; a throw for a truthy non-array. */
  function BaseOf(a: Analytics, platform: string): (b: Base)
    ensures platform == "all" && |SeriesKeys(a)| == 0 ==> b == NoBase
    ensures b.BaseSeries? ==> Get(a, BaseKey(a, platform)) == Some(Points(b.points))
    ensures b.NotAnArray? <==>
              (platform != "all" || |SeriesKeys(a)| > 0) && Get(a, BaseKey(a, platform)) == Some(Scalar(true))
    ensures Get(a, BaseKey(a, platform)).None? ==> b == NoBase
  {
    if platform == "all" && |SeriesKeys(a)| == 0 then NoBase
    else
      var k := BaseKey(a, platform);
      match Get(a, k)
      case None => NoBase
      case Some(Scalar(t)) => if t then NotAnArray else NoBase
      case Some(Points(pts)) => BaseSeries(pts)
  }

  /** The base by position: the value of the first entry carrying the base
      key decides it. */
  lemma BaseOfFirstEntry(a: Analytics, platform: string, i: int)
    requires platform != "all" || |SeriesKeys(a)| > 0
    requires 0 <= i < |a| && a[i].0 == BaseKey(a, platform) && FirstWithKey(a, i)
    ensures a[i].1.Points? ==> BaseOf(a, platform) == BaseSeries(a[i].1.points)
    ensures a[i].1.Scalar? ==> (BaseOf(a, platform).NotAnArray? <==> a[i].1.truthy)
    ensures a[i].1.Scalar? && !a[i].1.truthy ==> BaseOf(a, platform) == NoBase
  {
    GetFirstEntry(a, BaseKey(a, platform));
  }

  function RowAt(a: Analytics, keys: seq<string>, pt: Point, idx: int): (r: Row)
    ensures r.labelText == pt.labelText && |r.cells| == |keys|
    ensures forall j :: 0 <= j < |keys| ==> r.cells[j] == Cell(SeriesOf(a, keys[j]), idx)
  {
    Row(pt.labelText, seq(|keys|, j requires 0 <= j < |keys| => Cell(SeriesOf(a, keys[j]), idx)))
  }

  function RowsFrom(a: Analytics, keys: seq<string>, base: seq<Point>, start: nat): (rows: seq<Row>)
    ensures |rows| == |base|
    ensures forall i :: 0 <= i < |base| ==> rows[i] == RowAt(a, keys, base[i], start + i)
    decreases |base|
  {
    if |base| == 0 then []
    else [RowAt(a, keys, base[0], start)] + RowsFrom(a, keys, base[1..], start + 1)
  }

  /** `toChartData`: one row per point of the base series, carrying the
      point's label and, for every series key, that series' value at the same
      index or null; `None` where `.map` would throw. */
  function ToChartData(a: Analytics, platform: string): (r: Option<seq<Row>>)
    ensures r.None? <==> BaseOf(a, platform).NotAnArray?
    ensures BaseOf(a, platform).NoBase? ==> r == Some([])
    ensures BaseOf(a, platform).BaseSeries? ==>
              var base := BaseOf(a, platform).points;
              var keys := SeriesKeys(a);
              && r.Some? && |r.value| == |base|
              && (forall i :: 0 <= i < |base| ==> r.value[i].labelText == base[i].labelText)
              && (forall i :: 0 <= i < |base| ==> |r.value[i].cells| == |keys|)
              && (forall i, j :: 0 <= i < |base| && 0 <= j < |keys| ==>
                    r.value[i].cells[j] == Cell(SeriesOf(a, keys[j]), i))
  {
    match BaseOf(a, platform)
    case NoBase => Some([])
    case NotAnArray => None
    case BaseSeries(base) => Some(RowsFrom(a, SeriesKeys(a), base, 0))
  }

  /** The column of series key number `j` across the rows. */
  function Column(rows: seq<Row>, j: nat): (col: seq<Option<int>>)
    requires forall i :: 0 <= i < |rows| ==> j < |rows[i].cells|
    ensures |col| == |rows| && forall i :: 0 <= i < |rows| ==> col[i] == rows[i].cells[j]
  {
    seq(|rows|, i requires 0 <= i < |rows| => rows[i].cells[j])
  }

  function Values(pts: seq<Point>): (vs: seq<Option<int>>)
    ensures |vs| == |pts| && forall i :: 0 <= i < |pts| ==> vs[i] == pts[i].value
  {
    MapSeq(pts, (p: Point) => p.value)
  }

  /** Reading a column back gives the series: for a series as long as the
      base, its column is exactly its values; a shorter one is padded with
      nulls. */
  lemma ColumnsRecoverSeries(a: Analytics, platform: string, j: nat)
    requires BaseOf(a, platform).BaseSeries?
    requires j < |SeriesKeys(a)|
    ensures var rows := ToChartData(a, platform).value;
            var pts := SeriesOf(a, SeriesKeys(a)[j]);
            var n := |BaseOf(a, platform).points|;
            && Column(rows, j)[..if |pts| < n then |pts| else n] == Values(pts)[..if |pts| < n then |pts| else n]
            && (forall i :: |pts| <= i < n ==> Column(rows, j)[i].None?)
  {
    var rows := ToChartData(a, platform).value;
    var pts := SeriesOf(a, SeriesKeys(a)[j]);
    ColumnCells(a, platform, j);
    CellsRecoverValues(Column(rows, j), pts);
  }

  /** A sequence of cells read from `pts` is its values, then nulls. */
  lemma CellsRecoverValues(col: seq<Option<int>>, pts: seq<Point>)
    requires forall i :: 0 <= i < |col| ==> col[i] == Cell(pts, i)
    ensures var m := if |pts| < |col| then |pts| else |col|;
            col[..m] == Values(pts)[..m]
    ensures forall i :: |pts| <= i < |col| ==> col[i].None?
  {
    var m := if |pts| < |col| then |pts| else |col|;
    assert forall i :: 0 <= i < m ==> col[..m][i] == Values(pts)[..m][i];
  }

  /** Column `j` of the chart holds series `j`'s cell at every row index. */
  lemma ColumnCells(a: Analytics, platform: string, j: nat)
    requires BaseOf(a, platform).BaseSeries?
    requires j < |SeriesKeys(a)|
    ensures var rows := ToChartData(a, platform).value;
            forall i :: 0 <= i < |rows| ==> Column(rows, j)[i] == Cell(SeriesOf(a, SeriesKeys(a)[j]), i)
  {
  }

  /** With `all`, the rows are labelled by the first series key's points. */
  lemma AllUsesFirstSeries(a: Analytics)
    requires |SeriesKeys(a)| > 0
    requires Get(a, SeriesKeys(a)[0]).Some? && Get(a, SeriesKeys(a)[0]).value.Points?
    ensures ToChartData(a, "all").Some?
    ensures MapSeq(ToChartData(a, "all").value, (r: Row) => r.labelText)
         == MapSeq(SeriesOf(a, SeriesKeys(a)[0]), (p: Point) => p.labelText)
  {
  }

  /* ---------------------------------------------------------------------
     Lines
     --------------------------------------------------------------------- */

  const FallbackColor: string := "#0ea5e9"

  /** The platforms with a colour of their own. */
  predicate HasPlatformColor(key: string) {
    key in {"facebook", "instagram", "threads", "tiktok", "youtube"}
  }

  /** The stroke colour of a series: the platform's colour, or the fallback. */
  function LineColor(key: string): (c: string)
    ensures !HasPlatformColor(key) ==> c == FallbackColor
    ensures HasPlatformColor(key) ==> c != FallbackColor
    ensures key == "facebook" ==> c == "#1877F2"
    ensures key == "instagram" ==> c == "#E1306C"
    ensures key == "threads" ==> c == "#000000"
    ensures key == "tiktok" ==> c == "#EE1D52"
    ensures key == "youtube" ==> c == "#FF0000"
  {
    match key
    case "facebook" => "#1877F2"
    case "instagram" => "#E1306C"
    case "threads" => "#000000"
    case "tiktok" => "#EE1D52"
    case "youtube" => "#FF0000"
    case _ => FallbackColor
  }

  /** A platform's line never shares its colour with any other key's line. */
  lemma PlatformColorsDistinct(k1: string, k2: string)
    requires HasPlatformColor(k1) && k1 != k2
    ensures LineColor(k1) != LineColor(k2)
  {
  }

  /** One line per series key, in key order, each with its colour. */
  function Lines(a: Analytics): (ls: seq<(string, string)>)
    ensures |ls| == |SeriesKeys(a)|
    ensures forall i :: 0 <= i < |ls| ==> ls[i] == (SeriesKeys(a)[i], LineColor(SeriesKeys(a)[i]))
  {
    MapSeq(SeriesKeys(a), (k: string) => (k, LineColor(k)))
  }

  /** Every row carries a cell for exactly the series that are drawn. */
  lemma RowsMatchLines(a: Analytics, platform: string, i: nat)
    requires ToChartData(a, platform).Some? && i < |ToChartData(a, platform).value|
    ensures |ToChartData(a, platform).value[i].cells| == |Lines(a)|
  {
  }
}
