/** Distance and travel-time matrices and route lengths over them
    (vrp_solver/utils/distance.py). The great-circle and Manhattan formulas
    need trigonometry, so they are parameters of the model. */
module Distance {
  import opened Common

  /** `{from_id: {to_id: value}}`. */
  type Matrix = map<string, map<string, real>>

  /** `matrix.get(a, {}).get(b, 0)`: a missing entry reads as 0. */
  function Get(m: Matrix, a: string, b: string): real
  {
    if a in m && b in m[a] then m[a][b] else 0.0
  }

  /** The matrix has an entry from `a` to `b`. */
  predicate Has(m: Matrix, a: string, b: string)
  {
    a in m && b in m[a]
  }

  /** Sum of the legs between consecutive locations of `ids`. */
  function Legs(ids: seq<string>, m: Matrix): real
  {
    if |ids| <= 1 then 0.0 else Legs(ids[..|ids| - 1], m) + Get(m, ids[|ids| - 2], ids[|ids| - 1])
  }

  /** Length of the closed tour depot, ids..., depot; an empty tour has length 0. */
  function RouteDistance(ids: seq<string>, m: Matrix, depot: string): real
  {
    if ids == [] then 0.0 else Get(m, depot, ids[0]) + Legs(ids, m) + Get(m, ids[|ids| - 1], depot)
  }

  /** `calculate_route_distance`: depot to the first location, each consecutive leg,
      the last location back to the depot. */
  method CalculateRouteDistance(ids: seq<string>, m: Matrix, depot: string) returns (total: real)
    ensures total == RouteDistance(ids, m, depot)
  {
    if ids == [] {
      return 0.0;
    }
    total := 0.0;
    total := total + Get(m, depot, ids[0]);
    var i := 0;
    while i < |ids| - 1
      invariant 0 <= i <= |ids| - 1
      invariant total == Get(m, depot, ids[0]) + Legs(ids[..i + 1], m)
    {
      assert ids[..i + 2][..i + 1] == ids[..i + 1];
      total := total + Get(m, ids[i], ids[i + 1]);
      i := i + 1;
    }
    assert ids[..i + 1] == ids;
    total := total + Get(m, ids[|ids| - 1], depot);
  }

  /** The legs of a concatenation: those of each part plus the leg joining them. */
  lemma {:induction false} LegsConcat(a: seq<string>, b: seq<string>, m: Matrix)
    requires a != [] && b != []
    ensures Legs(a + b, m) == Legs(a, m) + Get(m, a[|a| - 1], b[0]) + Legs(b, m)
  {
    if |b| == 1 {
      assert (a + b)[..|a + b| - 1] == a;
      assert Legs(b, m) == 0.0;
    } else {
      var b' := b[..|b| - 1];
      assert (a + b)[..|a + b| - 1] == a + b';
      LegsConcat(a, b', m);
    }
  }

  /** Reversing a tour does not change its length when the matrix is symmetric. */
  lemma {:induction false} LegsReversed(ids: seq<string>, m: Matrix)
    requires forall a, b :: Get(m, a, b) == Get(m, b, a)
    ensures Legs(Reverse(ids), m) == Legs(ids, m)
    decreases |ids|
  {
    if |ids| > 1 {
      var init := ids[..|ids| - 1];
      var last := ids[|ids| - 1];
      assert ids == init + [last];
      assert Reverse(ids) == [last] + Reverse(init);
      ReverseFacts(init);
      LegsConcat([last], Reverse(init), m);
      LegsReversed(init, m);
      assert Legs([last], m) == 0.0;
    }
  }

  /** A tour and its reverse have the same length over a symmetric matrix. */
  lemma RouteDistanceReversed(ids: seq<string>, m: Matrix, depot: string)
    requires forall a, b :: Get(m, a, b) == Get(m, b, a)
    ensures RouteDistance(Reverse(ids), m, depot) == RouteDistance(ids, m, depot)
  {
    LegsReversed(ids, m);
  }

  /** The distance between two different locations under the chosen formula:
      "manhattan" selects the Manhattan estimate, any other name the great-circle one. */
  function PairDistance(metric: string, haversine: (real, real, real, real) -> real,
                        manhattan: (real, real, real, real) -> real,
                        p: (real, real), q: (real, real)): real
  {
    if metric == "manhattan" then manhattan(p.0, p.1, q.0, q.1) else haversine(p.0, p.1, q.0, q.1)
  }

  /** One row of `build_distance_matrix`: 0 to itself, the formula to every other location. */
  function DistanceRow(locations: map<string, (real, real)>, a: string, metric: string,
                       haversine: (real, real, real, real) -> real,
                       manhattan: (real, real, real, real) -> real): map<string, real>
    requires a in locations
  {
    map b | b in locations :: if a == b then 0.0 else PairDistance(metric, haversine, manhattan, locations[a], locations[b])
  }

  /** The full matrix `build_distance_matrix` produces. */
  function DistanceMatrixOf(locations: map<string, (real, real)>, metric: string,
                            haversine: (real, real, real, real) -> real,
                            manhattan: (real, real, real, real) -> real): Matrix
  {
    map a | a in locations :: DistanceRow(locations, a, metric, haversine, manhattan)
  }

  /** The inner loop of `build_distance_matrix`: the row of location a. */
  method BuildRow(locations: map<string, (real, real)>, a: string, metric: string,
                  haversine: (real, real, real, real) -> real,
                  manhattan: (real, real, real, real) -> real) returns (row: map<string, real>)
    requires a in locations
    ensures row == DistanceRow(locations, a, metric, haversine, manhattan)
  {
    ghost var want := DistanceRow(locations, a, metric, haversine, manhattan);
    row := map[];
    var cols := locations.Keys;
    while cols != {}
      invariant cols <= locations.Keys
      invariant row.Keys == locations.Keys - cols
      invariant forall b :: b in row ==> row[b] == want[b]
      decreases cols
    {
      var b :| b in cols;
      if a == b {
        row := row[b := 0.0];
      } else {
        row := row[b := PairDistance(metric, haversine, manhattan, locations[a], locations[b])];
      }
      cols := cols - {b};
    }
  }

  /** `build_distance_matrix`: one row per location, one column per location, 0 on the diagonal. */
  method BuildDistanceMatrix(locations: map<string, (real, real)>, metric: string,
                             haversine: (real, real, real, real) -> real,
                             manhattan: (real, real, real, real) -> real) returns (matrix: Matrix)
    ensures matrix == DistanceMatrixOf(locations, metric, haversine, manhattan)
  {
    matrix := map[];
    var todo := locations.Keys;
    while todo != {}
      invariant todo <= locations.Keys
      invariant matrix.Keys == locations.Keys - todo
      invariant forall a :: a in matrix ==> a in locations && matrix[a] == DistanceRow(locations, a, metric, haversine, manhattan)
      decreases todo
    {
      var a :| a in todo;
      var row := BuildRow(locations, a, metric, haversine, manhattan);
      matrix := matrix[a := row];
      todo := todo - {a};
    }
    MatrixOfRows(locations, metric, haversine, manhattan, matrix);
  }

  lemma MatrixOfRows(locations: map<string, (real, real)>, metric: string,
                     haversine: (real, real, real, real) -> real,
                     manhattan: (real, real, real, real) -> real, matrix: Matrix)
    requires matrix.Keys == locations.Keys
    requires forall a :: a in matrix ==> a in locations && matrix[a] == DistanceRow(locations, a, metric, haversine, manhattan)
    ensures matrix == DistanceMatrixOf(locations, metric, haversine, manhattan)
  {
  }

  /** Every location is at distance 0 from itself, and a symmetric formula gives a symmetric matrix. */
  lemma DistanceMatrixShape(locations: map<string, (real, real)>, metric: string,
                            haversine: (real, real, real, real) -> real,
                            manhattan: (real, real, real, real) -> real, a: string, b: string)
    requires a in locations && b in locations
    requires forall p: (real, real), q: (real, real) :: haversine(p.0, p.1, q.0, q.1) == haversine(q.0, q.1, p.0, p.1)
    requires forall p: (real, real), q: (real, real) :: manhattan(p.0, p.1, q.0, q.1) == manhattan(q.0, q.1, p.0, p.1)
    ensures Has(DistanceMatrixOf(locations, metric, haversine, manhattan), a, b)
    ensures Get(DistanceMatrixOf(locations, metric, haversine, manhattan), a, a) == 0.0
    ensures Get(DistanceMatrixOf(locations, metric, haversine, manhattan), a, b)
         == Get(DistanceMatrixOf(locations, metric, haversine, manhattan), b, a)
  {
    var m := DistanceMatrixOf(locations, metric, haversine, manhattan);
    var ra, rb := DistanceRow(locations, a, metric, haversine, manhattan), DistanceRow(locations, b, metric, haversine, manhattan);
    assert m[a] == ra && m[b] == rb;
    if a != b {
      var p, q := locations[a], locations[b];
      assert ra[b] == PairDistance(metric, haversine, manhattan, p, q);
      assert rb[a] == PairDistance(metric, haversine, manhattan, q, p);
      PairDistanceSymmetric(metric, haversine, manhattan, p, q);
    }
  }

  /** With both formulas symmetric, so is the distance between two points. */
  lemma PairDistanceSymmetric(metric: string, haversine: (real, real, real, real) -> real,
                              manhattan: (real, real, real, real) -> real, p: (real, real), q: (real, real))
    requires forall p: (real, real), q: (real, real) :: haversine(p.0, p.1, q.0, q.1) == haversine(q.0, q.1, p.0, p.1)
    requires forall p: (real, real), q: (real, real) :: manhattan(p.0, p.1, q.0, q.1) == manhattan(q.0, q.1, p.0, p.1)
    ensures PairDistance(metric, haversine, manhattan, p, q) == PairDistance(metric, haversine, manhattan, q, p)
  {
    assert haversine(p.0, p.1, q.0, q.1) == haversine(q.0, q.1, p.0, p.1);
    assert manhattan(p.0, p.1, q.0, q.1) == manhattan(q.0, q.1, p.0, p.1);
  }

  /** A distance in km as minutes of driving at a constant speed. */
  function Minutes(distanceKm: real, speedKmh: real): real
    requires speedKmh != 0.0
  {
    distanceKm / speedKmh * 60.0
  }

  /** One row of `build_time_matrix`. At speed 0 only an empty row can be converted. */
  function TimeRow(row: map<string, real>, speedKmh: real): map<string, real>
  {
    if speedKmh == 0.0 then map[] else map b | b in row :: Minutes(row[b], speedKmh)
  }

  /** The matrix `build_time_matrix` produces. */
  function TimeMatrixOf(dm: Matrix, speedKmh: real): Matrix
  {
    map a | a in dm :: TimeRow(dm[a], speedKmh)
  }

  /** `build_time_matrix`: every distance converted to minutes; in Python a zero speed
      raises ZeroDivisionError at the first entry, which is the `None` result here. */
  method BuildTimeMatrix(dm: Matrix, speedKmh: real) returns (tm: Option<Matrix>)
    ensures tm.None? <==> speedKmh == 0.0 && exists a, b :: Has(dm, a, b)
    ensures tm.Some? ==> tm.value == TimeMatrixOf(dm, speedKmh)
  {
    var result: Matrix := map[];
    var todo := dm.Keys;
    while todo != {}
      invariant todo <= dm.Keys
      invariant result.Keys == dm.Keys - todo
      invariant forall a :: a in result ==> result[a] == TimeRow(dm[a], speedKmh)
      invariant speedKmh == 0.0 ==> forall a :: a in result ==> dm[a] == map[]
      decreases todo
    {
      var a :| a in todo;
      var row: map<string, real> := map[];
      var cols := dm[a].Keys;
      while cols != {}
        invariant cols <= dm[a].Keys
        invariant row.Keys == dm[a].Keys - cols
        invariant speedKmh != 0.0 ==> forall b :: b in row ==> row[b] == Minutes(dm[a][b], speedKmh)
        invariant speedKmh == 0.0 ==> cols == dm[a].Keys
        decreases cols
      {
        var b :| b in cols;
        if speedKmh == 0.0 {
          assert Has(dm, a, b);
          return None;
        }
        row := row[b := Minutes(dm[a][b], speedKmh)];
        cols := cols - {b};
      }
      if speedKmh == 0.0 {
        assert dm[a].Keys == {};
        assert dm[a] == map[];
      }
      assert row == TimeRow(dm[a], speedKmh);
      result := result[a := row];
      todo := todo - {a};
    }
    if speedKmh == 0.0 {
      assert forall a :: a in dm ==> dm[a] == map[];
    }
    assert result == TimeMatrixOf(dm, speedKmh);
    return Some(result);
  }

  lemma MinutesAdd(x: real, y: real, s: real)
    requires s != 0.0
    ensures Minutes(x + y, s) == Minutes(x, s) + Minutes(y, s)
  {
    assert (x + y) / s == x / s + y / s;
  }

  /** Reading the time matrix is converting the distance: a missing entry is 0 in both. */
  lemma TimeEntry(dm: Matrix, speedKmh: real, a: string, b: string)
    requires speedKmh != 0.0
    ensures Get(TimeMatrixOf(dm, speedKmh), a, b) == Minutes(Get(dm, a, b), speedKmh)
  {
    if !Has(dm, a, b) {
      assert 0.0 / speedKmh == 0.0;
    }
  }

  lemma {:induction false} LegsScaled(ids: seq<string>, dm: Matrix, speedKmh: real)
    requires speedKmh != 0.0
    ensures Legs(ids, TimeMatrixOf(dm, speedKmh)) == Minutes(Legs(ids, dm), speedKmh)
    decreases |ids|
  {
    if |ids| > 1 {
      var init := ids[..|ids| - 1];
      LegsScaled(init, dm, speedKmh);
      TimeEntry(dm, speedKmh, ids[|ids| - 2], ids[|ids| - 1]);
      MinutesAdd(Legs(init, dm), Get(dm, ids[|ids| - 2], ids[|ids| - 1]), speedKmh);
    } else {
      assert 0.0 / speedKmh == 0.0;
    }
  }

  /** Travel time along a tour over the built time matrix is its length converted at that speed. */
  lemma RouteTimeIsScaledDistance(ids: seq<string>, dm: Matrix, depot: string, speedKmh: real)
    requires speedKmh != 0.0
    ensures RouteDistance(ids, TimeMatrixOf(dm, speedKmh), depot) == Minutes(RouteDistance(ids, dm, depot), speedKmh)
  {
    if ids != [] {
      var first, legs, back := Get(dm, depot, ids[0]), Legs(ids, dm), Get(dm, ids[|ids| - 1], depot);
      LegsScaled(ids, dm, speedKmh);
      TimeEntry(dm, speedKmh, depot, ids[0]);
      TimeEntry(dm, speedKmh, ids[|ids| - 1], depot);
      MinutesAdd(first, legs, speedKmh);
      MinutesAdd(first + legs, back, speedKmh);
    } else {
      assert 0.0 / speedKmh == 0.0;
    }
  }
}
