/** The transmitter index and the coverage query (app/datastore.py).

    The prepared table is split by operator and by technology flag into one
    group of points per (operator, technology); a point is covered when some
    transmitter of the group lies within the technology's radius. The
    haversine metric and the ball tree are abstracted: distances come from a
    parameter `dist` that is non-negative, symmetric and zero from a point to
    itself, and the tree's radius query is a scan for a point at distance at
    most the radius. */
module Datastore {
  import opened Wrappers
  import opened Seqs
  import opened Config

  /** Mean Earth radius used to turn kilometres into radians. */
  const EarthRadiusKm: real := 6371.0

  /** A row of the prepared table: operator name, WGS84 coordinates in
      degrees, and the three technology columns (1 when supported). */
  datatype Tower = Tower(operator: string, lat: real, lon: real, is2g: int, is3g: int, is4g: int)

  /** A (latitude, longitude) pair as stored in an index. */
  datatype Point = Point(lat: real, lon: real)

  /** Great-circle distance between two points, as an angle in radians. */
  type Distance = (Point, Point) -> real

  /** What the model assumes of the haversine metric. */
  ghost predicate IsDistance(dist: Distance) {
    && (forall p, q :: dist(p, q) >= 0.0)
    && (forall p, q :: dist(p, q) == dist(q, p))
    && (forall p :: dist(p, p) == 0.0)
  }

  /** The index: one sequence of points per (operator, technology). */
  type Index = map<(string, string), seq<Point>>

  /** Technologies the builder groups by, each paired with its column. */
  const IndexedTechs: seq<string> := ["2G", "3G", "4G"]

  /** `row[col] == 1` for the column of `tech`; no column for any other name. */
  predicate Supports(row: Tower, tech: string) {
    match tech
    case "2G" => row.is2g == 1
    case "3G" => row.is3g == 1
    case "4G" => row.is4g == 1
    case _ => false
  }

  /** `df[["lat", "lon"]]` as points, row by row. */
  function Coordinates(rows: seq<Tower>): (pts: seq<Point>)
    ensures |pts| == |rows|
    ensures forall i :: 0 <= i < |rows| ==> pts[i] == Point(rows[i].lat, rows[i].lon)
  {
    seq(|rows|, i requires 0 <= i < |rows| => Point(rows[i].lat, rows[i].lon))
  }

  /** The rows of one operator: `df[df["operator"] == op]`. */
  function OperatorRows(table: seq<Tower>, op: string): seq<Tower> {
    Filter((row: Tower) => row.operator == op, table)
  }

  /** The points indexed for (op, tech): coordinates of the operator's rows
      whose flag for `tech` is 1, in table order. */
  function Group(table: seq<Tower>, op: string, tech: string): seq<Point> {
    Coordinates(Filter((row: Tower) => Supports(row, tech), OperatorRows(table, op)))
  }

  /** Column `operator` of the table. */
  function OperatorColumn(table: seq<Tower>): (col: seq<string>)
    ensures |col| == |table|
    ensures forall i :: 0 <= i < |table| ==> col[i] == table[i].operator
  {
    seq(|table|, i requires 0 <= i < |table| => table[i].operator)
  }

  /** `Series.unique()`: each value of the column once. */
  function Unique(s: seq<string>): (u: seq<string>)
    ensures forall x :: x in u <==> x in s
    ensures Distinct(u)
    decreases |s|
  {
    if s == [] then []
    else
      var u := Unique(s[..|s| - 1]);
      assert forall x :: x in s <==> x in s[..|s| - 1] || x == s[|s| - 1] by {
        assert s == s[..|s| - 1] + [s[|s| - 1]];
      }
      if s[|s| - 1] in u then u else u + [s[|s| - 1]]
  }

  /** The keys the builder can produce: an operator of the table with one of
      the three technologies. */
  function Candidates(table: seq<Tower>): set<(string, string)> {
    set i, tech | 0 <= i < |table| && tech in IndexedTechs :: (table[i].operator, tech)
  }

  /** The index `_load_trees` builds: an entry for every non-empty group. */
  function Trees(table: seq<Tower>): Index {
    map key | key in Candidates(table) && Group(table, key.0, key.1) != [] :: Group(table, key.0, key.1)
  }

  /** A point lies in a group exactly when some row of the operator has the
      technology's flag set and sits at that point. */
  lemma GroupMembers(table: seq<Tower>, op: string, tech: string, p: Point)
    ensures p in Group(table, op, tech) <==>
      exists i :: 0 <= i < |table| && table[i].operator == op && Supports(table[i], tech)
                  && p == Point(table[i].lat, table[i].lon)
  {
    var rows := Filter((row: Tower) => Supports(row, tech), OperatorRows(table, op));
    if p in Group(table, op, tech) {
      var k :| 0 <= k < |rows| && Group(table, op, tech)[k] == p;
      assert rows[k] in table;
      var i :| 0 <= i < |table| && table[i] == rows[k];
    } else {
      forall i | 0 <= i < |table| && table[i].operator == op && Supports(table[i], tech)
        ensures p != Point(table[i].lat, table[i].lon)
      {
        assert table[i] in OperatorRows(table, op);
        assert table[i] in rows;
        var k :| 0 <= k < |rows| && rows[k] == table[i];
        assert Group(table, op, tech)[k] == Point(table[i].lat, table[i].lon);
      }
    }
  }

  /** Groups follow the table: the group of a concatenation is the
      concatenation of the groups, so order and duplicates are kept. */
  lemma GroupAppend(a: seq<Tower>, b: seq<Tower>, op: string, tech: string)
    ensures Group(a + b, op, tech) == Group(a, op, tech) + Group(b, op, tech)
  {
    FilterAppend((row: Tower) => row.operator == op, a, b);
    FilterAppend((row: Tower) => Supports(row, tech), OperatorRows(a, op), OperatorRows(b, op));
  }

  /** The index has an entry for (op, tech) exactly when some row of `op`
      has the flag of `tech` set, and that entry is the group. */
  lemma TreesKeys(table: seq<Tower>, op: string, tech: string)
    ensures (op, tech) in Trees(table) <==>
      exists i :: 0 <= i < |table| && table[i].operator == op && Supports(table[i], tech)
    ensures (op, tech) in Trees(table) ==> Trees(table)[(op, tech)] == Group(table, op, tech)
    ensures (op, tech) in Trees(table) ==> op in OperatorColumn(table) && tech in Radii
  {
    if exists i :: 0 <= i < |table| && table[i].operator == op && Supports(table[i], tech) {
      var i :| 0 <= i < |table| && table[i].operator == op && Supports(table[i], tech);
      GroupMembers(table, op, tech, Point(table[i].lat, table[i].lon));
      assert tech in IndexedTechs;
      assert (op, tech) in Candidates(table);
    } else if (op, tech) in Trees(table) {
      var p := Group(table, op, tech)[0];
      GroupMembers(table, op, tech, p);
    }
    if (op, tech) in Trees(table) {
      var i, t :| 0 <= i < |table| && t in IndexedTechs && (table[i].operator, t) == (op, tech);
      assert OperatorColumn(table)[i] == op;
    }
  }

  /** Every key of a built index names a configured technology. */
  ghost predicate WellFormed(trees: Index) {
    forall key :: key in trees ==> key.1 in Radii
  }

  lemma TreesWellFormed(table: seq<Tower>)
    ensures WellFormed(Trees(table))
  {
    forall key | key in Trees(table) ensures key.1 in Radii {
      TreesKeys(table, key.0, key.1);
    }
  }

  /** An empty table gives an empty index. */
  lemma EmptyTable()
    ensures Trees([]) == map[]
  {
    assert Candidates([]) == {};
  }

  /** The body of `_load_trees` after the table is read: for each operator in
      order of appearance and each technology, store the non-empty groups. */
  method BuildTrees(table: seq<Tower>) returns (trees: Index)
    ensures trees == Trees(table)
  {
    trees := map[];
    var ops := Unique(OperatorColumn(table));
    for i := 0 to |ops|
      invariant forall key :: key in trees <==>
        key.0 in ops[..i] && key.1 in IndexedTechs && Group(table, key.0, key.1) != []
      invariant forall key :: key in trees ==> trees[key] == Group(table, key.0, key.1)
    {
      var op := ops[i];
      var sub := OperatorRows(table, op);
      for j := 0 to |IndexedTechs|
        invariant forall key :: key in trees <==>
          (key.0 in ops[..i] || (key.0 == op && key.1 in IndexedTechs[..j]))
          && key.1 in IndexedTechs && Group(table, key.0, key.1) != []
        invariant forall key :: key in trees ==> trees[key] == Group(table, key.0, key.1)
      {
        var tech := IndexedTechs[j];
        var rows := Coordinates(Filter((row: Tower) => Supports(row, tech), sub));
        if |rows| > 0 {
          trees := trees[(op, tech) := rows];
        }
      }
      assert ops[..i + 1] == ops[..i] + [op];
    }
    assert ops[..|ops|] == ops;
    TreesOfAllOperators(table, trees);
  }

  /** A map holding the non-empty groups of every operator of the table is
      the index of the table. */
  lemma TreesOfAllOperators(table: seq<Tower>, trees: Index)
    requires forall key :: key in trees <==>
      key.0 in OperatorColumn(table) && key.1 in IndexedTechs && Group(table, key.0, key.1) != []
    requires forall key :: key in trees ==> trees[key] == Group(table, key.0, key.1)
    ensures trees == Trees(table)
  {
    forall key ensures key in trees <==> key in Trees(table) {
      if key.1 in IndexedTechs && key.0 in OperatorColumn(table) {
        var i :| 0 <= i < |table| && OperatorColumn(table)[i] == key.0;
        assert key in Candidates(table);
      }
      if key in Candidates(table) {
        var i, t :| 0 <= i < |table| && t in IndexedTechs && (table[i].operator, t) == key;
        assert OperatorColumn(table)[i] == key.0;
      }
    }
  }

  /** The query radius for `tech`, in radians: kilometres over Earth's radius. */
  function Radius(tech: string): (r: real)
    requires tech in Radii
    ensures r > 0.0
  {
    Radii[tech] as real / EarthRadiusKm
  }

  /** The ball tree's radius query reduced to its answer: is some stored
      point within distance `r` of `q`? */
  function AnyWithin(points: seq<Point>, dist: Distance, q: Point, r: real): (found: bool)
    ensures found <==> exists i :: 0 <= i < |points| && dist(q, points[i]) <= r
    decreases |points|
  {
    if points == [] then false
    else if dist(q, points[0]) <= r then true
    else
      var rest := AnyWithin(points[1..], dist, q, r);
      assert rest ==> exists i :: 1 <= i < |points| && dist(q, points[i]) <= r by {
        if rest {
          var k :| 0 <= k < |points[1..]| && dist(q, points[1..][k]) <= r;
          assert points[k + 1] == points[1..][k];
        }
      }
      assert (exists i :: 1 <= i < |points| && dist(q, points[i]) <= r) ==> rest by {
        if exists i :: 1 <= i < |points| && dist(q, points[i]) <= r {
          var k :| 1 <= k < |points| && dist(q, points[k]) <= r;
          assert points[1..][k - 1] == points[k];
        }
      }
      rest
  }

  /** Enlarging the query radius can only keep a point covered. */
  lemma {:induction false} RadiusMonotone(points: seq<Point>, dist: Distance, q: Point, r1: real, r2: real)
    requires r1 <= r2
    requires AnyWithin(points, dist, q, r1)
    ensures AnyWithin(points, dist, q, r2)
    decreases |points|
  {
    if dist(q, points[0]) > r1 {
      RadiusMonotone(points[1..], dist, q, r1, r2);
    }
  }

  /** `is_covered` once the index is loaded: a missing (operator, tech) entry
      answers false without looking up a radius, so an unknown technology
      raises nothing; otherwise the answer is whether a stored point of the
      group lies within the technology's radius of (lat, lon). */
  function Covered(trees: Index, dist: Distance, lat: real, lon: real, operator: string, tech: string): (covered: bool)
    requires WellFormed(trees)
    ensures (operator, tech) !in trees ==> !covered
    ensures (operator, tech) in trees ==>
      (covered <==> exists i :: 0 <= i < |trees[(operator, tech)]|
                               && dist(Point(lat, lon), trees[(operator, tech)][i]) <= Radius(tech))
  {
    var key := (operator, tech);
    if key !in trees then false
    else AnyWithin(trees[key], dist, Point(lat, lon), Radius(tech))
  }

  /** A query at the exact position of a transmitter of `operator` whose
      flag for `tech` is set is covered: its distance 0 is within any
      positive radius. */
  lemma ExactLocationCovered(table: seq<Tower>, dist: Distance, i: int, tech: string)
    requires IsDistance(dist)
    requires 0 <= i < |table| && Supports(table[i], tech)
    ensures WellFormed(Trees(table))
    ensures Covered(Trees(table), dist, table[i].lat, table[i].lon, table[i].operator, tech)
  {
    TreesWellFormed(table);
    var op, p := table[i].operator, Point(table[i].lat, table[i].lon);
    TreesKeys(table, op, tech);
    GroupMembers(table, op, tech, p);
    var g := Group(table, op, tech);
    var k :| 0 <= k < |g| && g[k] == p;
    assert dist(p, g[k]) == 0.0;
  }

  /** Whatever the query point, an (operator, tech) pair no row supports is
      never covered; in particular nothing is covered over an empty table. */
  lemma AbsentPairNeverCovered(table: seq<Tower>, dist: Distance, lat: real, lon: real, op: string, tech: string)
    requires forall i :: 0 <= i < |table| ==> !(table[i].operator == op && Supports(table[i], tech))
    ensures WellFormed(Trees(table))
    ensures !Covered(Trees(table), dist, lat, lon, op, tech)
  {
    TreesWellFormed(table);
    TreesKeys(table, op, tech);
  }

  /** A point farther than the radius from every transmitter of the group
      (a point in mid-ocean) is not covered. */
  lemma FarPointNotCovered(table: seq<Tower>, dist: Distance, lat: real, lon: real, op: string, tech: string)
    requires tech in Radii
    requires forall i :: 0 <= i < |table| && table[i].operator == op && Supports(table[i], tech) ==>
      dist(Point(lat, lon), Point(table[i].lat, table[i].lon)) > Radius(tech)
    ensures WellFormed(Trees(table))
    ensures !Covered(Trees(table), dist, lat, lon, op, tech)
  {
    TreesWellFormed(table);
    TreesKeys(table, op, tech);
    if (op, tech) in Trees(table) {
      var g := Group(table, op, tech);
      forall k | 0 <= k < |g| ensures dist(Point(lat, lon), g[k]) > Radius(tech) {
        GroupMembers(table, op, tech, g[k]);
      }
    }
  }

  /** One "free" transmitter in central Paris flagged 4G only, 4G radius
      10 km: covered for 4G at its position, not for 2G there, and not for
      4G at a point farther than 10 km. */
  lemma ParisScenario(dist: Distance, farLat: real, farLon: real)
    requires IsDistance(dist)
    requires dist(Point(farLat, farLon), Point(48.8566, 2.3522)) > 10.0 / 6371.0
    ensures WellFormed(Trees([Tower("free", 48.8566, 2.3522, 0, 0, 1)]))
    ensures Covered(Trees([Tower("free", 48.8566, 2.3522, 0, 0, 1)]), dist, 48.8566, 2.3522, "free", "4G")
    ensures !Covered(Trees([Tower("free", 48.8566, 2.3522, 0, 0, 1)]), dist, 48.8566, 2.3522, "free", "2G")
    ensures !Covered(Trees([Tower("free", 48.8566, 2.3522, 0, 0, 1)]), dist, farLat, farLon, "free", "4G")
  {
    var table := [Tower("free", 48.8566, 2.3522, 0, 0, 1)];
    ExactLocationCovered(table, dist, 0, "4G");
    AbsentPairNeverCovered(table, dist, 48.8566, 2.3522, "free", "2G");
    FarPointNotCovered(table, dist, farLat, farLon, "free", "4G");
  }

  /** The process-wide memo around `_load_trees`: the table it reads and the
      cached index, with `cache_clear` to drop it. `builds` counts how often
      the index was actually built. */
  class TreeStore {
    const table: seq<Tower>
    var cache: Option<Index>
    ghost var builds: nat

    /** A cached index is always the index of the table. */
    ghost predicate Valid()
      reads this
    {
      cache.Some? ==> cache.value == Trees(table)
    }

    constructor (table: seq<Tower>)
      ensures Valid()
      ensures this.table == table && cache == None && builds == 0
    {
      this.table := table;
      cache := None;
      builds := 0;
    }

    /** `_load_trees()`: builds on the first call after creation or after
      `CacheClear`, and returns the cached index otherwise. */
    method Load() returns (trees: Index)
      requires Valid()
      modifies this
      ensures Valid()
      ensures trees == Trees(table) && cache == Some(trees)
      ensures old(cache).Some? ==> trees == old(cache).value
      ensures builds == old(builds) + (if old(cache).None? then 1 else 0)
    {
      if cache.Some? {
        trees := cache.value;
      } else {
        trees := BuildTrees(table);
        cache := Some(trees);
        builds := builds + 1;
      }
    }

    /** `_load_trees.cache_clear()`: the next `Load` rebuilds. */
    method CacheClear()
      requires Valid()
      modifies this
      ensures Valid()
      ensures cache == None && builds == old(builds)
    {
      cache := None;
    }

    /** `is_covered(lat, lon, operator, tech)`: load the index (building it
      if need be), then query it. */
    method IsCovered(dist: Distance, lat: real, lon: real, operator: string, tech: string) returns (covered: bool)
      requires Valid()
      modifies this
      ensures Valid() && cache == Some(Trees(table))
      ensures builds == old(builds) + (if old(cache).None? then 1 else 0)
      ensures WellFormed(Trees(table))
      ensures covered == Covered(Trees(table), dist, lat, lon, operator, tech)
    {
      var trees := Load();
      TreesWellFormed(table);
      var key := (operator, tech);
      if key !in trees {
        return false;
      }
      covered := AnyWithin(trees[key], dist, Point(lat, lon), Radius(tech));
    }
  }
}
