/** The cleaning steps of the one-off preparation script
    (app/preprocessing.py): the column check, operator-name normalisation and
    the metropolitan-France bounding box. */
module Preprocessing {
  import opened Seqs
  import opened Text
  import opened Config
  import opened Datastore

  /** Columns the raw CSV must have. */
  const RequiredColumns: set<string> := {"Operateur", "x", "y", "2G", "3G", "4G"}

  /** Outcome of `validate_data`: it returns nothing, or raises a
      `ValueError` naming the missing columns. */
  datatype Validation = Passed | MissingColumns(missing: set<string>)

  /** `validate_data(df)`, given the frame's column names. */
  function ValidateData(columns: set<string>): (v: Validation)
    ensures v.Passed? <==> forall c :: c in RequiredColumns ==> c in columns
    ensures v.MissingColumns? ==> v.missing != {} && v.missing <= RequiredColumns
    ensures v.MissingColumns? ==> forall c :: c in v.missing <==> c in RequiredColumns && c !in columns
  {
    var missing := RequiredColumns - columns;
    if missing != {} then MissingColumns(missing)
    else
      assert forall c :: c in RequiredColumns ==> c in columns by {
        forall c | c in RequiredColumns ensures c in columns {
          assert c !in columns ==> c in missing;
        }
      }
      Passed
  }

  /** A row of the raw table once its columns are renamed: operator name,
      Lambert-93 coordinates and the three technology columns. */
  datatype Site = Site(operator: string, x: real, y: real, is2g: int, is3g: int, is4g: int)

  /** `[op.lower() for op in OPERATORS]`. */
  function ValidOperators(): (ops: seq<string>)
    ensures ops == Operators
  {
    OperatorsLowercase();
    seq(|Operators|, i requires 0 <= i < |Operators| => Lower(Operators[i]))
  }

  /** The operator column after `.str.lower()`. */
  function LowerOperators(rows: seq<Site>): (r: seq<Site>)
    ensures |r| == |rows|
    ensures forall i :: 0 <= i < |rows| ==> r[i] == rows[i].(operator := Lower(rows[i].operator))
  {
    seq(|rows|, i requires 0 <= i < |rows| => rows[i].(operator := Lower(rows[i].operator)))
  }

  /** `df[df['operator'].isin(valid_operators)]`. */
  function KeepConfigured(rows: seq<Site>): seq<Site> {
    Filter((row: Site) => row.operator in ValidOperators(), rows)
  }

  /** What `clean_operator_names` returns for a table. */
  function CleanedRows(rows: seq<Site>): seq<Site> {
    KeepConfigured(LowerOperators(rows))
  }

  /** `clean_operator_names(df)`: lowercases the operator column of the
      caller's frame in place, then returns the rows whose operator is one of
      the configured operators. */
  method CleanOperatorNames(frame: array<Site>) returns (kept: seq<Site>)
    modifies frame
    ensures frame[..] == LowerOperators(old(frame[..]))
    ensures kept == CleanedRows(old(frame[..]))
  {
    for i := 0 to frame.Length
      invariant forall k :: 0 <= k < i ==> frame[k] == old(frame[k]).(operator := Lower(old(frame[k]).operator))
      invariant forall k :: i <= k < frame.Length ==> frame[k] == old(frame[k])
    {
      frame[i] := frame[i].(operator := Lower(frame[i].operator));
    }
    assert frame[..] == LowerOperators(old(frame[..]));
    kept := KeepConfigured(frame[..]);
  }

  /** Every remaining row names a configured operator, already in lower
      case; a row is kept, with its operator lowercased, exactly when its
      lowercased operator is configured. */
  lemma CleanedRowsConfigured(rows: seq<Site>)
    ensures forall r :: r in CleanedRows(rows) ==> r.operator in Operators && IsLower(r.operator)
    ensures forall i :: 0 <= i < |rows| ==>
      (LowerOperators(rows)[i] in CleanedRows(rows) <==> Lower(rows[i].operator) in Operators)
  {
    OperatorsLowercase();
    forall r | r in CleanedRows(rows) ensures IsLower(r.operator) {
      var k :| 0 <= k < |Operators| && Operators[k] == r.operator;
    }
    forall i | 0 <= i < |rows|
      ensures LowerOperators(rows)[i] in CleanedRows(rows) <==> Lower(rows[i].operator) in Operators
    {
      assert LowerOperators(rows)[i] in LowerOperators(rows);
    }
  }

  /** Cleaning keeps rows in order: cleaning a concatenation cleans each
      part. */
  lemma CleanedRowsAppend(a: seq<Site>, b: seq<Site>)
    ensures CleanedRows(a + b) == CleanedRows(a) + CleanedRows(b)
  {
    assert LowerOperators(a + b) == LowerOperators(a) + LowerOperators(b);
    FilterAppend((row: Site) => row.operator in ValidOperators(), LowerOperators(a), LowerOperators(b));
  }

  /** Number of rows whose lowercased operator is not configured. */
  function Unconfigured(rows: seq<Site>): nat {
    if rows == [] then 0
    else (if Lower(rows[0].operator) in Operators then 0 else 1) + Unconfigured(rows[1..])
  }

  /** The number of rows cleaning drops (`initial_count - len(df)`) is the
      number whose lowercased operator is not configured. */
  lemma {:induction false} CleanedRowsDropped(rows: seq<Site>)
    ensures |rows| - |CleanedRows(rows)| == Unconfigured(rows)
    decreases |rows|
  {
    if rows != [] {
      CleanedRowsDropped(rows[1..]);
      assert LowerOperators(rows)[1..] == LowerOperators(rows[1..]);
    }
  }

  /** Cleaning an already cleaned table changes nothing. */
  lemma CleanedRowsIdempotent(rows: seq<Site>)
    ensures CleanedRows(CleanedRows(rows)) == CleanedRows(rows)
  {
    var c := CleanedRows(rows);
    CleanedRowsConfigured(rows);
    assert LowerOperators(c) == c by {
      forall i | 0 <= i < |c| ensures LowerOperators(c)[i] == c[i] {
        assert c[i] in c;
        LowerFacts(c[i].operator);
      }
    }
    FilterKeepsAll((row: Site) => row.operator in ValidOperators(), c);
  }

  /** `FRANCE_BOUNDS`. */
  const MinLat: real := 41.0
  const MaxLat: real := 52.0
  const MinLon: real := -5.0
  const MaxLon: real := 10.0

  /** The `invalid_coords` mask of one row. */
  predicate OutOfBounds(row: Tower) {
    row.lat < MinLat || row.lat > MaxLat || row.lon < MinLon || row.lon > MaxLon
  }

  /** `validate_coordinates(df)`: when some row is out of bounds, the rows
      that are not; otherwise the frame itself. */
  function ValidateCoordinates(rows: seq<Tower>): (r: seq<Tower>)
    ensures |r| <= |rows|
    ensures forall t :: t in r <==> t in rows && MinLat <= t.lat <= MaxLat && MinLon <= t.lon <= MaxLon
    ensures (forall i :: 0 <= i < |rows| ==> !OutOfBounds(rows[i])) ==> r == rows
  {
    if exists i :: 0 <= i < |rows| && OutOfBounds(rows[i]) then
      Filter((row: Tower) => !OutOfBounds(row), rows)
    else
      rows
  }

  /** The bounding-box filter keeps rows in order, and applying it twice
      filters nothing more. */
  lemma ValidateCoordinatesOrderAndIdempotent(a: seq<Tower>, b: seq<Tower>)
    ensures ValidateCoordinates(a + b) == Filter((row: Tower) => !OutOfBounds(row), a) + Filter((row: Tower) => !OutOfBounds(row), b)
    ensures ValidateCoordinates(ValidateCoordinates(a)) == ValidateCoordinates(a)
  {
    var keep := (row: Tower) => !OutOfBounds(row);
    FilterAppend(keep, a, b);
    if !exists i :: 0 <= i < |a + b| && OutOfBounds((a + b)[i]) {
      forall i | 0 <= i < |a| ensures keep(a[i]) {
        assert (a + b)[i] == a[i];
      }
      forall i | 0 <= i < |b| ensures keep(b[i]) {
        assert (a + b)[|a| + i] == b[i];
      }
      FilterKeepsAll(keep, a);
      FilterKeepsAll(keep, b);
    }
    var v := ValidateCoordinates(a);
    assert forall i :: 0 <= i < |v| ==> !OutOfBounds(v[i]) by {
      forall i | 0 <= i < |v| ensures !OutOfBounds(v[i]) {
        assert v[i] in v;
      }
    }
  }
}
