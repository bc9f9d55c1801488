/** The coverage matrix of one point (app/coverage.py): for every configured
    operator and every technology, whether the point is covered. */
module Coverage {
  import opened Config
  import opened Seqs
  import opened Datastore

  /** The technologies reported for each operator. */
  const Techs: seq<string> := ["2G", "3G", "4G"]

  /** operator -> technology -> covered. */
  type Matrix = map<string, map<string, bool>>

  /** The inner dictionary of one operator. */
  function TechCoverage(trees: Index, dist: Distance, lat: real, lon: real, op: string): (row: map<string, bool>)
    requires WellFormed(trees)
  {
    map tech | tech in Techs :: Covered(trees, dist, lat, lon, op, tech)
  }

  /** The matrix `compute_coverage` returns for (lat, lon). */
  function CoverageMatrix(trees: Index, dist: Distance, lat: real, lon: real): (res: Matrix)
    requires WellFormed(trees)
  {
    map op | op in Operators :: TechCoverage(trees, dist, lat, lon, op)
  }

  /** `compute_coverage(lat, lon)` over the loaded index: fill one operator
      at a time. The outer keys are the configured operators, each inner map
      has exactly the keys 2G, 3G and 4G, and each cell is the answer of the
      query for that pair. */
  method ComputeCoverage(trees: Index, dist: Distance, lat: real, lon: real) returns (res: Matrix)
    requires WellFormed(trees)
    ensures res.Keys == set op | op in Operators
    ensures forall op :: op in res ==> res[op].Keys == {"2G", "3G", "4G"}
    ensures forall op, tech :: op in res && tech in res[op] ==> res[op][tech] == Covered(trees, dist, lat, lon, op, tech)
    ensures res == CoverageMatrix(trees, dist, lat, lon)
  {
    res := map[];
    for i := 0 to |Operators|
      invariant res == map op | op in Operators[..i] :: TechCoverage(trees, dist, lat, lon, op)
    {
      var op := Operators[i];
      assert Operators[..i + 1] == Operators[..i] + [op];
      res := res[op := TechCoverage(trees, dist, lat, lon, op)];
    }
    assert Operators[..|Operators|] == Operators;
    MatrixShape(trees, dist, lat, lon);
  }

  /** Number of cells of a matrix. */
  function Cells(res: Matrix, ops: seq<string>): nat
    requires forall k :: 0 <= k < |ops| ==> ops[k] in res
  {
    if ops == [] then 0 else |res[ops[0]]| + Cells(res, ops[1..])
  }

  /** Number of true cells of a matrix, counted over the technologies. */
  function CoveredCells(res: Matrix, ops: seq<string>): (n: nat)
    requires forall k :: 0 <= k < |ops| ==> ops[k] in res
    ensures n <= |Techs| * |ops|
    decreases |ops|
  {
    if ops == [] then 0
    else
      var row := res[ops[0]];
      Count((tech: string) => tech in row && row[tech], Techs) + CoveredCells(res, ops[1..])
  }

  /** One operator's true cells, counted over distinct technologies, are at
      most the keys of its row that are among those technologies. */
  lemma {:induction false} RowCoveredCells(row: map<string, bool>, techs: seq<string>, keys: set<string>)
    requires forall i, j :: 0 <= i < j < |techs| ==> techs[i] != techs[j]
    requires forall i :: 0 <= i < |techs| && techs[i] in row ==> techs[i] in keys
    ensures Count((tech: string) => tech in row && row[tech], techs) <= |keys|
    decreases |techs|
  {
    if techs != [] {
      var t := techs[0];
      if t in row {
        RowCoveredCells(row, techs[1..], keys - {t});
      } else {
        RowCoveredCells(row, techs[1..], keys);
      }
    }
  }

  /** True cells are at most the cells of the matrix. */
  lemma {:induction false} CoveredCellsAtMostCells(res: Matrix, ops: seq<string>)
    requires forall k :: 0 <= k < |ops| ==> ops[k] in res
    ensures CoveredCells(res, ops) <= Cells(res, ops)
    decreases |ops|
  {
    if ops != [] {
      var row := res[ops[0]];
      RowCoveredCells(row, Techs, row.Keys);
      assert |row.Keys| == |row|;
      CoveredCellsAtMostCells(res, ops[1..]);
    }
  }

  /** The shape of the matrix: one entry per configured operator, each with
      exactly the three technologies. */
  lemma MatrixShape(trees: Index, dist: Distance, lat: real, lon: real)
    requires WellFormed(trees)
    ensures CoverageMatrix(trees, dist, lat, lon).Keys == set op | op in Operators
    ensures forall op :: op in Operators ==> CoverageMatrix(trees, dist, lat, lon)[op].Keys == {"2G", "3G", "4G"}
    ensures forall op, tech :: op in Operators && tech in CoverageMatrix(trees, dist, lat, lon)[op] ==>
      CoverageMatrix(trees, dist, lat, lon)[op][tech] == Covered(trees, dist, lat, lon, op, tech)
  {
  }

  /** A matrix whose rows all have `n` cells has `n` cells per operator. */
  lemma {:induction false} CellsUniform(res: Matrix, ops: seq<string>, n: nat)
    requires forall k :: 0 <= k < |ops| ==> ops[k] in res && |res[ops[k]]| == n
    ensures Cells(res, ops) == n * |ops|
    decreases |ops|
  {
    if ops != [] {
      CellsUniform(res, ops[1..], n);
    }
  }

  /** The matrix holds |operators| x |technologies| = 12 booleans, so at
      most 12 of them are true. */
  lemma MatrixHasTwelveCells(trees: Index, dist: Distance, lat: real, lon: real)
    requires WellFormed(trees)
    ensures forall k :: 0 <= k < |Operators| ==> Operators[k] in CoverageMatrix(trees, dist, lat, lon)
    ensures Cells(CoverageMatrix(trees, dist, lat, lon), Operators) == 12
    ensures CoveredCells(CoverageMatrix(trees, dist, lat, lon), Operators) <= 12
  {
    var res := CoverageMatrix(trees, dist, lat, lon);
    MatrixShape(trees, dist, lat, lon);
    var techSet: set<string> := {"2G", "3G", "4G"};
    assert |techSet| == 3;
    forall k | 0 <= k < |Operators| ensures Operators[k] in res && |res[Operators[k]]| == 3 {
      assert res[Operators[k]].Keys == techSet;
    }
    CellsUniform(res, Operators, 3);
    CoveredCellsAtMostCells(res, Operators);
  }
}
