# Mobile coverage lookup — a Dafny model

The service answers one question. For a latitude/longitude, which of the four
configured mobile operators (orange, sfr, bouygues, free) cover that point with
2G, 3G or 4G?

It keeps a table of transmitters. Each row has an operator, a position and
three 0/1 technology columns. The table is split into one group of points per
(operator, technology). A point is covered by a pair when some transmitter of
that group lies within the technology's radius: 30 km for 2G, 5 km for 3G and
10 km for 4G, turned into radians by dividing by an Earth radius of 6371 km.

This project models the following, one Dafny module per source file:

- the configuration constants (`Config`);
- the index builder with its process-wide memo, and the coverage query (`Datastore`);
- the 4 × 3 coverage matrix (`Coverage`);
- the data-cleaning filters of the preparation script (`Preprocessing`);
- the result assembly of the `/coverage` endpoint (`CoverageApi`).

Three small helper modules sit in `seqs.dfy`:

- `Wrappers`: an optional value;
- `Seqs`: an order-preserving filter, which is what selecting rows with a boolean mask does;
- `Text`: ASCII lowercasing.

Modelling choices:

- The haversine distance is a parameter `dist: (Point, Point) -> real`. Where a
  proof needs it, `dist` is assumed non-negative and symmetric, and zero from a
  point to itself. This is the predicate `Datastore.IsDistance`. It stands for
  the haversine metric applied to the points converted to radians.
- The ball tree is a plain sequence of points. Its radius query is "some stored
  point is at distance ≤ r".
- The `lru_cache` memo around `_load_trees` is the class `Datastore.TreeStore`.
  It has an optional cached index, `Load` and `CacheClear`, and a ghost counter
  of how many times the index was built.
- Reading the Parquet file is replaced by the table the store is constructed with.
- `compute_coverage` receives the loaded index. In the source it calls
  `is_covered` twelve times, and each call fetches that same memoized index.
- `get_coverage` receives the geocoder's answer for each address as an input.
  The two `asyncio.gather` calls run their tasks one after another, in order,
  which is the order `gather` returns results in.
- The request is a dictionary, so its names are distinct. The model requires
  this.

The model follows three details of the code:

- The index keys use the operators that occur in the table. They are not
  limited to the configured ones.
- A technology flag is selected with `== 1`.
- `is_covered` accepts any operator and any technology. An unknown pair answers
  `false` without a radius lookup, so an unknown technology raises nothing.

Other observations:

- The preparation script never calls `validate_coordinates`. That function is
  annotated `-> None` but returns a frame. It is modelled as written, as a filter
  that returns rows.
- For an address that cannot be geocoded, tests/test_api.py:47-50 expects a 404
  whose `detail` field carries the message. app/main.py instead answers 200 and
  puts an error record under that name in `results`. The model follows
  app/main.py.
- The four tests that send addresses post a bare `{name: address}` object
  (tests/test_api.py:18, 45, 70, 88). `CoverageRequest` requires a `locations` field (app/main.py:24-25),
  so app/main.py would reject those requests with 422 before any geocoding.
- debug_coverage.py calls `is_covered.cache_clear()`. The memo is on
  `_load_trees`, not on `is_covered`.

## Model

| member | source | states |
|---|---|---|
| `Config.RadiiTable` | app/config.py:12 | the radius table has exactly the keys 2G, 3G, 4G, with 30, 5 and 10 km, all positive |
| `Config.OperatorsDistinct` | app/config.py:11 | four operators, pairwise distinct |
| `Config.OperatorsLowercase` | app/config.py:11 | every configured name is lower case, so the lowercased list equals the list |
| `Text.LowerFacts` | app/preprocessing.py:28 | lowercasing yields lower-case text, fixes exactly the lower-case strings and is idempotent |
| `Datastore.Unique` | app/datastore.py:19 | `unique()` lists each operator of the column once and no other value |
| `Datastore.GroupMembers` | app/datastore.py:20-23 | a point is in the (op, tech) group iff some row of op with the tech flag equal to 1 sits at that point |
| `Datastore.GroupAppend` | app/datastore.py:20-23 | the group of a concatenated table is the concatenation of the groups: table order and duplicates are kept |
| `Datastore.TreesKeys` | app/datastore.py:19-25 | (op, tech) is a key iff some row has operator op and the tech flag set; its value is that group; keys use an operator of the table and a configured technology |
| `Datastore.TreesWellFormed` | app/datastore.py:22-25 | every key of the built index names a technology of the radius table |
| `Datastore.EmptyTable` | app/datastore.py:16-26 | an empty table yields an empty index |
| `Datastore.BuildTrees` | app/datastore.py:14-26 | the nested loops over unique operators and the three technologies build exactly the index `Trees(table)` |
| `Datastore.TreesOfAllOperators` | app/datastore.py:19-26 | a map holding the non-empty groups of every operator of the table is the table's index |
| `Datastore.Radius` | app/datastore.py:38 | the query radius `RADII[tech] / 6371.0` is positive |
| `Datastore.AnyWithin` | app/datastore.py:41-43 | the radius query answers true iff some stored point is within distance r of the query point |
| `Datastore.RadiusMonotone` | app/datastore.py:38-43 | a point covered with radius r1 stays covered with any r2 ≥ r1 |
| `Datastore.Covered` | app/datastore.py:28-43 | a missing (operator, tech) entry gives false; otherwise true iff a stored point of the group lies within the tech radius of (lat, lon) |
| `Datastore.ExactLocationCovered` | app/datastore.py:38-43 | a query at the exact position of a transmitter whose tech flag is set is covered for its operator and that tech |
| `Datastore.AbsentPairNeverCovered` | app/datastore.py:30-32 | a pair that no row supports is never covered, at any point; this includes an empty table and an unknown technology |
| `Datastore.FarPointNotCovered` | app/datastore.py:41-43 | a point farther than the radius from every transmitter of the group (mid-ocean) is not covered |
| `Datastore.ParisScenario` | app/datastore.py:28-43 | one free 4G-only transmitter in Paris: 4G is covered at its position, 2G is not, and 4G is not covered at a point more than 10 km away |
| `Datastore.TreeStore.constructor` | app/datastore.py:13-14 | a new store has nothing cached and has built nothing |
| `Datastore.TreeStore.Load` | app/datastore.py:13-26 | returns the table's index and caches it; a cached index is returned unchanged; the build counter grows only when nothing was cached |
| `Datastore.TreeStore.CacheClear` | app/datastore.py:13 | drops the cached index, so the next `Load` builds again |
| `Datastore.TreeStore.IsCovered` | app/datastore.py:28-43 | loads the index (building at most once) and answers as `Covered` on the table's index |
| `Coverage.ComputeCoverage` | app/coverage.py:9-13 | outer keys are exactly the configured operators; each inner map has exactly 2G, 3G, 4G; each cell is the coverage answer for that pair |
| `Coverage.MatrixShape` | app/coverage.py:11-12 | the matrix has the operators as keys, the three technologies per operator, and the query answers as cells |
| `Coverage.MatrixHasTwelveCells` | app/coverage.py:10-13 | the matrix holds 4 × 3 = 12 booleans, and by `CoveredCellsAtMostCells` at most 12 of them are true |
| `Coverage.CoveredCells` | app/coverage.py:10-13 | the number of true cells is at most the number of technologies times the number of operators |
| `Coverage.RowCoveredCells` | app/coverage.py:12 | an operator's true cells, counted over distinct technologies, are at most the number of any key set holding every technology its row has |
| `Coverage.CoveredCellsAtMostCells` | app/coverage.py:10-13 | a matrix has no more true cells than cells, whatever keys its rows hold |
| `Preprocessing.ValidateData` | app/preprocessing.py:18-23 | it fails iff a required column is missing; the reported set is exactly the missing required columns, and it is non-empty |
| `Preprocessing.LowerOperators` | app/preprocessing.py:28 | every row keeps its place and gets its operator lowercased; nothing else changes |
| `Preprocessing.ValidOperators` | app/preprocessing.py:31 | the lowercased operator list is the configured list itself |
| `Preprocessing.CleanOperatorNames` | app/preprocessing.py:25-34 | overwrites the caller's operator column with its lowercase form in place and returns the rows whose lowercased operator is configured |
| `Preprocessing.CleanedRowsConfigured` | app/preprocessing.py:28-32 | every remaining operator is a configured lower-case name; a row is kept iff its lowercased operator is configured |
| `Preprocessing.CleanedRowsAppend` | app/preprocessing.py:31-32 | cleaning preserves relative order: cleaning a concatenation cleans each part |
| `Preprocessing.CleanedRowsDropped` | app/preprocessing.py:105-107 | rows dropped = input length minus output length = rows whose lowercased operator is not configured |
| `Preprocessing.CleanedRowsIdempotent` | app/preprocessing.py:28-32 | cleaning a cleaned table changes nothing |
| `Preprocessing.ValidateCoordinates` | app/preprocessing.py:54-73 | keeps exactly the rows with 41 ≤ lat ≤ 52 and -5 ≤ lon ≤ 10 (inclusive); never grows the table; returns the input unchanged when no row is out of bounds |
| `Preprocessing.ValidateCoordinatesOrderAndIdempotent` | app/preprocessing.py:62-72 | the bounding-box filter keeps rows in order, and applying it twice filters nothing more |
| `CoverageApi.GeocodeTask` | app/main.py:56-65 | only found coordinates give coordinates; a missing result gives "Impossible de géocoder l'adresse : <address>"; an exception gives its message |
| `CoverageApi.GeocodeAll` | app/main.py:67-68 | the gathered geocoding results keep the request's names and order, one result per address |
| `CoverageApi.CollectTasks` | app/main.py:71-81 | step 2 queues the coordinates of the successes in order, records names in request order, a placeholder for each success and the error record for each failure |
| `CoverageApi.RunCoverageTasks` | app/main.py:83 | one coverage matrix per task, in task order, each for that task's coordinates |
| `CoverageApi.FillPlaceholders` | app/main.py:85-90 | step 3 gives the k-th placeholder the k-th coverage result, leaves error records alone, leaves no placeholder, and ends with the counter equal to the number of placeholders |
| `CoverageApi.PlaceholdersAreTasks` | app/main.py:74-81 | along the results, the placeholders stored so far are as many as the coverage tasks queued so far |
| `CoverageApi.TaskOfSuccess` | app/main.py:75-79 | the task numbered by the number of earlier successes holds that success's own coordinates |
| `CoverageApi.AssemblyCorrect` | app/main.py:71-90 | after steps 2 and 3, each name holds its error record or the matrix of its own coordinates |
| `CoverageApi.GetCoverage` | app/main.py:49-92 | every request name is answered, in request order; failures keep their error records; a geocoded name gets the coverage matrix of its own coordinates |

## Left out

- Geocoding (app/geocoder.py) is a network call through a rate limiter. It is an oracle whose answer per address is an input of `CoverageApi.GetCoverage`.
- Coordinate reprojection (`convert_coordinates`) is left out. It calls a foreign library that converts Lambert-93 to WGS84 in floating point.
- `process_data` is left out. It reads and writes files, prints, computes statistics and calls `sys.exit`.
- Reading the Parquet file inside `_load_trees` is left out. `TreeStore` is given the table when it is constructed.
- Datastore.Covered: distances come from an abstract `dist` rather than the haversine formula on radians, so the model proves nothing about the trigonometry or the ball tree's internals.
- Numbers are exact reals, not IEEE doubles. NaN is not modelled; pandas keeps a NaN coordinate in `validate_coordinates` because every comparison with it is false.
- Text.LowerFacts: only ASCII letters are lowercased; `str.lower` also folds other Unicode letters.
- Preprocessing.ValidateData: it returns the set of missing columns, not the formatted `ValueError` message.
- The FastAPI layer is left out. This covers request parsing, the response models, HTTP status codes and the 422 answer to a malformed body.
- Concurrency is left out: `run_in_threadpool`, `asyncio.gather`, and concurrent first calls to the lazy build all run sequentially in the model.
- Key order of the response is left out. `compute_coverage` builds its dicts in OPERATORS and TECHS order, and that order reaches the JSON. `Coverage.Matrix` is a map, so the model keeps the keys and values but not their order.
- The warning `print` of `validate_coordinates` (app/preprocessing.py:70-71) is left out. It only writes the number of out-of-bounds rows to standard output.
- The `Exception` caught around geocoding is represented by `Lookup.Raised` with its message. Other exceptions are not modelled.
