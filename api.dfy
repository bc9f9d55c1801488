/** Result assembly of the `/coverage` endpoint (`get_coverage` in
    app/main.py): geocode every named address, compute one coverage matrix
    per address that was found, and put each matrix back under its name.

    The geocoder is an oracle: its answer for each address is an input. The
    concurrent `gather` calls are run one after the other, in order, which is
    the order `gather` returns their results in. */
module CoverageApi {
  import opened Wrappers
  import opened Seqs
  import opened Datastore
  import opened Coverage

  /** What geocoding one address gave: coordinates, no match, or an
      exception raised on the way (with its message). */
  datatype Lookup = Found(lat: real, lon: real) | NotFound | Raised(message: string)

  /** The dictionary `geocode_task` pairs with a name: `{"coords": ...}` or
      `{"error": ...}`. */
  datatype Geocoded = Coords(lat: real, lon: real) | GeoError(message: string)

  /** A value of the response dictionary: an error record or a matrix. */
  datatype Entry = ErrorEntry(message: string) | CoverageEntry(matrix: Matrix)

  /** Text of the error record of an address the geocoder did not find. */
  function NotFoundMessage(address: string): string {
    "Impossible de géocoder l'adresse : " + address
  }

  /** `geocode_task(name, address)` without the name: a failed lookup
      becomes the error record, an exception its message. */
  function GeocodeTask(address: string, lookup: Lookup): (g: Geocoded)
    ensures g.Coords? <==> lookup.Found?
    ensures g.Coords? ==> g.lat == lookup.lat && g.lon == lookup.lon
    ensures lookup.NotFound? ==> g.GeoError? && g.message == NotFoundMessage(address)
    ensures lookup.Raised? ==> g.GeoError? && g.message == lookup.message
  {
    match lookup
    case Found(lat, lon) => Coords(lat, lon)
    case NotFound => GeoError(NotFoundMessage(address))
    case Raised(message) => GeoError(message)
  }

  /** The names of a list of (name, value) pairs, in order. */
  function Names<V>(pairs: seq<(string, V)>): (names: seq<string>)
    ensures |names| == |pairs|
    ensures forall i :: 0 <= i < |pairs| ==> names[i] == pairs[i].0
  {
    seq(|pairs|, i requires 0 <= i < |pairs| => pairs[i].0)
  }

  /** The coordinates of the successful results, in order: the coverage
      tasks of step 2. */
  function Tasks(geo: seq<(string, Geocoded)>): (tasks: seq<(real, real)>)
    ensures |tasks| <= |geo|
    decreases |geo|
  {
    if geo == [] then []
    else
      var last := geo[|geo| - 1].1;
      Tasks(geo[..|geo| - 1]) + (if last.Coords? then [(last.lat, last.lon)] else [])
  }

  /** The value step 2 stores under a name: a placeholder, or the error. */
  function Slot(g: Geocoded): Option<Entry> {
    if g.Coords? then None else Some(ErrorEntry(g.message))
  }

  /** Step 2: walk the geocoding results in order; queue a coverage task and
      a placeholder for each success, store the error record otherwise. */
  method CollectTasks(geo: seq<(string, Geocoded)>)
      returns (tasks: seq<(real, real)>, order: seq<string>, slots: map<string, Option<Entry>>)
    requires Distinct(Names(geo))
    ensures tasks == Tasks(geo)
    ensures order == Names(geo)
    ensures forall name :: name in slots <==> name in order
    ensures forall i :: 0 <= i < |geo| ==> slots[geo[i].0] == Slot(geo[i].1)
  {
    tasks, order, slots := [], [], map[];
    for i := 0 to |geo|
      invariant tasks == Tasks(geo[..i])
      invariant order == Names(geo[..i])
      invariant forall n :: n in slots <==> n in order
      invariant forall k :: 0 <= k < i ==> slots[geo[k].0] == Slot(geo[k].1)
    {
      var name, result := geo[i].0, geo[i].1;
      CollectStep(geo, i);
      NameNotEarlier(geo, i);
      if result.Coords? {
        tasks := tasks + [(result.lat, result.lon)];
        slots := slots[name := None];
      } else {
        slots := slots[name := Some(ErrorEntry(result.message))];
      }
      order := order + [name];
    }
    assert geo[..|geo|] == geo;
  }

  /** One more geocoding result adds its name to the order and, when it
      succeeded, its coordinates to the tasks. */
  lemma CollectStep(geo: seq<(string, Geocoded)>, i: nat)
    requires i < |geo|
    ensures Names(geo[..i + 1]) == Names(geo[..i]) + [geo[i].0]
    ensures Tasks(geo[..i + 1]) == Tasks(geo[..i]) + (if geo[i].1.Coords? then [(geo[i].1.lat, geo[i].1.lon)] else [])
  {
    assert geo[..i + 1][..i] == geo[..i];
  }

  /** With distinct names, the name at `i` differs from every earlier one. */
  lemma NameNotEarlier(geo: seq<(string, Geocoded)>, i: nat)
    requires i < |geo| && Distinct(Names(geo))
    ensures forall k :: 0 <= k < i ==> geo[k].0 != geo[i].0
  {
    forall k | 0 <= k < i ensures geo[k].0 != geo[i].0 {
      assert Names(geo)[k] == geo[k].0 && Names(geo)[i] == geo[i].0;
    }
  }

  /** Number of placeholders among the slots of `names`. */
  function Placeholders(names: seq<string>, slots: map<string, Option<Entry>>): (n: nat)
    requires forall k :: 0 <= k < |names| ==> names[k] in slots
    ensures n <= |names|
    decreases |names|
  {
    if names == [] then 0
    else
      Placeholders(names[..|names| - 1], slots) + (if slots[names[|names| - 1]] == None then 1 else 0)
  }

  /** Step 3: walk the names in order and replace each placeholder with the
      next coverage result. The k-th placeholder, counting from 0, receives
      `results[k]`; error records are left alone; no placeholder remains;
      the counter ends at the number of placeholders. */
  method FillPlaceholders(order: seq<string>, slots: map<string, Option<Entry>>, results: seq<Matrix>)
      returns (filled: map<string, Option<Entry>>, idx: nat)
    requires Distinct(order)
    requires forall k :: 0 <= k < |order| ==> order[k] in slots
    requires Placeholders(order, slots) <= |results|
    ensures filled.Keys == slots.Keys
    ensures idx == Placeholders(order, slots)
    ensures forall k :: 0 <= k < |order| && slots[order[k]] == None ==>
      Placeholders(order[..k], slots) < |results|
      && filled[order[k]] == Some(CoverageEntry(results[Placeholders(order[..k], slots)]))
    ensures forall k :: 0 <= k < |order| && slots[order[k]] != None ==> filled[order[k]] == slots[order[k]]
    ensures forall k :: 0 <= k < |order| ==> filled[order[k]].Some?
  {
    filled, idx := slots, 0;
    for i := 0 to |order|
      invariant filled.Keys == slots.Keys
      invariant idx == Placeholders(order[..i], slots)
      invariant forall k :: 0 <= k < i && slots[order[k]] == None ==>
        Placeholders(order[..k], slots) < |results|
        && filled[order[k]] == Some(CoverageEntry(results[Placeholders(order[..k], slots)]))
      invariant forall k :: 0 <= k < i && slots[order[k]] != None ==> filled[order[k]] == slots[order[k]]
      invariant forall k :: i <= k < |order| ==> filled[order[k]] == slots[order[k]]
    {
      var name := order[i];
      PlaceholderStep(order, slots, i);
      assert forall k :: 0 <= k < |order| && k != i ==> order[k] != name;
      if filled[name] == None {
        filled := filled[name := Some(CoverageEntry(results[idx]))];
        idx := idx + 1;
      }
    }
    assert order[..|order|] == order;
  }

  /** One more name adds its own placeholder, if it has one, and never
      exceeds the total. */
  lemma PlaceholderStep(names: seq<string>, slots: map<string, Option<Entry>>, i: nat)
    requires forall m :: 0 <= m < |names| ==> names[m] in slots
    requires i < |names|
    ensures Placeholders(names[..i + 1], slots) == Placeholders(names[..i], slots) + (if slots[names[i]] == None then 1 else 0)
    ensures Placeholders(names[..i + 1], slots) <= Placeholders(names, slots)
  {
    assert names[..i + 1][..i] == names[..i];
    PlaceholdersPrefix(names, slots, i + 1, |names|);
    assert names[..|names|] == names;
  }

  /** Placeholders only accumulate along the names. */
  lemma {:induction false} PlaceholdersPrefix(names: seq<string>, slots: map<string, Option<Entry>>, j: nat, k: nat)
    requires forall m :: 0 <= m < |names| ==> names[m] in slots
    requires j <= k <= |names|
    ensures Placeholders(names[..j], slots) <= Placeholders(names[..k], slots)
    decreases k - j
  {
    if j < k {
      PlaceholdersPrefix(names, slots, j, k - 1);
      assert names[..k][..k - 1] == names[..k - 1];
    }
  }

  /** Along the geocoding results, the placeholders stored so far are as
      many as the coverage tasks queued so far. */
  lemma {:induction false} PlaceholdersAreTasks(geo: seq<(string, Geocoded)>, slots: map<string, Option<Entry>>, i: nat)
    requires i <= |geo|
    requires forall k :: 0 <= k < |geo| ==> geo[k].0 in slots && slots[geo[k].0] == Slot(geo[k].1)
    ensures Placeholders(Names(geo)[..i], slots) == |Tasks(geo[..i])|
    decreases i
  {
    if i > 0 {
      PlaceholdersAreTasks(geo, slots, i - 1);
      assert Names(geo)[..i][..i - 1] == Names(geo)[..i - 1];
      assert geo[..i][..i - 1] == geo[..i - 1];
    }
  }

  /** There are as many placeholders as coverage tasks. */
  lemma AllPlaceholdersAreTasks(geo: seq<(string, Geocoded)>, slots: map<string, Option<Entry>>)
    requires forall k :: 0 <= k < |geo| ==> geo[k].0 in slots && slots[geo[k].0] == Slot(geo[k].1)
    ensures forall k :: 0 <= k < |geo| ==> Names(geo)[k] in slots
    ensures Placeholders(Names(geo), slots) == |Tasks(geo)|
  {
    PlaceholdersAreTasks(geo, slots, |geo|);
    assert Names(geo)[..|geo|] == Names(geo);
    assert geo[..|geo|] == geo;
  }

  /** The tasks of a prefix are a prefix of the tasks. */
  lemma {:induction false} TasksPrefix(geo: seq<(string, Geocoded)>, i: nat, k: nat)
    requires i <= k <= |geo|
    ensures |Tasks(geo[..i])| <= |Tasks(geo[..k])|
    ensures Tasks(geo[..k])[..|Tasks(geo[..i])|] == Tasks(geo[..i])
    decreases k - i
  {
    if i < k {
      TasksPrefix(geo, i, k - 1);
      assert geo[..k][..k - 1] == geo[..k - 1];
    }
  }

  /** The coverage task numbered by the successes before a successful
      result is that result's own coordinates. */
  lemma TaskOfSuccess(geo: seq<(string, Geocoded)>, i: nat)
    requires i < |geo| && geo[i].1.Coords?
    ensures |Tasks(geo[..i])| < |Tasks(geo)|
    ensures Tasks(geo)[|Tasks(geo[..i])|] == (geo[i].1.lat, geo[i].1.lon)
  {
    assert geo[..i + 1][..i] == geo[..i];
    TasksPrefix(geo, i + 1, |geo|);
    assert geo[..|geo|] == geo;
  }

  /** The response value each name must receive. */
  function Expected(g: Geocoded, trees: Index, dist: Distance): Entry
    requires WellFormed(trees)
  {
    match g
    case Coords(lat, lon) => CoverageEntry(CoverageMatrix(trees, dist, lat, lon))
    case GeoError(message) => ErrorEntry(message)
  }

  /** Step 1: geocode every address; `gather` returns the (name, result)
      pairs in request order. */
  function GeocodeAll(locations: seq<(string, string)>, lookups: seq<Lookup>): (geo: seq<(string, Geocoded)>)
    requires |lookups| == |locations|
    ensures |geo| == |locations| && Names(geo) == Names(locations)
    ensures forall i :: 0 <= i < |geo| ==> geo[i].1 == GeocodeTask(locations[i].1, lookups[i])
  {
    seq(|locations|, i requires 0 <= i < |locations| => (locations[i].0, GeocodeTask(locations[i].1, lookups[i])))
  }

  /** Steps 2 and 3 together: after the placeholders are filled with the
      matrices of the tasks, in order, every name holds the entry its own
      geocoding result calls for. */
  lemma AssemblyCorrect(geo: seq<(string, Geocoded)>, slots: map<string, Option<Entry>>,
                        matrices: seq<Matrix>, results: map<string, Option<Entry>>, trees: Index, dist: Distance)
    requires WellFormed(trees)
    requires forall k :: 0 <= k < |geo| ==> geo[k].0 in slots && slots[geo[k].0] == Slot(geo[k].1)
    requires results.Keys == slots.Keys
    requires |matrices| == |Tasks(geo)|
    requires forall m :: 0 <= m < |matrices| ==> matrices[m] == CoverageMatrix(trees, dist, Tasks(geo)[m].0, Tasks(geo)[m].1)
    requires forall k :: 0 <= k < |Names(geo)| && slots[Names(geo)[k]] == None ==>
      Placeholders(Names(geo)[..k], slots) < |matrices|
      && results[Names(geo)[k]] == Some(CoverageEntry(matrices[Placeholders(Names(geo)[..k], slots)]))
    requires forall k :: 0 <= k < |Names(geo)| && slots[Names(geo)[k]] != None ==> results[Names(geo)[k]] == slots[Names(geo)[k]]
    ensures forall i :: 0 <= i < |geo| ==> results[geo[i].0] == Some(Expected(geo[i].1, trees, dist))
  {
    forall i | 0 <= i < |geo| ensures results[geo[i].0] == Some(Expected(geo[i].1, trees, dist)) {
      assert Names(geo)[i] == geo[i].0;
      if geo[i].1.Coords? {
        PlaceholdersAreTasks(geo, slots, i);
        TaskOfSuccess(geo, i);
      }
    }
  }

  /** `asyncio.gather(*coverage_tasks)`: one matrix per task, in task order. */
  method RunCoverageTasks(tasks: seq<(real, real)>, trees: Index, dist: Distance) returns (matrices: seq<Matrix>)
    requires WellFormed(trees)
    ensures |matrices| == |tasks|
    ensures forall m :: 0 <= m < |tasks| ==> matrices[m] == CoverageMatrix(trees, dist, tasks[m].0, tasks[m].1)
  {
    matrices := [];
    for k := 0 to |tasks|
      invariant |matrices| == k
      invariant forall m :: 0 <= m < k ==> matrices[m] == CoverageMatrix(trees, dist, tasks[m].0, tasks[m].1)
    {
      var res := ComputeCoverage(trees, dist, tasks[k].0, tasks[k].1);
      matrices := matrices + [res];
    }
  }

  /** `get_coverage` for the request's (name, address) pairs, given the
      geocoder's answers: every name is answered, in request order; a name
      whose address was not found keeps its error record, and a name whose
      address was found gets the coverage matrix of its own coordinates. */
  method GetCoverage(locations: seq<(string, string)>, lookups: seq<Lookup>, trees: Index, dist: Distance)
      returns (order: seq<string>, results: map<string, Option<Entry>>)
    requires |lookups| == |locations|
    requires Distinct(Names(locations))
    requires WellFormed(trees)
    ensures order == Names(locations)
    ensures forall name :: name in results <==> name in order
    ensures forall i :: 0 <= i < |locations| ==>
      results[locations[i].0] == Some(Expected(GeocodeTask(locations[i].1, lookups[i]), trees, dist))
  {
    var geo := GeocodeAll(locations, lookups);
    assert forall i :: 0 <= i < |locations| ==> geo[i].0 == locations[i].0 by {
      assert forall i :: 0 <= i < |locations| ==> Names(geo)[i] == geo[i].0 && Names(locations)[i] == locations[i].0;
    }

    // Step 2: queue the coverage tasks and the placeholders.
    var tasks, slots;
    tasks, order, slots := CollectTasks(geo);

    var matrices := RunCoverageTasks(tasks, trees, dist);

    // Step 3: fill the placeholders.
    AllPlaceholdersAreTasks(geo, slots);
    var idx;
    results, idx := FillPlaceholders(order, slots, matrices);
    assert idx == |tasks|;
    AssemblyCorrect(geo, slots, matrices, results, trees, dist);
    forall i | 0 <= i < |locations|
      ensures results[locations[i].0] == Some(Expected(GeocodeTask(locations[i].1, lookups[i]), trees, dist))
    {
      assert geo[i].0 == locations[i].0 && geo[i].1 == GeocodeTask(locations[i].1, lookups[i]);
    }
  }
}
