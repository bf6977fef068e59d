/**
 * The older processing script: every return period's raster is binarised against one threshold, and
 * each second-level division gets the level of the last raster with a hot pixel inside it, 4 if none.
 */
module LegacyProcess {
  import opened Types

  datatype Dataset = Dataset(hazardSetId: string, processed: bool)

  datatype LegacyLayer = LegacyLayer(hazardSetId: string, returnPeriod: int)

  /** An administrative division: `hasGeometry` is false where its geometry is NULL. */
  datatype AdminDivision = AdminDivision(id: int, leveltypeId: int, hasGeometry: bool)

  datatype LegacyOutput = LegacyOutput(hazardSetId: string, adminId: int, hazardLevel: int)

  datatype LegacyTables = LegacyTables(
    datasets: seq<Dataset>,
    layers: seq<LegacyLayer>,
    divisions: seq<AdminDivision>,
    outputs: seq<LegacyOutput>)

  datatype LegacyError =
    | NoDataset(id: string)                     // ProcessException: the dataset does not exist
    | AlreadyProcessed(id: string)              // ProcessException: processed and not forced
    | NoLayer(id: string, returnPeriod: int)    // the missing layer is dereferenced
    | NoGrid                                    // a division is rasterised before any raster was read
    | ShapeMismatch(adminId: int)               // a division mask and a raster differ in size

  /**
   * The raster and geometry libraries: the pixel values of a layer's file, and a division burnt into a
   * grid of the given number of pixels (true inside the division).
   */
  datatype RasterIo = RasterIo(read: LegacyLayer -> seq<real>, rasterize: (AdminDivision, nat) -> seq<bool>)

  /** A binarised raster and the level it carries. */
  type Raster = (seq<bool>, int)

  class LegacyDb {
    var datasets: seq<Dataset>
    var layers: seq<LegacyLayer>
    var divisions: seq<AdminDivision>
    var outputs: seq<LegacyOutput>

    constructor (t: LegacyTables)
      ensures Snapshot() == t
    {
      datasets, layers, divisions, outputs := t.datasets, t.layers, t.divisions, t.outputs;
    }

    function Snapshot(): LegacyTables
      reads this
    {
      LegacyTables(datasets, layers, divisions, outputs)
    }

    method Restore(t: LegacyTables)
      modifies this
      ensures Snapshot() == t
    {
      datasets, layers, divisions, outputs := t.datasets, t.layers, t.divisions, t.outputs;
    }
  }

  function FindDataset(datasets: seq<Dataset>, id: string): Option<nat>
  {
    FirstIndex(datasets, (d: Dataset) => d.hazardSetId == id)
  }

  /** The first layer of the dataset with the given return period. */
  function FirstLayer(layers: seq<LegacyLayer>, id: string, returnPeriod: int): (r: Option<LegacyLayer>)
    ensures r.Some? ==> r.value in layers && r.value.hazardSetId == id && r.value.returnPeriod == returnPeriod
    decreases |layers|
  {
    if |layers| == 0 then None
    else if layers[0].hazardSetId == id && layers[0].returnPeriod == returnPeriod then Some(layers[0])
    else FirstLayer(layers[1..], id, returnPeriod)
  }

  lemma {:induction false} FirstLayerMissing(layers: seq<LegacyLayer>, id: string, returnPeriod: int)
    ensures FirstLayer(layers, id, returnPeriod).None?
        <==> forall k :: 0 <= k < |layers| ==> !(layers[k].hazardSetId == id && layers[k].returnPeriod == returnPeriod)
    decreases |layers|
  {
    if |layers| > 0 {
      FirstLayerMissing(layers[1..], id, returnPeriod);
      assert forall k :: 1 <= k < |layers| ==> layers[k] == layers[1..][k - 1];
    }
  }

  /** A layer that matches, with no match before it, is the first layer found. */
  lemma {:induction false} FirstLayerAt(layers: seq<LegacyLayer>, id: string, returnPeriod: int, k: nat)
    requires k < |layers| && layers[k].hazardSetId == id && layers[k].returnPeriod == returnPeriod
    requires forall j :: 0 <= j < k ==> !(layers[j].hazardSetId == id && layers[j].returnPeriod == returnPeriod)
    ensures FirstLayer(layers, id, returnPeriod) == Some(layers[k])
    decreases k
  {
    if k > 0 {
      FirstLayerAt(layers[1..], id, returnPeriod, k - 1);
    }
  }

  /** The pixels strictly above the threshold. */
  function Binarize(values: seq<real>, threshold: real): seq<bool>
  {
    seq(|values|, i requires 0 <= i < |values| => values[i] > threshold)
  }

  /** The level of the return period at position `k`: one more than the position of its first occurrence. */
  function LevelOfPeriod(periods: seq<int>, k: nat): (level: int)
    requires k < |periods|
    ensures 1 <= level <= k + 1
    ensures periods[level - 1] == periods[k]
    ensures forall j :: 0 <= j < level - 1 ==> periods[j] != periods[k]
  {
    FirstIndex(periods, (p: int) => p == periods[k]).value + 1
  }

  lemma DistinctPeriodsGivePositions(periods: seq<int>, k: nat)
    requires k < |periods|
    requires forall i, j :: 0 <= i < j < |periods| ==> periods[i] != periods[j]
    ensures LevelOfPeriod(periods, k) == k + 1
  {
  }

  /** `x` is the raster of the return period at position `j`: its first layer's pixels, binarised, and its level. */
  predicate RasterOf(layers: seq<LegacyLayer>, id: string, periods: seq<int>, j: nat, io: RasterIo, threshold: real, x: Raster)
    requires j < |periods|
  {
    var layer := FirstLayer(layers, id, periods[j]);
    layer.Some? && x == (Binarize(io.read(layer.value), threshold), LevelOfPeriod(periods, j))
  }

  /** The rasters of the first `n` return periods, or the error of the first missing layer. */
  function LoadedRasters(layers: seq<LegacyLayer>, id: string, periods: seq<int>, n: nat, io: RasterIo, threshold: real)
    : (r: Result<seq<Raster>, LegacyError>)
    requires n <= |periods|
    ensures r.Ok? ==> |r.value| == n
    ensures r.Ok? ==> forall j :: 0 <= j < n ==> RasterOf(layers, id, periods, j, io, threshold, r.value[j])
    ensures r.Err? ==> r.error.NoLayer? && r.error.id == id
    decreases n
  {
    if n == 0 then Ok([])
    else match LoadedRasters(layers, id, periods, n - 1, io, threshold)
      case Err(e) => Err(e)
      case Ok(rs) =>
        match FirstLayer(layers, id, periods[n - 1])
        case None => Err(NoLayer(id, periods[n - 1]))
        case Some(layer) => Ok(rs + [(Binarize(io.read(layer), threshold), LevelOfPeriod(periods, n - 1))])
  }

  /**
   * `numpy.ma.masked_array` accepts a mask of the raster's size, or of one pixel, which it resizes to
   * the raster's shape; any other mask raises.
   */
  predicate Fits(mask: seq<bool>, raster: seq<bool>)
  {
    |mask| == |raster| || |mask| == 1
  }

  /** Some pixel inside the division is set in the raster; a one-pixel mask stands for every pixel. */
  predicate Hot(mask: seq<bool>, raster: seq<bool>)
  {
    exists i :: 0 <= i < |raster| && raster[i] && (if |mask| == 1 then mask[0] else i < |mask| && mask[i])
  }

  /**
   * The division's level after the first `n` rasters: 4 when none of them is hot inside the division,
   * otherwise the level of the last hot one.
   */
  function LevelAfter(mask: seq<bool>, rasters: seq<Raster>, n: nat, adminId: int): (r: Result<int, LegacyError>)
    requires n <= |rasters|
    ensures r.Err? <==> exists j :: 0 <= j < n && !Fits(mask, rasters[j].0)
    ensures r.Err? ==> r.error == ShapeMismatch(adminId)
    ensures r.Ok? && (forall j :: 0 <= j < n ==> !Hot(mask, rasters[j].0)) ==> r.value == 4
    ensures r.Ok? && (exists j :: 0 <= j < n && Hot(mask, rasters[j].0)) ==>
      exists j :: 0 <= j < n && Hot(mask, rasters[j].0) && r.value == rasters[j].1
        && forall m :: j < m < n ==> !Hot(mask, rasters[m].0)
    decreases n
  {
    if n == 0 then Ok(4)
    else match LevelAfter(mask, rasters, n - 1, adminId)
      case Err(e) => Err(e)
      case Ok(level) =>
        if !Fits(mask, rasters[n - 1].0) then Err(ShapeMismatch(adminId))
        else if Hot(mask, rasters[n - 1].0) then Ok(rasters[n - 1].1)
        else Ok(level)
  }

  /**
   * A division burnt into a one-pixel grid never raises, whatever the sizes of the rasters: the mask
   * is resized to each of them; outside the division the level stays 4.
   */
  lemma OnePixelMaskFitsAll(mask: seq<bool>, rasters: seq<Raster>, adminId: int)
    requires |mask| == 1
    ensures LevelAfter(mask, rasters, |rasters|, adminId).Ok?
    ensures !mask[0] ==> LevelAfter(mask, rasters, |rasters|, adminId) == Ok(4)
  {
  }

  /** The outputs of the first `n` visited divisions: one per division with a geometry, in order. */
  function DivisionOutputs(divisions: seq<AdminDivision>, rasters: seq<Raster>, id: string, io: RasterIo, n: nat)
    : (r: Result<seq<LegacyOutput>, LegacyError>)
    requires n <= |divisions|
    ensures r.Err? ==> r.error.NoGrid? || r.error.ShapeMismatch?
    decreases n
  {
    if n == 0 then Ok([])
    else match DivisionOutputs(divisions, rasters, id, io, n - 1)
      case Err(e) => Err(e)
      case Ok(os) =>
        var d := divisions[n - 1];
        if !d.hasGeometry then Ok(os)
        else if |rasters| == 0 then Err(NoGrid)
        else
          var mask := io.rasterize(d, |rasters[|rasters| - 1].0|);
          match LevelAfter(mask, rasters, |rasters|, d.id)
          case Err(e) => Err(e)
          case Ok(level) => Ok(os + [LegacyOutput(id, d.id, level)])
  }

  predicate SecondLevel(d: AdminDivision)
  {
    d.leveltypeId == 2
  }

  function Visited(divisions: seq<AdminDivision>): seq<AdminDivision>
  {
    Filter(divisions, SecondLevel)
  }

  /**
   * One run of the script on dataset `id` over the committed tables: the committed tables after it, or
   * the error it raises (the script then exits without committing).
   */
  function ExecuteStep(t: LegacyTables, id: string, force: bool, periods: seq<int>, threshold: real, io: RasterIo)
    : Result<LegacyTables, LegacyError>
  {
    match FindDataset(t.datasets, id)
    case None => Err(NoDataset(id))
    case Some(k) =>
      if t.datasets[k].processed && !force then Err(AlreadyProcessed(id))
      else match LoadedRasters(t.layers, id, periods, |periods|, io, threshold)
        case Err(e) => Err(e)
        case Ok(rasters) =>
          var visited := Visited(t.divisions);
          match DivisionOutputs(visited, rasters, id, io, |visited|)
          case Err(e) => Err(e)
          case Ok(os) => Ok(t.(datasets := t.datasets[k := t.datasets[k].(processed := true)], outputs := os))
  }

  /** Whether some pixel is both inside the division and above the threshold: the masked maximum is positive. */
  method AnyHot(mask: seq<bool>, raster: seq<bool>) returns (hot: bool)
    requires Fits(mask, raster)
    ensures hot <==> Hot(mask, raster)
  {
    hot := false;
    var p := 0;
    while p < |raster|
      invariant 0 <= p <= |raster|
      invariant hot <==> exists q :: 0 <= q < p && raster[q] && (if |mask| == 1 then mask[0] else mask[q])
    {
      var inside := if |mask| == 1 then mask[0] else mask[p];
      hot := hot || (raster[p] && inside);
      p := p + 1;
    }
  }

  /** The level loop over the rasters for one division. */
  method LevelOfDivision(mask: seq<bool>, rasters: seq<Raster>, adminId: int) returns (r: Result<int, LegacyError>)
    ensures r == LevelAfter(mask, rasters, |rasters|, adminId)
  {
    var level := 4;
    var i := 0;
    while i < |rasters|
      invariant 0 <= i <= |rasters|
      invariant LevelAfter(mask, rasters, i, adminId) == Ok(level)
    {
      var (raster, rasterLevel) := rasters[i];
      if !Fits(mask, raster) {
        assert LevelAfter(mask, rasters, |rasters|, adminId).Err?;
        return Err(ShapeMismatch(adminId));
      }
      var hot := AnyHot(mask, raster);
      assert LevelAfter(mask, rasters, i + 1, adminId) == if hot then Ok(rasterLevel) else Ok(level);
      if hot {
        level := rasterLevel;
      }
      i := i + 1;
    }
    return Ok(level);
  }

  /** Loading fails at the first return period that has no layer, and only there. */
  lemma {:induction false} LoadedRastersFailure(layers: seq<LegacyLayer>, id: string, periods: seq<int>, n: nat, io: RasterIo, threshold: real)
    requires n <= |periods|
    ensures LoadedRasters(layers, id, periods, n, io, threshold).Ok? <==> forall j :: 0 <= j < n ==> FirstLayer(layers, id, periods[j]).Some?
    ensures LoadedRasters(layers, id, periods, n, io, threshold).Err? ==>
      exists j :: (0 <= j < n && FirstLayer(layers, id, periods[j]).None?
        && LoadedRasters(layers, id, periods, n, io, threshold).error == NoLayer(id, periods[j])
        && forall m :: 0 <= m < j ==> FirstLayer(layers, id, periods[m]).Some?)
    decreases n
  {
    if n > 0 {
      LoadedRastersFailure(layers, id, periods, n - 1, io, threshold);
      var prev := LoadedRasters(layers, id, periods, n - 1, io, threshold);
      var here := FirstLayer(layers, id, periods[n - 1]);
      var r := LoadedRasters(layers, id, periods, n, io, threshold);
      if prev.Err? {
        assert r == prev;
        var j :| 0 <= j < n - 1 && FirstLayer(layers, id, periods[j]).None?;
      } else if here.None? {
        assert r == Err(NoLayer(id, periods[n - 1]));
      } else {
        assert r.Ok?;
        assert forall j :: 0 <= j < n ==> FirstLayer(layers, id, periods[j]).Some? by {
          forall j | 0 <= j < n ensures FirstLayer(layers, id, periods[j]).Some? {
            if j < n - 1 {
              assert FirstLayer(layers, id, periods[j]).Some?;
            }
          }
        }
      }
    }
  }

  /** A missing layer ends the loading: every longer prefix fails with the same error. */
  lemma {:induction false} LoadedRastersFailureStays(layers: seq<LegacyLayer>, id: string, periods: seq<int>, i: nat, n: nat, io: RasterIo, threshold: real)
    requires i <= n <= |periods|
    requires LoadedRasters(layers, id, periods, i, io, threshold).Err?
    ensures LoadedRasters(layers, id, periods, n, io, threshold) == LoadedRasters(layers, id, periods, i, io, threshold)
    decreases n - i
  {
    if i < n {
      LoadedRastersFailureStays(layers, id, periods, i, n - 1, io, threshold);
    }
  }

  /** A failing division ends the loop: every longer prefix fails with the same error. */
  lemma {:induction false} DivisionOutputsFailureStays(divisions: seq<AdminDivision>, rasters: seq<Raster>, id: string, io: RasterIo, i: nat, n: nat)
    requires i <= n <= |divisions|
    requires DivisionOutputs(divisions, rasters, id, io, i).Err?
    ensures DivisionOutputs(divisions, rasters, id, io, n) == DivisionOutputs(divisions, rasters, id, io, i)
    decreases n - i
  {
    if i < n {
      DivisionOutputsFailureStays(divisions, rasters, id, io, i, n - 1);
    }
  }

  /** The loop over the return periods, reading and binarising each layer's raster. */
  method LoadRasters(layers: seq<LegacyLayer>, id: string, periods: seq<int>, io: RasterIo, threshold: real)
    returns (r: Result<seq<Raster>, LegacyError>)
    ensures r == LoadedRasters(layers, id, periods, |periods|, io, threshold)
  {
    var rasters: seq<Raster> := [];
    var i := 0;
    while i < |periods|
      invariant 0 <= i <= |periods|
      invariant LoadedRasters(layers, id, periods, i, io, threshold) == Ok(rasters)
    {
      var level := LevelOfPeriod(periods, i);
      var layer := FirstLayer(layers, id, periods[i]);
      if layer.None? {
        LoadedRastersFailureStays(layers, id, periods, i + 1, |periods|, io, threshold);
        return Err(NoLayer(id, periods[i]));
      }
      rasters := rasters + [(Binarize(io.read(layer.value), threshold), level)];
      i := i + 1;
    }
    return Ok(rasters);
  }

  /** The loop over the visited divisions, adding one output per division with a geometry. */
  method EmitOutputs(db: LegacyDb, visited: seq<AdminDivision>, rasters: seq<Raster>, id: string, io: RasterIo)
    returns (r: Outcome<LegacyError>)
    modifies db
    ensures var spec := DivisionOutputs(visited, rasters, id, io, |visited|);
      (r.Pass? <==> spec.Ok?) && (r.Fail? ==> r.error == spec.error)
      && (r.Pass? ==> db.outputs == old(db.outputs) + spec.value)
    ensures db.datasets == old(db.datasets) && db.layers == old(db.layers) && db.divisions == old(db.divisions)
  {
    var j := 0;
    ghost var start := db.outputs;
    while j < |visited|
      invariant 0 <= j <= |visited|
      invariant db.datasets == old(db.datasets) && db.layers == old(db.layers) && db.divisions == old(db.divisions)
      invariant DivisionOutputs(visited, rasters, id, io, j).Ok?
      invariant db.outputs == start + DivisionOutputs(visited, rasters, id, io, j).value
    {
      var d := visited[j];
      if d.hasGeometry {
        if |rasters| == 0 {
          DivisionOutputsFailureStays(visited, rasters, id, io, j + 1, |visited|);
          return Fail(NoGrid);
        }
        var mask := io.rasterize(d, |rasters[|rasters| - 1].0|);
        var level := LevelOfDivision(mask, rasters, d.id);
        if level.Err? {
          DivisionOutputsFailureStays(visited, rasters, id, io, j + 1, |visited|);
          return Fail(level.error);
        }
        db.outputs := db.outputs + [LegacyOutput(id, d.id, level.value)];
      }
      j := j + 1;
    }
    return Pass;
  }

  /** The script's `execute`: the committed tables end up as `ExecuteStep` says. */
  method Execute(db: LegacyDb, id: string, force: bool, periods: seq<int>, threshold: real, io: RasterIo)
    returns (r: Outcome<LegacyError>)
    modifies db
    ensures var spec := ExecuteStep(old(db.Snapshot()), id, force, periods, threshold, io);
      (r.Fail? <==> spec.Err?)
      && (r.Fail? ==> r.error == spec.error && db.Snapshot() == old(db.Snapshot()))
      && (r.Pass? ==> db.Snapshot() == spec.value)
  {
    var saved := db.Snapshot();
    var k := FindDataset(db.datasets, id);
    if k.None? {
      return Fail(NoDataset(id));
    }
    if db.datasets[k.value].processed {
      if force {
        db.datasets := db.datasets[k.value := db.datasets[k.value].(processed := false)];
      } else {
        return Fail(AlreadyProcessed(id));
      }
    }
    db.outputs := [];
    var rasters := LoadRasters(db.layers, id, periods, io, threshold);
    if rasters.Err? {
      db.Restore(saved);
      return Fail(rasters.error);
    }
    var emitted := EmitOutputs(db, Visited(db.divisions), rasters.value, id, io);
    if emitted.Fail? {
      db.Restore(saved);
      return emitted;
    }
    db.datasets := db.datasets[k.value := db.datasets[k.value].(processed := true)];
    assert db.datasets == saved.datasets[k.value := saved.datasets[k.value].(processed := true)];
    assert db.outputs == [] + db.outputs;
    return Pass;
  }

  // ----- properties -----

  /** The two refusals: an unknown dataset, and a processed one without `force`. */
  lemma ExecuteRefuses(t: LegacyTables, id: string, force: bool, periods: seq<int>, threshold: real, io: RasterIo)
    ensures ExecuteStep(t, id, force, periods, threshold, io) == Err(NoDataset(id))
        <==> forall k :: 0 <= k < |t.datasets| ==> t.datasets[k].hazardSetId != id
    ensures ExecuteStep(t, id, force, periods, threshold, io) == Err(AlreadyProcessed(id))
        <==> FindDataset(t.datasets, id).Some? && t.datasets[FindDataset(t.datasets, id).value].processed && !force
  {
  }

  /**
   * A run that succeeds marks the dataset processed, replaces the whole output table (every dataset's
   * rows) by the rows of this run, and changes nothing else.
   */
  lemma ExecuteSucceeds(t: LegacyTables, id: string, force: bool, periods: seq<int>, threshold: real, io: RasterIo)
    requires ExecuteStep(t, id, force, periods, threshold, io).Ok?
    ensures FindDataset(t.datasets, id).Some?
    ensures var after := ExecuteStep(t, id, force, periods, threshold, io).value;
      var k := FindDataset(t.datasets, id).value;
      var rasters := LoadedRasters(t.layers, id, periods, |periods|, io, threshold);
      rasters.Ok?
      && after.layers == t.layers && after.divisions == t.divisions
      && |after.datasets| == |t.datasets| && after.datasets[k] == t.datasets[k].(processed := true)
      && (forall j :: 0 <= j < |t.datasets| && j != k ==> after.datasets[j] == t.datasets[j])
      && DivisionOutputs(Visited(t.divisions), rasters.value, id, io, |Visited(t.divisions)|) == Ok(after.outputs)
  {
  }

  /** Every visited division with a geometry gets exactly one row, in order, carrying the dataset's id. */
  lemma {:induction false} OutputPerDivision(divisions: seq<AdminDivision>, rasters: seq<Raster>, id: string, io: RasterIo, n: nat)
    requires n <= |divisions|
    requires DivisionOutputs(divisions, rasters, id, io, n).Ok?
    ensures var os := DivisionOutputs(divisions, rasters, id, io, n).value;
      var drawn := Filter(divisions[..n], (d: AdminDivision) => d.hasGeometry);
      |os| == |drawn|
      && (forall j :: 0 <= j < |os| ==> os[j].adminId == drawn[j].id && os[j].hazardSetId == id)
    decreases n
  {
    var p := (d: AdminDivision) => d.hasGeometry;
    if n == 0 {
      assert divisions[..0] == [];
    } else {
      OutputPerDivision(divisions, rasters, id, io, n - 1);
      var prev := DivisionOutputs(divisions, rasters, id, io, n - 1).value;
      assert divisions[..n] == divisions[..n - 1] + [divisions[n - 1]];
      FilterAppend(divisions[..n - 1], [divisions[n - 1]], p);
      var d := divisions[n - 1];
      if d.hasGeometry {
        assert Filter([d], p) == [d];
        var level := LevelAfter(io.rasterize(d, |rasters[|rasters| - 1].0|), rasters, |rasters|, d.id).value;
        assert DivisionOutputs(divisions, rasters, id, io, n).value == prev + [LegacyOutput(id, d.id, level)];
      } else {
        assert Filter([d], p) == [];
      }
    }
  }

  /** Every visited division with a geometry is classified by the last hot raster, 4 when none is hot. */
  lemma {:induction false} OutputLevels(divisions: seq<AdminDivision>, rasters: seq<Raster>, id: string, io: RasterIo, n: nat, o: LegacyOutput)
    requires n <= |divisions|
    requires DivisionOutputs(divisions, rasters, id, io, n).Ok?
    requires o in DivisionOutputs(divisions, rasters, id, io, n).value
    ensures |rasters| > 0
    ensures exists k :: (0 <= k < n && divisions[k].id == o.adminId && divisions[k].hasGeometry
      && LevelAfter(io.rasterize(divisions[k], |rasters[|rasters| - 1].0|), rasters, |rasters|, divisions[k].id) == Ok(o.hazardLevel))
    decreases n
  {
    var os := DivisionOutputs(divisions, rasters, id, io, n - 1).value;
    if o in os {
      OutputLevels(divisions, rasters, id, io, n - 1, o);
    } else {
      assert divisions[n - 1].id == o.adminId;
    }
  }

  /**
   * With every raster's level one more than its position and exactly the raster at `hot` set inside
   * the division (or none), the division's level is `hot` plus one, or 4.
   */
  lemma OneHotLevel(mask: seq<bool>, rasters: seq<Raster>, hot: Option<nat>, adminId: int)
    requires forall j :: 0 <= j < |rasters| ==> rasters[j].1 == j + 1 && |rasters[j].0| == |mask|
    requires hot.Some? ==> hot.value < |rasters| && Hot(mask, rasters[hot.value].0)
    requires forall j :: 0 <= j < |rasters| && hot != Some(j) ==> !Hot(mask, rasters[j].0)
    ensures LevelAfter(mask, rasters, |rasters|, adminId) == Ok(if hot.Some? then hot.value + 1 else 4)
  {
    var r := LevelAfter(mask, rasters, |rasters|, adminId);
    assert r.Ok?;
    if hot.Some? {
      var h := hot.value;
      assert Hot(mask, rasters[h].0);
      var j :| 0 <= j < |rasters| && Hot(mask, rasters[j].0) && r.value == rasters[j].1;
      assert j == h;
    }
  }

  /**
   * The rule tests/test_process.py checks: with distinct return periods and a division inside which exactly the raster of
   * period `hot` is set, the level is the position of that period plus one; with none set it is 4.
   */
  lemma OneHotRaster(mask: seq<bool>, rasters: seq<Raster>, periods: seq<int>, hot: Option<nat>, adminId: int)
    requires |rasters| == |periods|
    requires forall i, j :: 0 <= i < j < |periods| ==> periods[i] != periods[j]
    requires forall j :: 0 <= j < |rasters| ==> rasters[j].1 == LevelOfPeriod(periods, j) && |rasters[j].0| == |mask|
    requires hot.Some? ==> hot.value < |rasters| && Hot(mask, rasters[hot.value].0)
    requires forall j :: 0 <= j < |rasters| && hot != Some(j) ==> !Hot(mask, rasters[j].0)
    ensures LevelAfter(mask, rasters, |rasters|, adminId) == Ok(if hot.Some? then hot.value + 1 else 4)
  {
    forall j | 0 <= j < |rasters|
      ensures rasters[j].1 == j + 1
    {
      DistinctPeriodsGivePositions(periods, j);
    }
    OneHotLevel(mask, rasters, hot, adminId);
  }

  /** The tests' database: one dataset, one layer per return period, one division at each of levels 1 to 3. */
  function Fixture(id: string, processed: bool, periods: seq<int>, outputs: seq<LegacyOutput>): LegacyTables
  {
    LegacyTables(
      [Dataset(id, processed)],
      seq(|periods|, i requires 0 <= i < |periods| => LegacyLayer(id, periods[i])),
      [AdminDivision(1, 1, true), AdminDivision(2, 2, true), AdminDivision(3, 3, true)],
      outputs)
  }

  /**
   * The tests' rasters: the layer of return period `periods[hot]` holds 100 everywhere, the others hold
   * nothing above the threshold, and every division covers the grid.
   */
  function FixtureIo(periods: seq<int>, hot: Option<nat>, threshold: real, pixels: nat): RasterIo
  {
    RasterIo(
      (l: LegacyLayer) =>
        seq(pixels, i => if hot.Some? && hot.value < |periods| && l.returnPeriod == periods[hot.value] then 100.0 else threshold),
      (d: AdminDivision, n: nat) => seq(n, i => true))
  }

  /** In the tests' rasters, a binarised pixel is set exactly in the raster of the hot period. */
  lemma FixturePixels(periods: seq<int>, hot: Option<nat>, threshold: real, pixels: nat, j: nat, id: string)
    requires |periods| == 3 && periods[0] != periods[1] && periods[0] != periods[2] && periods[1] != periods[2]
    requires threshold < 100.0 && j < 3
    requires hot.Some? ==> hot.value < 3
    ensures var b := Binarize(FixtureIo(periods, hot, threshold, pixels).read(LegacyLayer(id, periods[j])), threshold);
      |b| == pixels && forall i :: 0 <= i < pixels ==> (b[i] <==> hot == Some(j))
  {
    var vals := FixtureIo(periods, hot, threshold, pixels).read(LegacyLayer(id, periods[j]));
    var here := hot.Some? && hot.value < |periods| && periods[j] == periods[hot.value];
    assert here <==> hot == Some(j);
    assert vals == seq(pixels, i => if here then 100.0 else threshold);
  }

  /** In the tests' database each return period's first layer is the one layer made for it. */
  lemma FixtureLayer(id: string, processed: bool, periods: seq<int>, outputs: seq<LegacyOutput>, j: nat)
    requires |periods| == 3 && periods[0] != periods[1] && periods[0] != periods[2] && periods[1] != periods[2]
    requires j < 3
    ensures FirstLayer(Fixture(id, processed, periods, outputs).layers, id, periods[j]) == Some(LegacyLayer(id, periods[j]))
  {
    var layers := Fixture(id, processed, periods, outputs).layers;
    FirstLayerAt(layers, id, periods[j], j);
  }

  /** The tests' rasters as loaded: one per return period, in order, hot exactly at `hot`. */
  lemma FixtureRasters(id: string, processed: bool, periods: seq<int>, outputs: seq<LegacyOutput>, threshold: real,
                       hot: Option<nat>, pixels: nat)
    requires |periods| == 3 && periods[0] != periods[1] && periods[0] != periods[2] && periods[1] != periods[2]
    requires threshold < 100.0 && pixels > 0
    requires hot.Some? ==> hot.value < 3
    ensures var io := FixtureIo(periods, hot, threshold, pixels);
      var loaded := LoadedRasters(Fixture(id, processed, periods, outputs).layers, id, periods, 3, io, threshold);
      var mask := io.rasterize(AdminDivision(2, 2, true), pixels);
      loaded.Ok? && |loaded.value| == 3 && |mask| == pixels
      && (forall j :: 0 <= j < 3 ==> loaded.value[j].1 == LevelOfPeriod(periods, j) && |loaded.value[j].0| == pixels)
      && (forall j :: 0 <= j < 3 ==> (Hot(mask, loaded.value[j].0) <==> hot == Some(j)))
  {
    var layers := Fixture(id, processed, periods, outputs).layers;
    var io := FixtureIo(periods, hot, threshold, pixels);
    FixtureLayer(id, processed, periods, outputs, 0);
    FixtureLayer(id, processed, periods, outputs, 1);
    FixtureLayer(id, processed, periods, outputs, 2);
    LoadedRastersFailure(layers, id, periods, 3, io, threshold);
    var rasters := LoadedRasters(layers, id, periods, 3, io, threshold).value;
    forall j | 0 <= j < 3
      ensures rasters[j].1 == LevelOfPeriod(periods, j) && |rasters[j].0| == pixels
      ensures Hot(io.rasterize(AdminDivision(2, 2, true), pixels), rasters[j].0) <==> hot == Some(j)
    {
      assert RasterOf(layers, id, periods, j, io, threshold, rasters[j]);
      FixtureHot(periods, hot, threshold, pixels, j, id, rasters[j]);
    }
  }

  /** One of the tests' rasters is hot inside the division exactly when it is the hot one. */
  lemma FixtureHot(periods: seq<int>, hot: Option<nat>, threshold: real, pixels: nat, j: nat, id: string, x: Raster)
    requires |periods| == 3 && periods[0] != periods[1] && periods[0] != periods[2] && periods[1] != periods[2]
    requires threshold < 100.0 && j < 3 && pixels > 0
    requires hot.Some? ==> hot.value < 3
    requires x.0 == Binarize(FixtureIo(periods, hot, threshold, pixels).read(LegacyLayer(id, periods[j])), threshold)
    ensures |x.0| == pixels
    ensures Hot(FixtureIo(periods, hot, threshold, pixels).rasterize(AdminDivision(2, 2, true), pixels), x.0) <==> hot == Some(j)
  {
    var mask := FixtureIo(periods, hot, threshold, pixels).rasterize(AdminDivision(2, 2, true), pixels);
    assert |mask| == pixels && forall i :: 0 <= i < pixels ==> mask[i];
    FixturePixels(periods, hot, threshold, pixels, j, id);
    if hot == Some(j) {
      assert mask[0] && x.0[0];
    }
  }

  lemma FixtureVisited(id: string, processed: bool, periods: seq<int>, outputs: seq<LegacyOutput>)
    ensures Visited(Fixture(id, processed, periods, outputs).divisions) == [AdminDivision(2, 2, true)]
  {
    var ds := Fixture(id, processed, periods, outputs).divisions;
    assert ds[1..] == [AdminDivision(2, 2, true), AdminDivision(3, 3, true)];
    assert ds[1..][1..] == [AdminDivision(3, 3, true)];
  }

  lemma SingleDivisionOutput(d: AdminDivision, rasters: seq<Raster>, id: string, io: RasterIo, level: int)
    requires d.hasGeometry && |rasters| > 0
    requires LevelAfter(io.rasterize(d, |rasters[|rasters| - 1].0|), rasters, |rasters|, d.id) == Ok(level)
    ensures DivisionOutputs([d], rasters, id, io, 1) == Ok([LegacyOutput(id, d.id, level)])
  {
    var ds := [d];
    assert DivisionOutputs(ds, rasters, id, io, 0) == Ok([]);
    assert ds[0] == d;
    assert [] + [LegacyOutput(id, d.id, level)] == [LegacyOutput(id, d.id, level)];
  }

  lemma ExecuteStepSucceeds(t: LegacyTables, id: string, force: bool, periods: seq<int>, threshold: real, io: RasterIo,
                            k: nat, rasters: seq<Raster>, os: seq<LegacyOutput>)
    requires FindDataset(t.datasets, id) == Some(k)
    requires force || !t.datasets[k].processed
    requires LoadedRasters(t.layers, id, periods, |periods|, io, threshold) == Ok(rasters)
    requires DivisionOutputs(Visited(t.divisions), rasters, id, io, |Visited(t.divisions)|) == Ok(os)
    ensures ExecuteStep(t, id, force, periods, threshold, io) == Ok(t.(datasets := t.datasets[k := t.datasets[k].(processed := true)], outputs := os))
  {
  }

  lemma ThreeDistinct(periods: seq<int>)
    requires |periods| == 3 && periods[0] != periods[1] && periods[0] != periods[2] && periods[1] != periods[2]
    ensures forall i, j :: 0 <= i < j < |periods| ==> periods[i] != periods[j]
  {
    forall i, j | 0 <= i < j < |periods| ensures periods[i] != periods[j] {
      assert i == 0 || i == 1;
      assert j == 1 || j == 2;
    }
  }

  /** In the tests' database the one visited division gets the level of the hot raster, 4 if none. */
  lemma FixtureOutputs(id: string, processed: bool, periods: seq<int>, outputs: seq<LegacyOutput>, threshold: real,
                       hot: Option<nat>, pixels: nat)
    requires |periods| == 3 && periods[0] != periods[1] && periods[0] != periods[2] && periods[1] != periods[2]
    requires threshold < 100.0 && pixels > 0
    requires hot.Some? ==> hot.value < 3
    ensures var t := Fixture(id, processed, periods, outputs);
      var io := FixtureIo(periods, hot, threshold, pixels);
      var loaded := LoadedRasters(t.layers, id, periods, |periods|, io, threshold);
      loaded.Ok?
      && DivisionOutputs(Visited(t.divisions), loaded.value, id, io, |Visited(t.divisions)|)
         == Ok([LegacyOutput(id, 2, if hot.Some? then hot.value + 1 else 4)])
  {
    var t := Fixture(id, processed, periods, outputs);
    var io := FixtureIo(periods, hot, threshold, pixels);
    FixtureRasters(id, processed, periods, outputs, threshold, hot, pixels);
    FixtureVisited(id, processed, periods, outputs);
    var rasters := LoadedRasters(t.layers, id, periods, 3, io, threshold).value;
    var d := AdminDivision(2, 2, true);
    var mask := io.rasterize(d, pixels);
    ThreeDistinct(periods);
    OneHotRaster(mask, rasters, periods, hot, 2);
    assert |rasters[|rasters| - 1].0| == pixels;
    SingleDivisionOutput(d, rasters, id, io, if hot.Some? then hot.value + 1 else 4);
  }

  /** The tests' database holds its one dataset first. */
  lemma FixtureDataset(id: string, processed: bool, periods: seq<int>, outputs: seq<LegacyOutput>)
    ensures var t := Fixture(id, processed, periods, outputs);
      FindDataset(t.datasets, id) == Some(0) && t.datasets[0 := t.datasets[0].(processed := true)] == [Dataset(id, true)]
  {
  }

  /**
   * The four runs of tests/test_process.py: a forced run gives the second-level division level 1, 2 or 3 when the first,
   * second or third raster is hot, and 4 when none is.
   */
  lemma FixtureLevels(id: string, processed: bool, periods: seq<int>, outputs: seq<LegacyOutput>, threshold: real,
                      hot: Option<nat>, pixels: nat)
    requires |periods| == 3 && periods[0] != periods[1] && periods[0] != periods[2] && periods[1] != periods[2]
    requires threshold < 100.0 && pixels > 0
    requires hot.Some? ==> hot.value < 3
    ensures var run := ExecuteStep(Fixture(id, processed, periods, outputs), id, true, periods, threshold, FixtureIo(periods, hot, threshold, pixels));
      run.Ok? && run.value.outputs == [LegacyOutput(id, 2, if hot.Some? then hot.value + 1 else 4)]
      && run.value.datasets == [Dataset(id, true)]
  {
    var t := Fixture(id, processed, periods, outputs);
    var io := FixtureIo(periods, hot, threshold, pixels);
    var os := [LegacyOutput(id, 2, if hot.Some? then hot.value + 1 else 4)];
    FixtureOutputs(id, processed, periods, outputs, threshold, hot, pixels);
    FixtureDataset(id, processed, periods, outputs);
    var rasters := LoadedRasters(t.layers, id, periods, |periods|, io, threshold).value;
    ExecuteStepSucceeds(t, id, true, periods, threshold, io, 0, rasters, os);
  }
}
