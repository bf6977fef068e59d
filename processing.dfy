/**
 * The processing of complete hazardsets: the selection of the hazardsets to process, the search
 * of each hazardset's three band layers, the coverage rectangle of the rasters, and the emission
 * of one Output per REG division that the band loop gives a level.
 */
module Processing {
  import opened Types
  import opened Schema
  import opened Classifier

  type Point = (real, real)

  /** Raster bounds as the raster library reports them: (left, bottom, right, top). */
  datatype Bounds = Bounds(minx: real, miny: real, maxx: real, maxy: real)

  /** The closed ring of the rectangle the bounds describe. */
  function PolygonFromBounds(b: Bounds): (ring: seq<Point>)
    ensures |ring| == 5 && ring[0] == ring[4]
    ensures forall k :: 0 <= k < 4 ==> ring[k].0 == ring[k + 1].0 || ring[k].1 == ring[k + 1].1
  {
    [(b.minx, b.miny), (b.minx, b.maxy), (b.maxx, b.maxy), (b.maxx, b.miny), (b.minx, b.miny)]
  }

  function Min(a: real, b: real): real { if a <= b then a else b }
  function Max(a: real, b: real): real { if a <= b then b else a }

  /** The bounds of a ring: the smallest and largest coordinates of its points. */
  function Envelope(ring: seq<Point>): Bounds
    requires |ring| > 0
    decreases |ring|
  {
    if |ring| == 1 then Bounds(ring[0].0, ring[0].1, ring[0].0, ring[0].1)
    else
      var e := Envelope(ring[1..]);
      Bounds(Min(ring[0].0, e.minx), Min(ring[0].1, e.miny), Max(ring[0].0, e.maxx), Max(ring[0].1, e.maxy))
  }

  /** The rectangle built from ordered bounds has exactly those bounds. */
  lemma EnvelopeOfPolygonFromBounds(b: Bounds)
    requires b.minx <= b.maxx && b.miny <= b.maxy
    ensures Envelope(PolygonFromBounds(b)) == b
  {
    var ring := PolygonFromBounds(b);
    assert Envelope(ring[4..]) == Bounds(b.minx, b.miny, b.minx, b.miny);
    assert ring[3..][1..] == ring[4..];
    assert Envelope(ring[3..]) == Bounds(b.minx, b.miny, b.maxx, b.miny);
    assert ring[2..][1..] == ring[3..];
    assert Envelope(ring[2..]) == Bounds(b.minx, b.miny, b.maxx, b.maxy);
    assert ring[1..][1..] == ring[2..];
    assert Envelope(ring[1..]) == b;
  }

  /** The bands, tried from the most to the least severe. */
  const BandOrder: seq<HazardLevel> := [HIG, MED, LOW]

  /**
   * What the processing sees of the rasters and geometries of one hazardset: the bounds of the
   * raster of each band, the window each band's raster yields over a division (with the
   * rasterised division), and whether a division's reprojected geometry meets a coverage.
   */
  datatype Scene = Scene(
    bounds: HazardLevel -> Bounds,
    window: (HazardLevel, int) -> Window,
    intersects: (int, seq<seq<Point>>) -> bool)

  /** The coverage of the hazardset: the union of the rectangles of its three rasters. */
  function Coverage(scene: Scene): seq<seq<Point>>
  {
    [PolygonFromBounds(scene.bounds(HIG)), PolygonFromBounds(scene.bounds(MED)), PolygonFromBounds(scene.bounds(LOW))]
  }

  // ----- which hazardsets are processed -----

  predicate Eligible(h: HazardSet, id: Option<string>, force: bool)
  {
    h.complete && (id.None? || h.id == id.value) && (force || !h.processed)
  }

  /** The hazardsets the processing visits, in table order. */
  function Selected(hazardsets: seq<HazardSet>, id: Option<string>, force: bool): (r: seq<HazardSet>)
    ensures forall h :: h in r <==> h in hazardsets && Eligible(h, id, force)
  {
    Filter(hazardsets, (h: HazardSet) => Eligible(h, id, force))
  }

  // ----- the band layers -----

  /** The layers of the hazardset at one level. */
  function LayersAt(layers: seq<Layer>, id: string, level: HazardLevel): seq<Layer>
  {
    Filter(layers, (l: Layer) => l.hazardsetId == id && l.level == Some(level))
  }

  /** For each level, the one layer of the hazardset at that level; a lookup that does not find exactly one raises. */
  function BandLayers(layers: seq<Layer>, id: string, levels: seq<HazardLevel>): (r: Result<seq<Layer>, ProcessError>)
    ensures r.Ok? <==> forall k :: 0 <= k < |levels| ==> |LayersAt(layers, id, levels[k])| == 1
    ensures r.Ok? ==> (|r.value| == |levels|
      && forall k :: 0 <= k < |levels| ==> r.value[k] == LayersAt(layers, id, levels[k])[0])
    ensures r.Err? ==> exists k :: (0 <= k < |levels|
      && r.error == LayerCount(levels[k], |LayersAt(layers, id, levels[k])|)
      && |LayersAt(layers, id, levels[k])| != 1
      && forall j :: 0 <= j < k ==> |LayersAt(layers, id, levels[j])| == 1)
    decreases |levels|
  {
    if |levels| == 0 then Ok([])
    else
      var found := LayersAt(layers, id, levels[0]);
      if |found| != 1 then Err(LayerCount(levels[0], |found|))
      else match BandLayers(layers, id, levels[1..])
        case Err(e) =>
          assert exists k :: (0 <= k < |levels| - 1 && e == LayerCount(levels[1..][k], |LayersAt(layers, id, levels[1..][k])|)
            && |LayersAt(layers, id, levels[1..][k])| != 1
            && forall j :: 0 <= j < k ==> |LayersAt(layers, id, levels[1..][j])| == 1);
          var k :| 0 <= k < |levels| - 1 && e == LayerCount(levels[1..][k], |LayersAt(layers, id, levels[1..][k])|)
            && |LayersAt(layers, id, levels[1..][k])| != 1
            && forall j :: 0 <= j < k ==> |LayersAt(layers, id, levels[1..][j])| == 1;
          assert forall j :: 0 <= j < k + 1 ==> |LayersAt(layers, id, levels[j])| == 1 by {
            forall j | 0 <= j < k + 1 ensures |LayersAt(layers, id, levels[j])| == 1 {
              if j > 0 { assert levels[j] == levels[1..][j - 1]; }
            }
          }
          Err(e)
        case Ok(rest) => Ok([found[0]] + rest)
  }

  /** Fills the per-level layer table, one query per band. */
  method LoadBandLayers(layers: seq<Layer>, id: string) returns (r: Result<seq<Layer>, ProcessError>)
    ensures r == BandLayers(layers, id, BandOrder)
  {
    var found: seq<Layer> := [];
    var i := 0;
    while i < |BandOrder|
      invariant 0 <= i <= |BandOrder|
      invariant |found| == i
      invariant forall j :: 0 <= j < i ==> |LayersAt(layers, id, BandOrder[j])| == 1
      invariant forall j :: 0 <= j < i ==> found[j] == LayersAt(layers, id, BandOrder[j])[0]
    {
      var level := BandOrder[i];
      var matching := LayersAt(layers, id, level);
      if |matching| != 1 {
        var spec := BandLayers(layers, id, BandOrder);
        var k :| 0 <= k < |BandOrder| && spec.error == LayerCount(BandOrder[k], |LayersAt(layers, id, BandOrder[k])|)
          && |LayersAt(layers, id, BandOrder[k])| != 1
          && forall j :: 0 <= j < k ==> |LayersAt(layers, id, BandOrder[j])| == 1;
        assert k == i;
        return Err(LayerCount(level, |matching|));
      }
      found := found + [matching[0]];
      i := i + 1;
    }
    assert BandLayers(layers, id, BandOrder).value == found;
    return Ok(found);
  }

  // ----- the divisions -----

  /** The REG divisions the query yields; a local hazardset only asks for those meeting its coverage. */
  predicate Queried(d: Division, local: bool, scene: Scene, rings: seq<seq<Point>>)
  {
    d.leveltype == REG && (!local || (d.hasGeometry && scene.intersects(d.id, rings)))
  }

  function Candidates(divisions: seq<Division>, local: bool, scene: Scene, rings: seq<seq<Point>>): seq<Division>
  {
    Filter(divisions, (d: Division) => Queried(d, local, scene, rings))
  }

  /** The three bands of a division, in the order HIG, MED, LOW. */
  function BandsFor(ls: seq<Layer>, scene: Scene, divisionId: int): seq<Band>
    requires |ls| == 3
  {
    [Band(HIG, ls[0].unit, scene.window(HIG, divisionId)),
     Band(MED, ls[1].unit, scene.window(MED, divisionId)),
     Band(LOW, ls[2].unit, scene.window(LOW, divisionId))]
  }

  /** The level the band loop gives division `d`. */
  function DivisionLevel(d: Division, ls: seq<Layer>, thresholds: map<string, int>, scene: Scene, rings: seq<seq<Point>>)
    : Result<Option<HazardLevel>, ProcessError>
    requires |ls| == 3
  {
    Classify(scene.intersects(d.id, rings), BandsFor(ls, scene, d.id), thresholds, None)
  }

  function Prepend(head: seq<Output>, r: Result<seq<Output>, ProcessError>): Result<seq<Output>, ProcessError>
  {
    if r.Ok? then Ok(head + r.value) else r
  }

  lemma PrependTwice(a: seq<Output>, b: seq<Output>, r: Result<seq<Output>, ProcessError>)
    ensures Prepend(a, Prepend(b, r)) == Prepend(a + b, r)
  {
    if r.Ok? {
      assert a + (b + r.value) == (a + b) + r.value;
    }
  }

  /**
   * The Outputs the division loop adds: divisions with a null geometry are skipped, an Output is
   * added only when the band loop gives a level, and the first raised error ends the loop.
   */
  function DivisionOutputs(divisions: seq<Division>, hazardsetId: string, ls: seq<Layer>, thresholds: map<string, int>,
                           scene: Scene, rings: seq<seq<Point>>): Result<seq<Output>, ProcessError>
    requires |ls| == 3
    decreases |divisions|
  {
    if |divisions| == 0 then Ok([])
    else
      var d := divisions[0];
      var rest := DivisionOutputs(divisions[1..], hazardsetId, ls, thresholds, scene, rings);
      if !d.hasGeometry then rest
      else match DivisionLevel(d, ls, thresholds, scene, rings)
        case Err(e) => Err(e)
        case Ok(None) => rest
        case Ok(Some(level)) => Prepend([Output(hazardsetId, d.id, level, 100)], rest)
  }

  /** The outputs of every other hazardset. */
  function WithoutHazardSet(outputs: seq<Output>, id: string): seq<Output>
  {
    Filter(outputs, (o: Output) => o.hazardsetId != id)
  }

  /**
   * One run of the processing of hazardset `id` on the tables `t`: the new tables, or the error
   * that rolls the run back.
   */
  function ProcessStep(t: Tables, id: string, force: bool, scene: Scene, settings: Settings): (r: Result<Tables, ProcessError>)
    ensures FindHazardSet(t.hazardsets, id).None? ==> r == Err(MissingHazardSet(id))
    ensures FindHazardSet(t.hazardsets, id).Some? && t.hazardsets[FindHazardSet(t.hazardsets, id).value].processed && !force
      ==> r == Err(AlreadyProcessed(id))
    ensures r.Ok? ==> (FindHazardSet(t.hazardsets, id).Some?
      && var k := FindHazardSet(t.hazardsets, id).value;
         r.value.hazardsets == t.hazardsets[k := t.hazardsets[k].(processed := true)])
    ensures r.Ok? ==> (r.value.layers == t.layers && r.value.divisions == t.divisions
      && r.value.categories == t.categories && r.value.published == t.published)
  {
    match FindHazardSet(t.hazardsets, id)
    case None => Err(MissingHazardSet(id))
    case Some(k) =>
      var hs := t.hazardsets[k];
      if hs.processed && !force then Err(AlreadyProcessed(id))
      else match SettingsOf(settings, hs.hazardtype)
        case None => Err(MissingSettings(hs.hazardtype))
        case Some(ts) => match BandLayers(t.layers, id, BandOrder)
          case Err(e) => Err(e)
          case Ok(ls) =>
            var rings := Coverage(scene);
            match DivisionOutputs(Candidates(t.divisions, hs.local, scene, rings), id, ls, ts.thresholds, scene, rings)
            case Err(e) => Err(e)
            case Ok(added) =>
              Ok(t.(hazardsets := t.hazardsets[k := hs.(processed := true)],
                    outputs := WithoutHazardSet(t.outputs, id) + added))
  }

  /** The Outputs a successful run of `ProcessStep` adds. */
  function AddedOutputs(t: Tables, id: string, scene: Scene, settings: Settings): Result<seq<Output>, ProcessError>
    requires FindHazardSet(t.hazardsets, id).Some?
    requires SettingsOf(settings, t.hazardsets[FindHazardSet(t.hazardsets, id).value].hazardtype).Some?
    requires BandLayers(t.layers, id, BandOrder).Ok?
  {
    var hs := t.hazardsets[FindHazardSet(t.hazardsets, id).value];
    var rings := Coverage(scene);
    DivisionOutputs(Candidates(t.divisions, hs.local, scene, rings), id, BandLayers(t.layers, id, BandOrder).value,
                    SettingsOf(settings, hs.hazardtype).value.thresholds, scene, rings)
  }

  /** Adds the Output of every division in turn. */
  method EmitOutputs(db: Session, divisions: seq<Division>, hazardsetId: string, ls: seq<Layer>,
                     thresholds: map<string, int>, scene: Scene, rings: seq<seq<Point>>) returns (r: Outcome<ProcessError>)
    requires |ls| == 3
    modifies db
    ensures db.hazardsets == old(db.hazardsets) && db.layers == old(db.layers) && db.divisions == old(db.divisions)
    ensures db.categories == old(db.categories) && db.published == old(db.published)
    ensures var spec := DivisionOutputs(divisions, hazardsetId, ls, thresholds, scene, rings);
      (r.Fail? <==> spec.Err?) && (r.Fail? ==> r.error == spec.error)
      && (r.Pass? ==> db.outputs == old(db.outputs) + spec.value)
  {
    var added: seq<Output> := [];
    var i := 0;
    assert divisions[0..] == divisions;
    ghost var all := DivisionOutputs(divisions, hazardsetId, ls, thresholds, scene, rings);
    if all.Ok? {
      assert [] + all.value == all.value;
    }
    while i < |divisions|
      invariant 0 <= i <= |divisions|
      invariant db.outputs == old(db.outputs) + added
      invariant db.hazardsets == old(db.hazardsets) && db.layers == old(db.layers) && db.divisions == old(db.divisions)
      invariant db.categories == old(db.categories) && db.published == old(db.published)
      invariant DivisionOutputs(divisions, hazardsetId, ls, thresholds, scene, rings)
             == Prepend(added, DivisionOutputs(divisions[i..], hazardsetId, ls, thresholds, scene, rings))
    {
      var d := divisions[i];
      assert divisions[i..][0] == d && divisions[i..][1..] == divisions[i + 1..];
      ghost var rest := DivisionOutputs(divisions[i + 1..], hazardsetId, ls, thresholds, scene, rings);
      if d.hasGeometry {
        var level := ClassifyDivision(scene.intersects(d.id, rings), BandsFor(ls, scene, d.id), thresholds);
        if level.Err? {
          return Fail(level.error);
        }
        if level.value.Some? {
          var o := Output(hazardsetId, d.id, level.value.value, 100);
          PrependTwice(added, [o], rest);
          db.outputs := db.outputs + [o];
          added := added + [o];
        }
      }
      i := i + 1;
    }
    assert divisions[i..] == [];
    return Pass;
  }

  /** Processes one hazardset; any raised error rolls the whole unit of work back. */
  method ProcessHazardset(db: Session, id: string, force: bool, scene: Scene, settings: Settings)
    returns (r: Outcome<ProcessError>)
    modifies db
    ensures var step := ProcessStep(old(db.Snapshot()), id, force, scene, settings);
      (r.Fail? <==> step.Err?)
      && (r.Fail? ==> r.error == step.error && db.Snapshot() == old(db.Snapshot()))
      && (r.Pass? ==> db.Snapshot() == step.value)
  {
    var saved := db.Snapshot();
    var k := FindHazardSet(db.hazardsets, id);
    if k.None? {
      return Fail(MissingHazardSet(id));
    }
    var hs := db.hazardsets[k.value];
    if hs.processed {
      if force {
        db.hazardsets := db.hazardsets[k.value := hs.(processed := false)];
      } else {
        return Fail(AlreadyProcessed(id));
      }
    }
    // clean previous outputs
    db.outputs := WithoutHazardSet(db.outputs, id);
    var ts := SettingsOf(settings, hs.hazardtype);
    if ts.None? {
      db.Restore(saved);
      return Fail(MissingSettings(hs.hazardtype));
    }
    var ls := LoadBandLayers(db.layers, id);
    if ls.Err? {
      assert ProcessStep(saved, id, force, scene, settings) == Err(ls.error);
      db.Restore(saved);
      return Fail(ls.error);
    }
    var rings := Coverage(scene);
    var candidates := Candidates(db.divisions, hs.local, scene, rings);
    ghost var cleaned := db.outputs;
    var emitted := EmitOutputs(db, candidates, id, ls.value, ts.value.thresholds, scene, rings);
    ghost var added := DivisionOutputs(candidates, id, ls.value, ts.value.thresholds, scene, rings);
    if emitted.Fail? {
      assert ProcessStep(saved, id, force, scene, settings) == Err(added.error);
      db.Restore(saved);
      return emitted;
    }
    assert ProcessStep(saved, id, force, scene, settings)
      == Ok(saved.(hazardsets := saved.hazardsets[k.value := hs.(processed := true)], outputs := cleaned + added.value));
    db.hazardsets := saved.hazardsets[k.value := hs.(processed := true)];
    return Pass;
  }

  /** The batch: each hazardset in turn, the first raised error ending it with the earlier runs kept. */
  function ProcessAll(t: Tables, hazardsets: seq<HazardSet>, force: bool, scenes: string -> Scene, settings: Settings)
    : (Tables, Outcome<ProcessError>)
    decreases |hazardsets|
  {
    if |hazardsets| == 0 then (t, Pass)
    else match ProcessStep(t, hazardsets[0].id, force, scenes(hazardsets[0].id), settings)
      case Err(e) => (t, Fail(e))
      case Ok(next) => ProcessAll(next, hazardsets[1..], force, scenes, settings)
  }

  lemma ProcessAllUnfold(t: Tables, hazardsets: seq<HazardSet>, force: bool, scenes: string -> Scene, settings: Settings)
    requires |hazardsets| > 0
    ensures var step := ProcessStep(t, hazardsets[0].id, force, scenes(hazardsets[0].id), settings);
      ProcessAll(t, hazardsets, force, scenes, settings)
      == if step.Err? then (t, Fail(step.error)) else ProcessAll(step.value, hazardsets[1..], force, scenes, settings)
  {
  }

  /** Processes the complete hazardsets, only `id` if given, only unprocessed ones unless forced. */
  method Process(db: Session, id: Option<string>, force: bool, scenes: string -> Scene, settings: Settings)
    returns (r: Outcome<ProcessError>)
    modifies db
    ensures (db.Snapshot(), r) == ProcessAll(old(db.Snapshot()), Selected(old(db.hazardsets), id, force), force, scenes, settings)
  {
    var selected := Selected(db.hazardsets, id, force);
    if |selected| == 0 {
      return Pass;
    }
    var i := 0;
    while i < |selected|
      invariant 0 <= i <= |selected|
      invariant ProcessAll(old(db.Snapshot()), selected, force, scenes, settings)
             == ProcessAll(db.Snapshot(), selected[i..], force, scenes, settings)
    {
      assert selected[i..][0] == selected[i] && selected[i..][1..] == selected[i + 1..];
      ghost var before := db.Snapshot();
      var step := ProcessHazardset(db, selected[i].id, force, scenes(selected[i].id), settings);
      ProcessAllUnfold(before, selected[i..], force, scenes, settings);
      if step.Fail? {
        return step;
      }
      i := i + 1;
    }
    assert selected[i..] == [];
    return Pass;
  }

  // ----- properties -----

  /** Every added Output belongs to the hazardset, covers 100 and carries the level its division was given. */
  lemma {:induction false} DivisionOutputsSound(divisions: seq<Division>, hazardsetId: string, ls: seq<Layer>,
                                                thresholds: map<string, int>, scene: Scene, rings: seq<seq<Point>>)
    requires |ls| == 3
    requires DivisionOutputs(divisions, hazardsetId, ls, thresholds, scene, rings).Ok?
    ensures forall o :: o in DivisionOutputs(divisions, hazardsetId, ls, thresholds, scene, rings).value ==>
      o.hazardsetId == hazardsetId && o.coverageRatio == 100
      && exists d :: d in divisions && d.id == o.divisionId && d.hasGeometry
                     && DivisionLevel(d, ls, thresholds, scene, rings) == Ok(Some(o.level))
    decreases |divisions|
  {
    if |divisions| > 0 {
      DivisionOutputsSound(divisions[1..], hazardsetId, ls, thresholds, scene, rings);
      assert forall d :: d in divisions[1..] ==> d in divisions;
    }
  }

  /**
   * When the division loop raises nothing, every division with a geometry was classified without
   * error, and each division the band loop gives a level has its Output.
   */
  lemma {:induction false} DivisionOutputsComplete(divisions: seq<Division>, hazardsetId: string, ls: seq<Layer>,
                                                   thresholds: map<string, int>, scene: Scene, rings: seq<seq<Point>>, d: Division)
    requires |ls| == 3
    requires DivisionOutputs(divisions, hazardsetId, ls, thresholds, scene, rings).Ok?
    requires d in divisions && d.hasGeometry
    ensures DivisionLevel(d, ls, thresholds, scene, rings).Ok?
    ensures DivisionLevel(d, ls, thresholds, scene, rings).value.Some? ==>
      Output(hazardsetId, d.id, DivisionLevel(d, ls, thresholds, scene, rings).value.value, 100)
        in DivisionOutputs(divisions, hazardsetId, ls, thresholds, scene, rings).value
    decreases |divisions|
  {
    if divisions[0] != d {
      DivisionOutputsComplete(divisions[1..], hazardsetId, ls, thresholds, scene, rings, d);
    }
  }

  /** The intersection filter a local hazardset adds to the division query changes none of the Outputs. */
  lemma {:induction false} LocalPrefilterChangesNothing(divisions: seq<Division>, hazardsetId: string, ls: seq<Layer>,
                                                        thresholds: map<string, int>, scene: Scene, rings: seq<seq<Point>>)
    requires |ls| == 3
    ensures DivisionOutputs(Candidates(divisions, true, scene, rings), hazardsetId, ls, thresholds, scene, rings)
         == DivisionOutputs(Candidates(divisions, false, scene, rings), hazardsetId, ls, thresholds, scene, rings)
    decreases |divisions|
  {
    if |divisions| > 0 {
      var d := divisions[0];
      var localRest := Candidates(divisions[1..], true, scene, rings);
      var globalRest := Candidates(divisions[1..], false, scene, rings);
      LocalPrefilterChangesNothing(divisions[1..], hazardsetId, ls, thresholds, scene, rings);
      var rest := DivisionOutputs(globalRest, hazardsetId, ls, thresholds, scene, rings);
      if d.leveltype == REG {
        assert Candidates(divisions, false, scene, rings) == [d] + globalRest;
        assert ([d] + globalRest)[1..] == globalRest;
        if d.hasGeometry && scene.intersects(d.id, rings) {
          assert Candidates(divisions, true, scene, rings) == [d] + localRest;
          assert ([d] + localRest)[1..] == localRest;
        } else {
          assert Candidates(divisions, true, scene, rings) == localRest;
          if d.hasGeometry {
            NoIntersectionNoLevel(BandsFor(ls, scene, d.id), thresholds, None);
          }
        }
      }
    }
  }

  /** `ProcessStep` succeeds exactly when every lookup succeeds and the division loop raises nothing. */
  lemma ProcessStepSucceeds(t: Tables, id: string, force: bool, scene: Scene, settings: Settings)
    ensures ProcessStep(t, id, force, scene, settings).Ok? <==>
      FindHazardSet(t.hazardsets, id).Some?
      && (force || !t.hazardsets[FindHazardSet(t.hazardsets, id).value].processed)
      && SettingsOf(settings, t.hazardsets[FindHazardSet(t.hazardsets, id).value].hazardtype).Some?
      && BandLayers(t.layers, id, BandOrder).Ok?
      && AddedOutputs(t, id, scene, settings).Ok?
    ensures ProcessStep(t, id, force, scene, settings).Ok? ==>
      ProcessStep(t, id, force, scene, settings).value.outputs
        == WithoutHazardSet(t.outputs, id) + AddedOutputs(t, id, scene, settings).value
  {
  }

  /**
   * After a run, the other hazardsets' Outputs are as before, and the hazardset's Outputs are for
   * REG divisions with a geometry, each with the level the band loop gives it.
   */
  lemma ProcessStepOutputs(t: Tables, id: string, force: bool, scene: Scene, settings: Settings)
    requires ProcessStep(t, id, force, scene, settings).Ok?
    ensures var after := ProcessStep(t, id, force, scene, settings).value;
      forall o: Output :: o.hazardsetId != id ==> (o in after.outputs <==> o in t.outputs)
    ensures var after := ProcessStep(t, id, force, scene, settings).value;
      var hs := t.hazardsets[FindHazardSet(t.hazardsets, id).value];
      var ls := BandLayers(t.layers, id, BandOrder).value;
      var thresholds := SettingsOf(settings, hs.hazardtype).value.thresholds;
      forall o :: o in after.outputs && o.hazardsetId == id ==>
        o.coverageRatio == 100
        && exists d :: d in t.divisions && d.id == o.divisionId && d.leveltype == REG && d.hasGeometry
                       && DivisionLevel(d, ls, thresholds, scene, Coverage(scene)) == Ok(Some(o.level))
  {
    ProcessStepSucceeds(t, id, force, scene, settings);
    var after := ProcessStep(t, id, force, scene, settings).value;
    var hs := t.hazardsets[FindHazardSet(t.hazardsets, id).value];
    var ls := BandLayers(t.layers, id, BandOrder).value;
    var thresholds := SettingsOf(settings, hs.hazardtype).value.thresholds;
    var candidates := Candidates(t.divisions, hs.local, scene, Coverage(scene));
    var added := AddedOutputs(t, id, scene, settings).value;
    DivisionOutputsSound(candidates, id, ls, thresholds, scene, Coverage(scene));
    var kept := WithoutHazardSet(t.outputs, id);
    forall o: Output | o.hazardsetId != id
      ensures o in after.outputs <==> o in t.outputs
    {
      if o in t.outputs {
        var k :| 0 <= k < |t.outputs| && t.outputs[k] == o;
        assert o in kept;
      }
    }
  }

  /** Processing a hazardset again, forced, leaves the tables as the first run left them. */
  lemma ForcedRerunIsIdempotent(t: Tables, id: string, force: bool, scene: Scene, settings: Settings)
    requires ProcessStep(t, id, force, scene, settings).Ok?
    ensures ProcessStep(ProcessStep(t, id, force, scene, settings).value, id, true, scene, settings)
         == ProcessStep(t, id, force, scene, settings)
  {
    ProcessStepSucceeds(t, id, force, scene, settings);
    var after := ProcessStep(t, id, force, scene, settings).value;
    var k := FindHazardSet(t.hazardsets, id).value;
    var hs := t.hazardsets[k];
    FirstIndexUpdate(t.hazardsets, k, hs.(processed := true), (h: HazardSet) => h.id == id);
    assert FindHazardSet(after.hazardsets, id) == Some(k);
    assert after.hazardsets[k] == hs.(processed := true);
    var added := AddedOutputs(t, id, scene, settings).value;
    assert AddedOutputs(after, id, scene, settings) == AddedOutputs(t, id, scene, settings);
    var kept := WithoutHazardSet(t.outputs, id);
    DivisionOutputsSound(Candidates(t.divisions, hs.local, scene, Coverage(scene)), id,
                         BandLayers(t.layers, id, BandOrder).value,
                         SettingsOf(settings, hs.hazardtype).value.thresholds, scene, Coverage(scene));
    FilterAppend(kept, added, (o: Output) => o.hazardsetId != id);
    FilterAll(kept, (o: Output) => o.hazardsetId != id);
    FilterNone(added, (o: Output) => o.hazardsetId != id);
    assert WithoutHazardSet(after.outputs, id) == kept;
    assert after.hazardsets[k := after.hazardsets[k].(processed := true)] == after.hazardsets;
  }

  /** Hazardset `id` would not be rejected as already processed. */
  predicate Unprocessed(t: Tables, id: string, force: bool)
  {
    force || FindHazardSet(t.hazardsets, id).None? || !t.hazardsets[FindHazardSet(t.hazardsets, id).value].processed
  }

  /** A run only changes its own hazardset's row, so the others stay as unprocessed as they were. */
  lemma ProcessStepKeepsOthers(t: Tables, id: string, force: bool, scene: Scene, settings: Settings, other: string)
    requires ProcessStep(t, id, force, scene, settings).Ok?
    requires other != id
    ensures var after := ProcessStep(t, id, force, scene, settings).value;
      FindHazardSet(after.hazardsets, other) == FindHazardSet(t.hazardsets, other)
      && (FindHazardSet(t.hazardsets, other).Some? ==>
            after.hazardsets[FindHazardSet(t.hazardsets, other).value] == t.hazardsets[FindHazardSet(t.hazardsets, other).value])
  {
    var k := FindHazardSet(t.hazardsets, id).value;
    FirstIndexUpdate(t.hazardsets, k, t.hazardsets[k].(processed := true), (h: HazardSet) => h.id == other);
  }

  lemma {:induction false} BatchStepsNeverFindProcessed(t: Tables, hazardsets: seq<HazardSet>, force: bool,
                                                        scenes: string -> Scene, settings: Settings)
    requires UniqueIds(hazardsets)
    requires forall i :: 0 <= i < |hazardsets| ==> Unprocessed(t, hazardsets[i].id, force)
    ensures var r := ProcessAll(t, hazardsets, force, scenes, settings).1;
      r.Fail? ==> !r.error.AlreadyProcessed?
    decreases |hazardsets|
  {
    if |hazardsets| > 0 {
      var id := hazardsets[0].id;
      var step := ProcessStep(t, id, force, scenes(id), settings);
      if step.Ok? {
        forall i | 0 <= i < |hazardsets[1..]|
          ensures Unprocessed(step.value, hazardsets[1..][i].id, force)
        {
          assert hazardsets[1..][i] == hazardsets[i + 1];
          ProcessStepKeepsOthers(t, id, force, scenes(id), settings, hazardsets[i + 1].id);
        }
        BatchStepsNeverFindProcessed(step.value, hazardsets[1..], force, scenes, settings);
      } else {
        ProcessStepSucceeds(t, id, force, scenes(id), settings);
        if step.error.AlreadyProcessed? {
          var hs := t.hazardsets[FindHazardSet(t.hazardsets, id).value];
          var rings := Coverage(scenes(id));
          var r := DivisionOutputs(Candidates(t.divisions, hs.local, scenes(id), rings), id,
                                   BandLayers(t.layers, id, BandOrder).value,
                                   SettingsOf(settings, hs.hazardtype).value.thresholds, scenes(id), rings);
          DivisionOutputsRaiseUnknownUnit(Candidates(t.divisions, hs.local, scenes(id), rings), id,
                                          BandLayers(t.layers, id, BandOrder).value,
                                          SettingsOf(settings, hs.hazardtype).value.thresholds, scenes(id), rings);
        }
      }
    }
  }

  /** The division loop can only raise on a unit without a threshold. */
  lemma {:induction false} DivisionOutputsRaiseUnknownUnit(divisions: seq<Division>, hazardsetId: string, ls: seq<Layer>,
                                                           thresholds: map<string, int>, scene: Scene, rings: seq<seq<Point>>)
    requires |ls| == 3
    ensures DivisionOutputs(divisions, hazardsetId, ls, thresholds, scene, rings).Err? ==>
      DivisionOutputs(divisions, hazardsetId, ls, thresholds, scene, rings).error.UnknownUnit?
    decreases |divisions|
  {
    if |divisions| > 0 {
      DivisionOutputsRaiseUnknownUnit(divisions[1..], hazardsetId, ls, thresholds, scene, rings);
    }
  }

  /** With unique primary keys, a batch never stops on a hazardset it finds already processed. */
  lemma BatchNeverFindsProcessed(t: Tables, id: Option<string>, force: bool, scenes: string -> Scene, settings: Settings)
    requires UniqueIds(t.hazardsets)
    ensures var r := ProcessAll(t, Selected(t.hazardsets, id, force), force, scenes, settings).1;
      r.Fail? ==> !r.error.AlreadyProcessed?
  {
    var selected := Selected(t.hazardsets, id, force);
    SelectedUniqueIds(t.hazardsets, id, force);
    forall i | 0 <= i < |selected|
      ensures Unprocessed(t, selected[i].id, force)
    {
      assert selected[i] in selected;
      var j :| 0 <= j < |t.hazardsets| && t.hazardsets[j] == selected[i];
      assert FindHazardSet(t.hazardsets, selected[i].id).Some?;
      assert FindHazardSet(t.hazardsets, selected[i].id).value == j;
    }
    BatchStepsNeverFindProcessed(t, selected, force, scenes, settings);
  }

  lemma {:induction false} SelectedUniqueIds(hazardsets: seq<HazardSet>, id: Option<string>, force: bool)
    requires UniqueIds(hazardsets)
    ensures UniqueIds(Selected(hazardsets, id, force))
    decreases |hazardsets|
  {
    if |hazardsets| > 0 {
      SelectedUniqueIds(hazardsets[1..], id, force);
      var rest := Selected(hazardsets[1..], id, force);
      assert forall k :: 0 <= k < |rest| ==> rest[k] in hazardsets[1..];
    }
  }
}
